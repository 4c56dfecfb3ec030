/** The Discord front end (`chatbot/chatbot/discord.py`): which thread talks to which chat, how the
    restock reply is split into Discord-sized messages, and which channel messages are forwarded.
    Network replies are inputs; what is sent or posted is returned. */
module DiscordBot {
  import opened Outcomes

  /** Discord's limit on the length of one message. */
  const MaxMessageLength: nat := 2000

  const ChatIdMissing: string := "Chat ID not found in response."
  const EmptyModelResponse: string := "Response from the model is empty."
  const ErrorPrefix: string := "An error occurred: "

  /** What a call to the chat HTTP API gave back: a transport or HTTP error with its message, or
      a JSON body with its optional `chat_id` and `response` strings. */
  datatype ApiReply = ApiFailed(error: string) | ApiOk(chatId: Option<string>, response: Option<string>)

  /** A channel message: its text, its author and the channel it was posted in. */
  datatype ChannelMessage = ChannelMessage(content: string, authorId: nat, authorName: string, channelId: nat)

  /** The body posted to `/chat/message`. */
  datatype Forward = Forward(chatId: string, message: string)

  /** The messages sent, joined back together. */
  function Concat(chunks: seq<string>): string
  {
    if chunks == [] then "" else chunks[0] + Concat(chunks[1..])
  }

  lemma {:induction false} ConcatSnoc(chunks: seq<string>, last: string)
    ensures Concat(chunks + [last]) == Concat(chunks) + last
  {
    if chunks != [] {
      assert (chunks + [last])[1..] == chunks[1..] + [last];
      ConcatSnoc(chunks[1..], last);
    }
  }

  /** The restock reply split into consecutive slices of at most 2000 characters, sent in order.
      They join back to the response; each holds at most 2000 characters, all but the last
      exactly 2000, and there are ceil(len / 2000) of them. */
  method Chunks(response: string) returns (sent: seq<string>)
    ensures Concat(sent) == response
    ensures forall k :: 0 <= k < |sent| ==> 0 < |sent[k]| <= MaxMessageLength
    ensures forall k :: 0 <= k < |sent| - 1 ==> |sent[k]| == MaxMessageLength
    ensures |sent| == (|response| + MaxMessageLength - 1) / MaxMessageLength
  {
    sent := [];
    var i := 0;
    while i < |response|
      invariant i == |sent| * MaxMessageLength
      invariant i <= |response| ==> Concat(sent) == response[..i]
      invariant i > |response| ==> Concat(sent) == response
      invariant sent != [] ==> i - MaxMessageLength < |response|
      invariant forall k :: 0 <= k < |sent| ==> 0 < |sent[k]| <= MaxMessageLength
      invariant forall k :: 0 <= k < |sent| - 1 ==> |sent[k]| == MaxMessageLength
      invariant i <= |response| ==> forall k :: 0 <= k < |sent| ==> |sent[k]| == MaxMessageLength
    {
      var end := if i + MaxMessageLength <= |response| then i + MaxMessageLength else |response|;
      var chunk := response[i..end];
      ConcatSnoc(sent, chunk);
      assert response[..i] + chunk == response[..end];
      sent := sent + [chunk];
      i := i + MaxMessageLength;
    }
    if i == |response| {
      assert response[..i] == response;
    }
  }

  /** The author's name, a colon and a space, then the content, cut to its first 2000 characters. */
  function ForwardedText(authorName: string, content: string): (text: string)
    ensures var full := authorName + ": " + content;
      && |text| == (if |full| < MaxMessageLength then |full| else MaxMessageLength)
      && text == full[..|text|]
  {
    var full := authorName + ": " + content;
    if |full| <= MaxMessageLength then full else full[..MaxMessageLength]
  }

  /** The error text a failed start of a request or haggle session leaves in the channel, if any. */
  function SessionError(api: ApiReply): (err: Option<string>)
    ensures err.None? <==> api.ApiOk? && api.chatId.Some? && api.chatId.value != ""
  {
    match api
    case ApiFailed(e) => Some(ErrorPrefix + e)
    case ApiOk(chatId, _) =>
      if chatId.Some? && chatId.value != "" then None else Some(ErrorPrefix + ChatIdMissing)
  }

  /** The bot: its own user id and the `_thread_chats` dictionary from thread id to chat id. */
  class CandyBowlBot {
    const userId: nat
    var threadChats: map<nat, string>

    constructor (userId: nat)
      ensures this.userId == userId && threadChats == map[]
    {
      this.userId := userId;
      threadChats := map[];
    }

    /** `/request`: outside a text channel nothing happens; otherwise the thread is registered
        only when the API returned a non-empty chat id, and a failure is reported in the channel. */
    method Request(inTextChannel: bool, threadId: nat, api: ApiReply) returns (followupError: Option<string>)
      modifies this
      ensures !inTextChannel ==> threadChats == old(threadChats) && followupError.None?
      ensures inTextChannel ==> followupError == SessionError(api)
      ensures inTextChannel && followupError.None? ==> threadChats == old(threadChats)[threadId := api.chatId.value]
      ensures followupError.Some? ==> threadChats == old(threadChats)
      ensures old(threadChats).Keys <= threadChats.Keys
    {
      followupError := None;
      if !inTextChannel {
        return;
      }
      followupError := SessionError(api);
      if followupError.None? {
        threadChats := threadChats[threadId := api.chatId.value];
      }
    }

    /** `/haggle`: as `/request`, for a haggling session. */
    method Haggle(inTextChannel: bool, threadId: nat, api: ApiReply) returns (followupError: Option<string>)
      modifies this
      ensures !inTextChannel ==> threadChats == old(threadChats) && followupError.None?
      ensures inTextChannel ==> followupError == SessionError(api)
      ensures inTextChannel && followupError.None? ==> threadChats == old(threadChats)[threadId := api.chatId.value]
      ensures followupError.Some? ==> threadChats == old(threadChats)
      ensures old(threadChats).Keys <= threadChats.Keys
    {
      followupError := None;
      if !inTextChannel {
        return;
      }
      followupError := SessionError(api);
      if followupError.None? {
        threadChats := threadChats[threadId := api.chatId.value];
      }
    }

    /** `/restock`: the thread is registered only when the API returned a non-empty chat id and a
        non-empty response; the response is then sent to the thread in 2000-character pieces. */
    method Restock(inTextChannel: bool, threadId: nat, api: ApiReply)
      returns (threadMessages: seq<string>, followupError: Option<string>)
      modifies this
      ensures !inTextChannel ==> threadChats == old(threadChats) && followupError.None? && threadMessages == []
      ensures var registered := inTextChannel && api.ApiOk? && api.chatId.Some? && api.chatId.value != ""
                                && api.response.Some? && api.response.value != "";
        && (registered ==> threadChats == old(threadChats)[threadId := api.chatId.value] && followupError.None?
                           && Concat(threadMessages) == api.response.value)
        && (!registered ==> threadChats == old(threadChats) && threadMessages == [])
        && (inTextChannel && !registered ==> followupError.Some?)
      ensures inTextChannel && SessionError(api).Some? ==> followupError == SessionError(api)
      ensures inTextChannel && SessionError(api).None? && !(api.response.Some? && api.response.value != "")
        ==> followupError == Some(ErrorPrefix + EmptyModelResponse)
      ensures forall k :: 0 <= k < |threadMessages| ==> 0 < |threadMessages[k]| <= MaxMessageLength
      ensures old(threadChats).Keys <= threadChats.Keys
    {
      threadMessages, followupError := [], None;
      if !inTextChannel {
        return;
      }
      followupError := SessionError(api);
      if followupError.Some? {
        return;
      }
      var response := api.response;
      if !(response.Some? && response.value != "") {
        followupError := Some(ErrorPrefix + EmptyModelResponse);
        return;
      }
      threadChats := threadChats[threadId := api.chatId.value];
      threadMessages := Chunks(response.value);
    }

    /** `on_message`: empty messages and the bot's own are dropped, as are messages in channels with
        no registered (non-empty) chat id; any other is forwarded to its thread's chat, prefixed with
        the author's name and cut to 2000 characters. */
    function OnMessage(msg: ChannelMessage): (fwd: Option<Forward>)
      reads this
      ensures fwd.Some? <==>
        |msg.content| > 0 && msg.authorId != userId && msg.channelId in threadChats && threadChats[msg.channelId] != ""
      ensures fwd.Some? ==> fwd.value == Forward(threadChats[msg.channelId], ForwardedText(msg.authorName, msg.content))
    {
      if |msg.content| == 0 || msg.authorId == userId then None
      else if msg.channelId in threadChats && threadChats[msg.channelId] != "" then
        Some(Forward(threadChats[msg.channelId], ForwardedText(msg.authorName, msg.content)))
      else None
    }
  }
}
