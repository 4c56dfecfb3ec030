/** The HTTP chat routes (`backend/backend/routes/chat.py`): a process-wide registry from chat id
    to hosted chat session, filled by the three session-start routes and read by `/chat/message`.
    The hosted model's answers are inputs: the outcome of creating a session and of sending it
    a message. */
module ChatRoutes {
  import opened Outcomes

  /** A hosted chat session, known only by an opaque handle. */
  datatype Chat = Chat(handle: nat)

  /** What `request.json` gives `/chat/message`: nothing (a JSON `null` body), or an object whose
      `chat_id` and `message` keys may be missing. */
  datatype MessageRequest = NoJson | Json(chatId: Option<string>, message: Option<string>)

  datatype Body =
    | ChatIdBody(chatId: string)
    | ChatIdResponseBody(chatId: string, response: string)
    | ResponseBody(response: string)
    | ErrorBody(error: string)

  /** A JSON body with its HTTP status code. */
  datatype Response = Response(status: int, body: Body)

  const InvalidRequest: string := "Invalid request format"
  const ChatNotFound: string := "Chat not found"
  const EmptyMessage: string := "Message cannot be empty"
  const EmptyReply: string := "Received empty response from the model"

  /** Python truthiness of an optional string: present and non-empty. */
  predicate Truthy(s: Option<string>)
  {
    s.Some? && s.value != ""
  }

  /** The `chats` dictionary. */
  class ChatRegistry {
    var chats: map<string, Chat>

    constructor ()
      ensures chats == map[]
    {
      chats := map[];
    }

    /** `GET /chat/request`: a created session is stored under the new id, which is returned with
        200; a failure to create one returns 500 with its message and stores nothing. */
    method RequestItem(created: Result<Chat>, chatId: string) returns (resp: Response)
      modifies this
      ensures created.Ok? ==> chats == old(chats)[chatId := created.value] && resp == Response(200, ChatIdBody(chatId))
      ensures created.Err? ==> chats == old(chats) && resp == Response(500, ErrorBody(created.msg))
      ensures old(chats).Keys <= chats.Keys
      ensures chatId !in old(chats) ==> forall k :: k in old(chats) ==> chats[k] == old(chats)[k]
    {
      match created
      case Err(e) =>
        resp := Response(500, ErrorBody(e));
      case Ok(chat) =>
        chats := chats[chatId := chat];
        resp := Response(200, ChatIdBody(chatId));
    }

    /** `GET /chat/haggle`: as `/chat/request`, for a haggling session. */
    method Haggle(created: Result<Chat>, chatId: string) returns (resp: Response)
      modifies this
      ensures created.Ok? ==> chats == old(chats)[chatId := created.value] && resp == Response(200, ChatIdBody(chatId))
      ensures created.Err? ==> chats == old(chats) && resp == Response(500, ErrorBody(created.msg))
      ensures old(chats).Keys <= chats.Keys
      ensures chatId !in old(chats) ==> forall k :: k in old(chats) ==> chats[k] == old(chats)[k]
    {
      match created
      case Err(e) =>
        resp := Response(500, ErrorBody(e));
      case Ok(chat) =>
        chats := chats[chatId := chat];
        resp := Response(200, ChatIdBody(chatId));
    }

    /** `GET /chat/restock`: creating the session also yields the model's first reply, returned
        beside the new id. */
    method Restock(created: Result<(Chat, string)>, chatId: string) returns (resp: Response)
      modifies this
      ensures created.Ok? ==>
        chats == old(chats)[chatId := created.value.0] && resp == Response(200, ChatIdResponseBody(chatId, created.value.1))
      ensures created.Err? ==> chats == old(chats) && resp == Response(500, ErrorBody(created.msg))
      ensures old(chats).Keys <= chats.Keys
      ensures chatId !in old(chats) ==> forall k :: k in old(chats) ==> chats[k] == old(chats)[k]
    {
      match created
      case Err(e) =>
        resp := Response(500, ErrorBody(e));
      case Ok((chat, first)) =>
        chats := chats[chatId := chat];
        resp := Response(200, ChatIdResponseBody(chatId, first));
    }

    /** Whether the request names a registered chat. */
    predicate Found(req: MessageRequest)
      reads this
    {
      req.Json? && req.chatId.Some? && req.chatId.value in chats
    }

    /** `POST /chat/message`. `sent` is what `send_message` yields for the found chat and the message
        (a reply or the message of the exception it raised); it is consulted only when every check
        before it passes. The registry is only read. */
    function Message(req: MessageRequest, sent: Result<string>): (resp: Response)
      reads this
      ensures resp.status in {200, 400, 404, 500}
      ensures req.NoJson? ==> resp == Response(400, ErrorBody(InvalidRequest))
      ensures resp.status == 404 <==> req.Json? && !Found(req)
      ensures resp.status == 404 ==> resp.body == ErrorBody(ChatNotFound)
      ensures Found(req) && !Truthy(req.message) ==> resp == Response(400, ErrorBody(EmptyMessage))
      ensures resp.status == 400 <==> req.NoJson? || (Found(req) && !Truthy(req.message))
      ensures Found(req) && Truthy(req.message) && sent.Err? ==> resp == Response(500, ErrorBody(sent.msg))
      ensures Found(req) && Truthy(req.message) && sent == Ok("") ==> resp == Response(500, ErrorBody(EmptyReply))
      ensures resp.status == 200 <==> Found(req) && Truthy(req.message) && Truthy(sent.ToOption())
      ensures resp.status == 200 ==> resp.body == ResponseBody(sent.value)
    {
      if req.NoJson? then Response(400, ErrorBody(InvalidRequest))
      else if !Found(req) then Response(404, ErrorBody(ChatNotFound))
      else if !Truthy(req.message) then Response(400, ErrorBody(EmptyMessage))
      else match sent
        case Err(e) => Response(500, ErrorBody(e))
        case Ok(reply) =>
          if reply == "" then Response(500, ErrorBody(EmptyReply))
          else Response(200, ResponseBody(reply))
    }
  }
}
