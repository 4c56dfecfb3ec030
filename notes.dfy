/** The notes log (`backend/backend/notes.py`): a text file that may be missing. */
module Notes {

  const NotFoundSentinel: string := "Note file not found."

  /** `NotesFile`: the file's presence on disk and its contents. */
  class NotesFile {
    var present: bool
    var content: string

    constructor (present: bool, content: string)
      ensures this.present == present && this.content == content
    {
      this.present := present;
      this.content := content;
    }

    /** `read`: the whole contents, or the sentinel text when the file is missing; never fails. */
    method Read() returns (text: string)
      ensures present ==> text == content
      ensures !present ==> text == NotFoundSentinel
    {
      if present {
        text := content;
      } else {
        text := NotFoundSentinel;
      }
    }

    /** `append`: opening in append mode creates a missing file; the line and a newline go at the end. */
    method Append(line: string)
      modifies this
      ensures present
      ensures content == (if old(present) then old(content) else "") + line + "\n"
    {
      if !present {
        present, content := true, "";
      }
      content := content + line + "\n";
    }

    /** `clear`: opening in write mode truncates, leaving an existing, empty file. */
    method Clear()
      modifies this
      ensures present && content == ""
    {
      present, content := true, "";
    }
  }

  /** After an append, reading returns the old contents (of an existing file) followed by the
      line and a newline. */
  method ReadAfterAppend(notes: NotesFile, line: string) returns (text: string)
    modifies notes
    ensures old(notes.present) ==> text == old(notes.content) + line + "\n"
    ensures !old(notes.present) ==> text == line + "\n"
    ensures |text| >= |line| + 1 && text[|text| - |line| - 1..] == line + "\n"
  {
    notes.Append(line);
    text := notes.Read();
  }

  /** After a clear, reading returns the empty text rather than the sentinel; after a clear and
      an append, exactly the appended line and a newline. */
  method ReadAfterClear(notes: NotesFile, line: string) returns (cleared: string, appended: string)
    modifies notes
    ensures cleared == "" && cleared != NotFoundSentinel
    ensures appended == line + "\n"
  {
    notes.Clear();
    cleared := notes.Read();
    notes.Append(line);
    appended := notes.Read();
  }
}
