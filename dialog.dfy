/**
 * The transcript of the assistant dialog (class `AIDialog` in
 * core/ai_assistant.py): the chat text the dialog appends messages to, the
 * "thinking" placeholder shown while a request is pending, and its replacement
 * by the reply. The text widget is modelled as a string, positions as
 * character offsets into it.
 */
module Dialog {
  import opened Wrappers
  import opened Strings

  /** Who a message comes from; `System` stands for every other sender. */
  datatype Sender = User | Ai | System

  /** The label that starts a message from `sender`. */
  function Label(sender: Sender): string {
    match sender
    case User => "\U{1F464} You: "
    case Ai => "\U{1F916} AI: "
    case System => ""
  }

  /** The text one message adds to the transcript: label, message, blank line. */
  function Entry(sender: Sender, message: string): (r: string)
    ensures |r| == |Label(sender)| + |message| + 2
    ensures r[..|Label(sender)|] == Label(sender)
    ensures r[|Label(sender)|..|r| - 2] == message
    ensures r[|r| - 2..] == "\n\n"
  {
    Label(sender) + message + "\n\n"
  }

  /** The placeholder shown while a question is pending. */
  const Thinking: string := Entry(Ai, "Thinking...")

  /** The placeholder shown while a file is being analysed. */
  const Analyzing: string := Entry(Ai, "Analyzing file...")

  function Min(a: nat, b: nat): nat {
    if a <= b then a else b
  }

  /**
   * The transcript after a reply arrives for the placeholder recorded at
   * `start`: everything from `start` on is replaced by the reply's entry
   * (a position past the end stands for the end).
   */
  function Replaced(text: string, start: nat, response: string): (r: string)
    ensures |r| == Min(start, |text|) + |Entry(Ai, response)|
    ensures forall i :: 0 <= i < Min(start, |text|) ==> r[i] == text[i]
    ensures r[|r| - |Entry(Ai, response)|..] == Entry(Ai, response)
  {
    text[..Min(start, |text|)] + Entry(Ai, response)
  }

  /**
   * A question followed by its reply: the placeholder recorded at the end of
   * the transcript is replaced by the reply, leaving the question and the reply.
   */
  lemma ReplyReplacesPlaceholder(text: string, question: string, response: string)
    ensures var asked := text + Entry(User, question);
      Replaced(asked + Thinking, |asked|, response) == asked + Entry(Ai, response)
  {
    var asked := text + Entry(User, question);
    assert (asked + Thinking)[..|asked|] == asked;
  }

  /**
   * Two questions whose replies arrive in reverse order: the first question's
   * reply removes everything after its own placeholder, so the second question
   * and its reply are gone from the transcript.
   */
  lemma OverlappingRepliesDropLaterExchange(text: string, q1: string, q2: string, r1: string, r2: string)
    ensures
      var asked1 := text + Entry(User, q1);
      var shown1 := asked1 + Thinking;
      var asked2 := shown1 + Entry(User, q2);
      var shown2 := asked2 + Thinking;
      Replaced(Replaced(shown2, |asked2|, r2), |asked1|, r1) == asked1 + Entry(Ai, r1)
  {
    var asked1 := text + Entry(User, q1);
    var shown1 := asked1 + Thinking;
    var asked2 := shown1 + Entry(User, q2);
    var shown2 := asked2 + Thinking;
    var after2 := Replaced(shown2, |asked2|, r2);
    assert after2[..|asked1|] == asked1 by {
      assert after2[..|asked2|] == asked2;
      assert asked2[..|asked1|] == asked1;
    }
  }

  /** A question and the position of its placeholder, as the worker thread receives them. */
  datatype Request = Request(question: string, start: nat)

  /** The dialog's chat text, with the file it was opened on. */
  class ChatDialog {
    var text: string
    /** The path of the current file ("" when there is none). */
    const currentFile: string
    /** The base name of the current file. */
    const fileName: string
    /** The content of the current file ("" when there is none). */
    const fileContent: string

    constructor (currentFile: string, fileName: string, fileContent: string)
      ensures text == []
      ensures this.currentFile == currentFile && this.fileName == fileName && this.fileContent == fileContent
    {
      text := [];
      this.currentFile := currentFile;
      this.fileName := fileName;
      this.fileContent := fileContent;
    }

    /** Append a message from `sender`, leaving what was there before untouched. */
    method AddMessage(sender: Sender, message: string)
      modifies this
      ensures text == old(text) + Entry(sender, message)
    {
      text := text + Entry(sender, message);
    }

    /**
     * Submit the question typed in the entry box: a blank question is ignored;
     * otherwise the stripped question and a placeholder are appended, and the
     * request records where the placeholder starts.
     */
    method AskQuestion(typed: string) returns (request: Option<Request>)
      modifies this
      ensures IsBlank(typed) ==> request == None && text == old(text)
      ensures !IsBlank(typed) ==> request == Some(Request(Strip(typed), |old(text)| + |Entry(User, Strip(typed))|))
      ensures !IsBlank(typed) ==> text == old(text) + Entry(User, Strip(typed)) + Thinking
    {
      var question := Strip(typed);
      if question == [] {
        return None;
      }
      ghost var before := text;
      AddMessage(User, question);
      var start := |text|;
      text := text + Thinking;
      request := Some(Request(question, start));
      assert text == before + Entry(User, question) + Thinking;
    }

    /**
     * Ask for an analysis of the current file: nothing happens without a file
     * and its content; otherwise a request line and a placeholder are appended,
     * and the placeholder's start is returned.
     */
    method AnalyzeFile() returns (start: Option<nat>)
      modifies this
      ensures currentFile == [] || fileContent == [] ==> start == None && text == old(text)
      ensures currentFile != [] && fileContent != [] ==>
        var asked := old(text) + Entry(User, "Analyze file: " + fileName);
        start == Some(|asked|) && text == asked + Analyzing
    {
      if currentFile == [] || fileContent == [] {
        return None;
      }
      AddMessage(User, "Analyze file: " + fileName);
      start := Some(|text|);
      text := text + Analyzing;
    }

    /**
     * A reply arrives for the placeholder at `start`: the text from `start` to
     * the end is replaced by the reply's entry; the text before `start` stays.
     */
    method UpdateResponse(start: nat, response: string)
      modifies this
      ensures text == Replaced(old(text), start, response)
      ensures forall i :: 0 <= i < start && i < |old(text)| ==> text[i] == old(text)[i]
      ensures text[|text| - |Entry(Ai, response)|..] == Entry(Ai, response)
    {
      var cut := Min(start, |text|);
      text := text[..cut] + Entry(Ai, response);
    }
  }

  /** A question and its reply, run on the dialog: the transcript gains exactly the two entries. */
  method AskThenReply(dialog: ChatDialog, typed: string, response: string)
    requires !IsBlank(typed)
    modifies dialog
    ensures dialog.text == old(dialog.text) + Entry(User, Strip(typed)) + Entry(Ai, response)
  {
    ghost var before := dialog.text;
    var request := dialog.AskQuestion(typed);
    dialog.UpdateResponse(request.value.start, response);
    ReplyReplacesPlaceholder(before, Strip(typed), response);
  }
}
