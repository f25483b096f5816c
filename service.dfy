/**
 * The deterministic core of the assistant service (class `AIAssistant` in
 * core/ai_assistant.py): the document excerpt put into the naming prompt, the
 * shaping of the model's reply into exactly three file names, the fallback
 * names, the dispatch of content extraction on the file extension, and the
 * configuration state (API key, client, configured flag, saved key).
 *
 * The completion endpoint, the file system, the document readers and the
 * dialogs are not modelled: what they produce is passed in as a parameter.
 */
module Service {
  import opened Wrappers
  import opened Strings

  // ---------------------------------------------------------------------------
  // Prompt content
  // ---------------------------------------------------------------------------

  /** Characters of document content kept in the naming prompt. */
  const ContentLimit: nat := 3000

  /** Marker appended to content that was cut. */
  const Ellipsis: string := "..."

  /** Content cut to `ContentLimit` characters, marked with an ellipsis when cut. */
  function Truncate(s: string): (r: string)
    ensures |r| <= ContentLimit + |Ellipsis|
    ensures |s| <= ContentLimit ==> r == s
    ensures |s| > ContentLimit ==> |r| == ContentLimit + |Ellipsis|
    ensures |s| > ContentLimit ==> r[..ContentLimit] == s[..ContentLimit] && r[ContentLimit..] == Ellipsis
  {
    if |s| > ContentLimit then s[..ContentLimit] + Ellipsis else s
  }

  /** Cutting is idempotent: cut content is not cut again. */
  lemma TruncateIdempotent(s: string)
    ensures Truncate(Truncate(s)) == Truncate(s)
  {
    if |s| > ContentLimit {
      var t := Truncate(s);
      assert t == t[..ContentLimit] + t[ContentLimit..];
    }
  }

  /**
   * The content is left as it is exactly when it fits, or when it already has
   * the shape of cut content (3000 characters followed by the marker).
   */
  lemma TruncateUnchangedIff(s: string)
    ensures Truncate(s) == s <==> |s| <= ContentLimit || (|s| == ContentLimit + |Ellipsis| && s[ContentLimit..] == Ellipsis)
  {
    if |s| > ContentLimit && Truncate(s) == s {
      assert |s| == ContentLimit + |Ellipsis|;
      assert s[ContentLimit..] == Truncate(s)[ContentLimit..];
    }
    if |s| == ContentLimit + |Ellipsis| && s[ContentLimit..] == Ellipsis {
      assert s == s[..ContentLimit] + s[ContentLimit..];
    }
  }

  /** The excerpt placed in the naming prompt: the file name stands in for empty content. */
  function PromptContent(content: string, fileName: string): (r: string)
    ensures r != []
    ensures |r| <= ContentLimit + |Ellipsis|
    ensures content != [] && |content| <= ContentLimit ==> r == content
    ensures |content| > ContentLimit ==> r == content[..ContentLimit] + Ellipsis
    ensures content == [] ==> StartsWith(r, "File: ")
    ensures content == [] && |fileName| + 6 <= ContentLimit ==> r == "File: " + fileName
  {
    var text := if content == [] then "File: " + fileName else content;
    var r := Truncate(text);
    assert |text| > ContentLimit ==> r[..6] == text[..ContentLimit][..6];
    r
  }

  // ---------------------------------------------------------------------------
  // Reply shaping
  // ---------------------------------------------------------------------------

  /** A piece of text without a line break. */
  predicate SingleLine(s: string) {
    '\n' !in s
  }

  /** A candidate name: one non-empty line without surrounding whitespace. */
  predicate CleanLine(s: string) {
    s != [] && IsStripped(s) && SingleLine(s)
  }

  /** `[s.strip() for s in lines if s.strip()]`: the stripped non-blank lines, in order. */
  function StrippedNonBlank(lines: seq<string>): (r: seq<string>)
    ensures |r| <= |lines|
    ensures forall i :: 0 <= i < |r| ==> r[i] != [] && IsStripped(r[i])
  {
    if lines == [] then
      []
    else
      var s := Strip(lines[0]);
      (if s == [] then [] else [s]) + StrippedNonBlank(lines[1..])
  }

  /** Every line whose strip is non-empty contributes that strip to the filtered list. */
  lemma {:induction false} StrippedNonBlankKeeps(lines: seq<string>)
    ensures forall i :: 0 <= i < |lines| && Strip(lines[i]) != [] ==> Strip(lines[i]) in StrippedNonBlank(lines)
  {
    if lines != [] {
      StrippedNonBlankKeeps(lines[1..]);
      forall i | 1 <= i < |lines| && Strip(lines[i]) != []
        ensures Strip(lines[i]) in StrippedNonBlank(lines)
      {
        assert lines[1..][i - 1] == lines[i];
      }
    }
  }

  /** Everything in the filtered list is the strip of one of the lines. */
  lemma {:induction false} StrippedNonBlankFrom(lines: seq<string>)
    ensures forall x :: x in StrippedNonBlank(lines) ==> exists i :: 0 <= i < |lines| && Strip(lines[i]) == x
  {
    if lines != [] {
      StrippedNonBlankFrom(lines[1..]);
      var rest := StrippedNonBlank(lines[1..]);
      forall x | x in rest ensures exists i :: 0 <= i < |lines| && Strip(lines[i]) == x {
        var i :| 0 <= i < |lines[1..]| && Strip(lines[1..][i]) == x;
        assert lines[i + 1] == lines[1..][i];
      }
    }
  }

  /** The filter keeps exactly the non-empty strips of the given lines. */
  lemma StrippedNonBlankMembers(lines: seq<string>)
    ensures forall x :: x in StrippedNonBlank(lines) <==> x != [] && exists i :: 0 <= i < |lines| && Strip(lines[i]) == x
  {
    StrippedNonBlankKeeps(lines);
    StrippedNonBlankFrom(lines);
  }

  /** Filtering single lines gives single lines. */
  lemma {:induction false} StrippedNonBlankSingleLine(lines: seq<string>)
    requires forall i :: 0 <= i < |lines| ==> SingleLine(lines[i])
    ensures forall i :: 0 <= i < |StrippedNonBlank(lines)| ==> SingleLine(StrippedNonBlank(lines)[i])
  {
    if lines != [] {
      StrippedNonBlankSingleLine(lines[1..]);
      assert SingleLine(lines[0]);
    }
  }

  /** Filtering distributes over concatenation, so the order of lines is kept. */
  lemma {:induction false} StrippedNonBlankConcat(a: seq<string>, b: seq<string>)
    ensures StrippedNonBlank(a + b) == StrippedNonBlank(a) + StrippedNonBlank(b)
  {
    if a != [] {
      var s := Strip(a[0]);
      var head: seq<string> := if s == [] then [] else [s];
      assert (a + b)[0] == a[0];
      assert (a + b)[1..] == a[1..] + b;
      calc {
        StrippedNonBlank(a + b);
        head + StrippedNonBlank(a[1..] + b);
        { StrippedNonBlankConcat(a[1..], b); }
        head + (StrippedNonBlank(a[1..]) + StrippedNonBlank(b));
        (head + StrippedNonBlank(a[1..])) + StrippedNonBlank(b);
      }
    } else {
      assert a + b == b;
    }
  }

  /** The candidate names in a reply: its stripped non-blank lines, in order. */
  function ReplyLines(reply: string): (r: seq<string>)
    ensures forall i :: 0 <= i < |r| ==> CleanLine(r[i])
  {
    var lines := Split(Strip(reply), '\n');
    StrippedNonBlankSingleLine(lines);
    StrippedNonBlank(lines)
  }

  /** A reply made of newline-separated names with no blank padding yields those names. */
  lemma ReplyLinesOfNames(names: seq<string>)
    requires |names| >= 1
    requires forall i :: 0 <= i < |names| ==> CleanLine(names[i])
    ensures ReplyLines(Join(names, '\n')) == names
  {
    var text := Join(names, '\n');
    JoinStripped(names);
    StripStripped(text);
    SplitJoin(names, '\n');
    StrippedNonBlankOfStripped(names);
  }

  /** Joining stripped non-empty names keeps the text stripped. */
  lemma {:induction false} JoinStripped(names: seq<string>)
    requires |names| >= 1
    requires forall i :: 0 <= i < |names| ==> names[i] != [] && IsStripped(names[i])
    ensures Join(names, '\n') != [] && IsStripped(Join(names, '\n'))
    ensures Join(names, '\n')[0] == names[0][0]
  {
    if |names| > 1 {
      JoinStripped(names[1..]);
      var rest := Join(names[1..], '\n');
      assert Join(names, '\n') == names[0] + ['\n'] + rest;
      assert Join(names, '\n')[|Join(names, '\n')| - 1] == rest[|rest| - 1];
    }
  }

  /** Lines that are already stripped and non-blank all survive the filter. */
  lemma {:induction false} StrippedNonBlankOfStripped(lines: seq<string>)
    requires forall i :: 0 <= i < |lines| ==> lines[i] != [] && IsStripped(lines[i])
    ensures StrippedNonBlank(lines) == lines
  {
    if lines != [] {
      StripStripped(lines[0]);
      StrippedNonBlankOfStripped(lines[1..]);
      assert [lines[0]] + lines[1..] == lines;
    }
  }

  /** The names offered when the model gives no usable answer. */
  function FallbackNames(stem: string): (r: seq<string>)
    ensures |r| == 3
    ensures forall i :: 0 <= i < 3 ==> StartsWith(r[i], stem + "_") && |r[i]| > |stem| + 1
    ensures r[0] != r[1] && r[0] != r[2] && r[1] != r[2]
  {
    var r := [stem + "_renamed", stem + "_organized", stem + "_updated"];
    assert r[0][|stem| + 1] == 'r' && r[2][|stem| + 1] == 'u';
    assert |r[1]| != |r[0]| && |r[1]| != |r[2]|;
    assert forall i :: 0 <= i < 3 ==> r[i][..|stem| + 1] == stem + "_";
    r
  }

  /** The padding name put at position `i` of a short suggestion list. */
  function PadName(stem: string, i: nat): (r: string)
    ensures StartsWith(r, stem + "_v")
    ensures |r| > |stem| + 2
    ensures forall k :: |stem| + 2 <= k < |r| ==> '0' <= r[k] <= '9'
    ensures DigitsValue(r[|stem| + 2..]) == i
  {
    var r := stem + "_v" + Decimal(i);
    assert r[..|stem| + 2] == stem + "_v";
    assert r[|stem| + 2..] == Decimal(i);
    r
  }

  /** The padding names differ from each other, since their numbers differ. */
  lemma PadNamesDistinct(stem: string, i: nat, j: nat)
    requires i != j
    ensures PadName(stem, i) != PadName(stem, j)
  {
    var p := stem + "_v";
    assert PadName(stem, i)[|p|..] == Decimal(i);
    assert PadName(stem, j)[|p|..] == Decimal(j);
    assert Decimal(i) != Decimal(j) by {
      assert DigitsValue(Decimal(i)) != DigitsValue(Decimal(j));
    }
  }

  /**
   * The padding loop: while there are fewer than three names, append the stem
   * followed by `_v` and the current length of the list.
   */
  method PadSuggestions(names: seq<string>, stem: string) returns (r: seq<string>)
    ensures |names| >= 3 ==> r == names
    ensures |names| < 3 ==> |r| == 3 && r[..|names|] == names
    ensures |names| < 3 ==> forall i :: |names| <= i < 3 ==> r[i] == PadName(stem, i)
  {
    r := names;
    while |r| < 3
      invariant |names| >= 3 ==> r == names
      invariant |names| < 3 ==> |names| <= |r| <= 3 && r[..|names|] == names
      invariant forall i :: |names| <= i < |r| ==> r[i] == PadName(stem, i)
      decreases 3 - |r|
    {
      r := r + [PadName(stem, |r|)];
    }
  }

  /**
   * Three names from the lines of the model's reply: the first three lines,
   * or the one or two lines padded, or the fallback names when there are none.
   */
  method ShapeLines(lines: seq<string>, stem: string) returns (names: seq<string>)
    requires forall i :: 0 <= i < |lines| ==> lines[i] != []
    ensures |names| == 3 && forall i :: 0 <= i < 3 ==> names[i] != []
    ensures |lines| >= 3 ==> names == lines[..3]
    ensures 0 < |lines| < 3 ==> names[..|lines|] == lines
    ensures 0 < |lines| < 3 ==> forall i :: |lines| <= i < 3 ==> names[i] == PadName(stem, i)
    ensures lines == [] ==> names == FallbackNames(stem)
  {
    if |lines| >= 3 {
      names := lines[..3];
    } else if lines != [] {
      names := PadSuggestions(lines, stem);
      assert forall i :: 0 <= i < |lines| ==> names[i] == lines[i] by {
        forall i | 0 <= i < |lines| ensures names[i] == lines[i] {
          assert names[..|lines|][i] == names[i];
        }
      }
    } else {
      names := FallbackNames(stem);
    }
  }

  /** What `os.path` yields for the file being named. */
  datatype FileRef = FileRef(name: string, stem: string, ext: string)

  /**
   * Naming suggestions for a file. `ready` is the service's readiness,
   * `provided` the content the caller passed (if any), `reading` what reading
   * the file gives when no content was passed, and `reply` the text of the
   * model's reply, `None` when the request raised. `request` is the excerpt
   * sent to the model, `None` when no request is made.
   */
  method NameSuggestions(ready: bool, file: FileRef, provided: Option<string>, reading: Reading, reply: Option<string>)
    returns (names: seq<string>, request: Option<string>)
    ensures !ready ==> names == [] && request == None
    ensures ready ==> request == Some(PromptContent(if provided.Some? then provided.value else ExtractContent(file, reading), file.name))
    ensures ready ==> |names| == 3 && forall i :: 0 <= i < 3 ==> names[i] != []
    ensures ready && reply.Some? && |ReplyLines(reply.value)| >= 3 ==> names == ReplyLines(reply.value)[..3]
    ensures ready && reply.Some? && 0 < |ReplyLines(reply.value)| < 3 ==>
      var lines := ReplyLines(reply.value);
      names[..|lines|] == lines && forall i :: |lines| <= i < 3 ==> names[i] == PadName(file.stem, i)
    ensures ready && (reply.None? || ReplyLines(reply.value) == []) ==> names == FallbackNames(file.stem)
  {
    if !ready {
      return [], None;
    }
    var content := if provided.Some? then provided.value else ExtractContent(file, reading);
    request := Some(PromptContent(content, file.name));
    if reply.None? {
      names := FallbackNames(file.stem);
    } else {
      names := ShapeLines(ReplyLines(reply.value), file.stem);
    }
  }

  // ---------------------------------------------------------------------------
  // Content extraction
  // ---------------------------------------------------------------------------

  /** How the content of a file is obtained, chosen by its extension. */
  datatype FileKind = PlainText | Pdf | Word | Other

  const TextExtensions: seq<string> := [".txt", ".md", ".py", ".js", ".html", ".css", ".json", ".xml"]

  /** The kind of a file from its extension, compared in lower case. */
  function Classify(ext: string): (k: FileKind)
    ensures k == PlainText <==> Lower(ext) in TextExtensions
    ensures k == Pdf <==> Lower(ext) == ".pdf"
    ensures k == Word <==> Lower(ext) == ".doc" || Lower(ext) == ".docx"
  {
    var e := Lower(ext);
    if e in TextExtensions then PlainText
    else if e == ".pdf" then Pdf
    else if e == ".doc" || e == ".docx" then Word
    else Other
  }

  /** Lower-casing twice is lower-casing once. */
  lemma LowerIdempotent(s: string)
    ensures Lower(Lower(s)) == Lower(s)
  {
  }

  /** Classification does not depend on the case of the extension. */
  lemma ClassifyIgnoresCase(ext: string)
    ensures Classify(Lower(ext)) == Classify(ext)
  {
    LowerIdempotent(ext);
  }

  /**
   * The outcome of reading a file: its text (from the file itself, or from the
   * PDF or Word reader), a missing reader library (`ImportError`), or any other
   * exception.
   */
  datatype Reading = Text(text: string) | MissingReader | Raised

  /** The two-line stub describing a file that is not read. */
  function Stub(file: FileRef): string {
    "Filename: " + file.name + "\nFile type: " + Lower(file.ext)
  }

  /**
   * The content used for a file: what was read for text, PDF and Word files; the
   * stub for other kinds and when a reader library is missing; and the file name
   * alone when anything else went wrong.
   */
  function ExtractContent(file: FileRef, reading: Reading): (r: string)
    ensures Classify(file.ext) != Other && reading.Text? ==> r == reading.text
    ensures Classify(file.ext) == Other ==> r == Stub(file)
    ensures !reading.Text? || Classify(file.ext) == Other ==> StartsWith(r, "Filename: " + file.name)
    ensures Classify(file.ext) == PlainText && !reading.Text? ==> r == "Filename: " + file.name
    ensures Classify(file.ext) in {Pdf, Word} && reading.MissingReader? ==> r == Stub(file)
    ensures Classify(file.ext) in {Pdf, Word} && reading.Raised? ==> r == "Filename: " + file.name
  {
    var fallback := "Filename: " + file.name;
    match Classify(file.ext)
    case PlainText =>
      if reading.Text? then reading.text else fallback
    case Pdf =>
      ExtractWithReader(file, reading)
    case Word =>
      ExtractWithReader(file, reading)
    case Other =>
      Stub(file)
  }

  /** A PDF or Word file: the reader's text, the stub without a reader, the name on error. */
  function ExtractWithReader(file: FileRef, reading: Reading): (r: string)
    ensures reading.Text? ==> r == reading.text
    ensures reading.MissingReader? ==> r == Stub(file)
    ensures reading.Raised? ==> r == "Filename: " + file.name
    ensures !reading.Text? ==> StartsWith(r, "Filename: " + file.name)
  {
    assert Stub(file)[..|"Filename: " + file.name|] == "Filename: " + file.name;
    match reading
    case Text(t) => t
    case MissingReader => Stub(file)
    case Raised => "Filename: " + file.name
  }

  // ---------------------------------------------------------------------------
  // Configuration
  // ---------------------------------------------------------------------------

  /** Prefix every accepted API key carries. */
  const KeyPrefix: string := "sk-"

  /** The client object the provider library builds from a key. */
  datatype Client = Client(key: string)

  /** The setup dialog accepts an entered key only when it is non-empty and has the key prefix. */
  predicate AcceptsKey(entered: Option<string>) {
    entered.Some? && entered.value != [] && StartsWith(entered.value, KeyPrefix)
  }

  /** The emptiness test is subsumed by the prefix test. */
  lemma AcceptsKeyIffPrefix(entered: string)
    ensures AcceptsKey(Some(entered)) <==> StartsWith(entered, KeyPrefix)
  {
  }

  class Assistant {
    var apiKey: Option<string>
    var client: Option<Client>
    var isConfigured: bool
    /** The `api_key` recorded in the configuration file. */
    ghost var savedKey: Option<string>

    /** The service is configured exactly when it holds a client, built from a non-empty key. */
    ghost predicate Valid()
      reads this
    {
      (isConfigured <==> client.Some?) && (client.Some? ==> client.value.key != [])
    }

    /**
     * A new service loads the key stored in its configuration file (`None` when
     * the file is missing, unreadable or has no key) and, when that key is
     * non-empty, builds a client (`clientOk` says whether that succeeds).
     */
    constructor (stored: Option<string>, clientOk: bool)
      ensures Valid()
      ensures apiKey == stored && savedKey == stored
      ensures isConfigured == (stored.Some? && stored.value != [] && clientOk)
      ensures client == if isConfigured then Some(Client(stored.value)) else None
    {
      apiKey := stored;
      client := None;
      isConfigured := false;
      savedKey := stored;
      new;
      if stored.Some? && stored.value != [] {
        var ok := InitializeClient(clientOk);
      }
    }

    /** Ready to use: configured and holding a client. */
    predicate IsReady()
      reads this
      ensures Valid() ==> (IsReady() <==> isConfigured)
    {
      isConfigured && client.Some?
    }

    /** Build a client from the current key; on failure nothing changes. */
    method InitializeClient(clientOk: bool) returns (ok: bool)
      requires Valid() && apiKey.Some? && apiKey.value != []
      modifies this
      ensures Valid()
      ensures ok == clientOk
      ensures apiKey == old(apiKey) && savedKey == old(savedKey)
      ensures ok ==> client == Some(Client(apiKey.value)) && isConfigured
      ensures !ok ==> client == old(client) && isConfigured == old(isConfigured)
    {
      if clientOk {
        client := Some(Client(apiKey.value));
        isConfigured := true;
      }
      ok := clientOk;
    }

    /**
     * The setup dialog. `entered` is what the user typed (`None` if the dialog
     * was cancelled), `saveOk` whether writing the configuration file succeeds,
     * `clientOk` whether building the client succeeds.
     */
    method SetupApiKey(entered: Option<string>, saveOk: bool, clientOk: bool) returns (ok: bool)
      requires Valid()
      modifies this
      ensures Valid()
      ensures !AcceptsKey(entered) ==> !ok && unchanged(this)
      ensures AcceptsKey(entered) ==> apiKey == entered && ok == clientOk
      ensures AcceptsKey(entered) ==> savedKey == if saveOk then entered else old(savedKey)
      ensures AcceptsKey(entered) && clientOk ==> client == Some(Client(entered.value)) && IsReady()
      ensures AcceptsKey(entered) && !clientOk ==> client == old(client) && isConfigured == old(isConfigured)
    {
      ok := false;
      if AcceptsKey(entered) {
        apiKey := entered;
        if saveOk {
          savedKey := entered;
        }
        ok := InitializeClient(clientOk);
      }
    }
  }

  /** The two setup scenarios: a key without the prefix is refused, `sk-test123` is taken. */
  method SetupScenario() {
    var assistant := new Assistant(None, true);
    assert !assistant.IsReady();
    assert !AcceptsKey(Some("abc")) by {
      assert "abc"[..3][0] != KeyPrefix[0];
    }
    var ok := assistant.SetupApiKey(Some("abc"), true, true);
    assert !ok && assistant.savedKey == None && !assistant.IsReady();
    ok := assistant.SetupApiKey(Some("sk-test123"), true, true);
    assert ok && assistant.savedKey == Some("sk-test123") && assistant.IsReady();
  }

  /** Three names joined by line breaks. */
  lemma JoinThree(a: string, b: string, c: string)
    ensures Join([a, b, c], '\n') == a + "\n" + b + "\n" + c
  {
    var names := [a, b, c];
    assert names[1..][1..] == [c];
    assert Join(names[1..], '\n') == b + "\n" + c;
  }

  /** A reply of three names, one per line. */
  lemma ThreeNamesReply(a: string, b: string, c: string)
    requires CleanLine(a) && CleanLine(b) && CleanLine(c)
    ensures ReplyLines(a + "\n" + b + "\n" + c) == [a, b, c]
  {
    JoinThree(a, b, c);
    ReplyLinesOfNames([a, b, c]);
  }

  /** Scenario: a reply of three names gives exactly those names, in order. */
  method ThreeLineScenario(file: FileRef, content: string, a: string, b: string, c: string)
    requires CleanLine(a) && CleanLine(b) && CleanLine(c)
  {
    var reply := a + "\n" + b + "\n" + c;
    ThreeNamesReply(a, b, c);
    var names, request := NameSuggestions(true, file, Some(content), Raised, Some(reply));
    assert names == [a, b, c];
  }

  /** The padding names after one and two lines. */
  lemma PadNamesOneTwo(stem: string)
    ensures PadName(stem, 1) == stem + "_v1" && PadName(stem, 2) == stem + "_v2"
  {
    assert Decimal(1) == "1" && Decimal(2) == "2";
    assert stem + "_v" + "1" == stem + "_v1";
    assert stem + "_v" + "2" == stem + "_v2";
  }

  /** Scenario: a one-name reply is padded with `_v1` and `_v2`. */
  method OneLineScenario(file: FileRef, content: string, a: string)
    requires CleanLine(a)
  {
    ReplyLinesOfNames([a]);
    PadNamesOneTwo(file.stem);
    var names, request := NameSuggestions(true, file, Some(content), Raised, Some(a));
    assert names[0] == a;
    assert names == [a, file.stem + "_v1", file.stem + "_v2"];
  }

  /** Scenario: a failed request gives the fallback names; a service not ready gives none. */
  method FailureScenario(file: FileRef, content: string, reply: string) {
    var names, request := NameSuggestions(true, file, Some(content), Raised, None);
    assert names == [file.stem + "_renamed", file.stem + "_organized", file.stem + "_updated"];
    names, request := NameSuggestions(false, file, Some(content), Raised, Some(reply));
    assert names == [] && request == None;
  }
}
