# ARANGR AI assistant — a Dafny model

This project models the deterministic core of `core/ai_assistant.py`, the AI
assistant of the ARANGR file organiser. It covers two classes.

`AIAssistant`, in `Service`:
- the document excerpt placed in the file-naming prompt: an empty excerpt is
  replaced by the file name, and a long one is cut to 3000 characters plus
  `...`;
- the shaping of the model's reply into exactly three file names: the stripped,
  non-blank reply lines, padded with `<stem>_v<n>`, or else the three fallback
  names;
- the choice of how a file's content is obtained from its extension, and the
  stub text used for other files;
- the configuration state: the API key, the client, the configured flag, and the
  key recorded in the configuration file (a ghost field). Keys are accepted only
  when non-empty and starting with `sk-`.

`AIDialog`, in `Dialog` and `TkText`:
- the chat transcript, to which labelled messages are appended;
- the placeholder shown while a question or a file analysis is pending;
- the replacement of that placeholder by the reply.

`Strings` models the Python string operations the code relies on: `isspace`,
`strip`, `split('\n')`, `startswith`, `lower`, and decimal rendering. It also
defines a `Join`, which the code does not use; it exists only to state the
round trips of `Split`.

Values the code gets from the outside world are parameters:
- the text the user typed into a dialog;
- the reply from the completion endpoint, or `None` when the call raised;
- the result of reading a file;
- whether writing the configuration file succeeds;
- whether building the client succeeds.

Files:
- `wrappers.dfy`: `Option`.
- `strings.dfy`: module `Strings`.
- `service.dfy`: module `Service`, the `AIAssistant` core. `Service.Assistant` is
  a class whose methods update its fields in place.
- `dialog.dfy`: module `Dialog`. `Dialog.ChatDialog` is a class holding the
  transcript text. Positions in it are character offsets. The placeholder's
  start is the length of the text before it. This is the evidently intended
  bookkeeping, not the Tk index the code records (see Findings).
- `tk_text.dfy`: module `TkText`, the placeholder position as the code actually
  records it with Tk line indices (see Findings).

## Model

| member | source | states |
|---|---|---|
| Strings.Strip | core/ai_assistant.py:155-156 | `str.strip()`: the result is a slice of the input with only whitespace before and after it, and it has no whitespace at either end; it is empty exactly when the input is all whitespace; it has no line break if the input has none |
| Strings.StripStripped | core/ai_assistant.py:156 | a string without surrounding whitespace is its own strip |
| Strings.StripTwice | core/ai_assistant.py:155-156 | stripping the already stripped reply again changes nothing |
| Strings.Split | core/ai_assistant.py:156 | `split('\n')` gives at least one piece, and no piece contains the separator |
| Strings.JoinSplit | core/ai_assistant.py:156 | joining the pieces of a split with the separator gives back the original text |
| Strings.SplitJoin | core/ai_assistant.py:156 | splitting separator-free pieces joined with the separator gives back the pieces |
| Strings.Lower | core/ai_assistant.py:177 | lower-casing keeps the length and lower-cases every character |
| Strings.Decimal | core/ai_assistant.py:165 | `f"{n}"` is a non-empty string of digits, whose value is `n`, with no leading zero unless `n` is 0 |
| Service.Truncate | core/ai_assistant.py:122-124 | content of at most 3000 characters is unchanged; longer content becomes its first 3000 characters followed by `...` (3003 in all) |
| Service.TruncateIdempotent | core/ai_assistant.py:123-124 | cut content is not cut again |
| Service.TruncateUnchangedIff | core/ai_assistant.py:123-124 | the content is left as it is if and only if it fits, or already is 3000 characters followed by `...` |
| Service.PromptContent | core/ai_assistant.py:118-124 | the excerpt is never empty and never longer than 3003 characters; non-empty content that fits is sent as it is; long content is cut; empty content becomes `File: <name>` |
| Service.StrippedNonBlank | core/ai_assistant.py:156 | the list comprehension keeps at most as many lines as it is given, each non-empty and stripped |
| Service.StrippedNonBlankKeeps | core/ai_assistant.py:156 | every line whose strip is non-empty contributes that strip |
| Service.StrippedNonBlankFrom | core/ai_assistant.py:156 | every kept string is the strip of one of the lines |
| Service.StrippedNonBlankMembers | core/ai_assistant.py:156 | a string is in the filtered list if and only if it is the non-empty strip of one of the lines |
| Service.StrippedNonBlankSingleLine | core/ai_assistant.py:156 | lines without a line break stay without one after filtering |
| Service.StrippedNonBlankConcat | core/ai_assistant.py:156 | filtering distributes over concatenation, so the surviving lines keep their order |
| Service.StrippedNonBlankOfStripped | core/ai_assistant.py:156 | lines that are already stripped and non-empty all survive, in order |
| Service.ReplyLines | core/ai_assistant.py:155-156 | every candidate name parsed from the reply is a non-empty single line without surrounding whitespace |
| Service.ReplyLinesOfNames | core/ai_assistant.py:155-156 | a reply that is clean names joined by line breaks parses back to exactly those names, in order |
| Service.JoinStripped | core/ai_assistant.py:155 | names joined by line breaks have no surrounding whitespace, so the reply's outer strip leaves them alone |
| Service.ThreeNamesReply | core/ai_assistant.py:137-141 | a reply in the requested format, three names one per line, parses to those three names |
| Service.FallbackNames | core/ai_assistant.py:216-223 | the fallback is three distinct names, each the stem followed by `_` and a suffix |
| Service.PadName | core/ai_assistant.py:165 | a padding name is the stem followed by `_v` and decimal digits whose value is the list length `i` |
| Service.PadNamesDistinct | core/ai_assistant.py:164-165 | padding names for different list lengths differ |
| Service.PadNamesOneTwo | core/ai_assistant.py:164-165 | after one name the padding is `<stem>_v1` and `<stem>_v2` |
| Service.PadSuggestions | core/ai_assistant.py:161-166 | the padding loop: a short list becomes three names, with the original names first and `<stem>_v<i>` at each position `i` after them |
| Service.ShapeLines | core/ai_assistant.py:158-168 | exactly three non-empty names: the first three lines if there are three; otherwise the lines followed by padding; otherwise the fallback names |
| Service.NameSuggestions | core/ai_assistant.py:108-172 | not ready: no names and no request. Ready: the request carries the prepared excerpt, and the result is exactly three non-empty names. These are the first three reply lines, or the one or two lines padded, or the fallback names when the reply has no lines or the call raised |
| Service.Classify | core/ai_assistant.py:177-198 | the kind is plain text exactly when the lower-cased extension is in the text list, PDF exactly for `.pdf`, Word exactly for `.doc`/`.docx` |
| Service.LowerIdempotent | core/ai_assistant.py:177 | lower-casing twice is lower-casing once |
| Service.ClassifyIgnoresCase | core/ai_assistant.py:177 | classification does not depend on the case of the extension |
| Service.ExtractContent | core/ai_assistant.py:174-214 | text, PDF and Word files give what was read. Other files give the `Filename:`/`File type:` stub. A PDF or Word file without its reader library gives the stub. Any other error, for any kind of file, gives exactly `Filename: <name>` |
| Service.ExtractWithReader | core/ai_assistant.py:184-214 | a PDF or Word file gives the reader's text; a missing reader library gives the stub (lines 194-195, then 210); any other error gives exactly `Filename: <name>` (line 214) |
| Service.AcceptsKeyIffPrefix | core/ai_assistant.py:83-84 | an entered key is accepted if and only if it starts with `sk-` (the emptiness test adds nothing) |
| Service.Assistant.constructor | core/ai_assistant.py:15-32 | a new assistant takes the stored key, and is configured exactly when that key is non-empty and the client is built |
| Service.Assistant.IsReady | core/ai_assistant.py:104-106 | in a valid state, ready exactly when configured |
| Service.Assistant.InitializeClient | core/ai_assistant.py:48-63 | success installs a client for the current key and sets the configured flag; failure changes nothing; the key and the saved key are untouched |
| Service.Assistant.SetupApiKey | core/ai_assistant.py:65-102 | a cancelled dialog, an empty key or a key without `sk-` changes nothing and gives false. An accepted key becomes the API key, is saved when the save succeeds, and the result is whether the client was built. When it is built the assistant is ready |
| Dialog.Entry | core/ai_assistant.py:375-385 | a message adds its sender's label, the message and a blank line |
| Dialog.Replaced | core/ai_assistant.py:439-447 | the text before the recorded start is kept character by character, and the text ends with the reply's entry. The start is a character offset (the intended bookkeeping), not the code's Tk index |
| Dialog.ReplyReplacesPlaceholder | core/ai_assistant.py:396-447 | with the start recorded as the end of the text, a question followed by its reply leaves exactly the question's entry and the reply's entry |
| Dialog.OverlappingRepliesDropLaterExchange | core/ai_assistant.py:396-447 | if a second question is asked before the first reply arrives, the first reply erases the second question and its reply |
| Dialog.ChatDialog.constructor | core/ai_assistant.py:238-242 | a new dialog has an empty transcript and holds the current file, its name and its content |
| Dialog.ChatDialog.AddMessage | core/ai_assistant.py:375-387 | the transcript gains the message's entry and nothing before it changes |
| Dialog.ChatDialog.AskQuestion | core/ai_assistant.py:389-403 | a blank question changes nothing and makes no request. Otherwise the stripped question's entry and the placeholder are appended, and the request records where the placeholder starts, as the character offset of the intended bookkeeping rather than the code's `index(END)` |
| Dialog.ChatDialog.AnalyzeFile | core/ai_assistant.py:418-430 | without a file or its content nothing happens. Otherwise the request line and the placeholder are appended, and the placeholder's start is returned, as the character offset of the intended bookkeeping rather than the code's `index(END)` |
| Dialog.ChatDialog.UpdateResponse | core/ai_assistant.py:439-450 | every character before the start is unchanged, everything from the start on is replaced, and the transcript ends with the reply's entry. The start is a character offset; the code's Tk line index is modelled by `TkText.ReplyAsWritten` |
| Dialog.AskThenReply | core/ai_assistant.py:389-447 | with the intended bookkeeping, asking a non-blank question and then receiving its reply adds exactly the question's entry and the reply's entry |
| TkText.AfterBreakShift | core/ai_assistant.py:400 | counting line breaks past a prefix shifts the Tk line position by the prefix's length |
| TkText.LineStart | core/ai_assistant.py:400 | the start of any line after the first, up to the line of the final newline, directly follows a line break |
| TkText.DeleteToEnd | core/ai_assistant.py:444 | Tk's `delete("line.0", END)`: nothing from `end` itself, everything from the first line, and from any later line the text up to the line break before it, which goes too |
| TkText.ReplyAsWritten | core/ai_assistant.py:400-447 | with the start recorded as `index(END)` before a placeholder holding a line break, the transcript after the reply is the text up to some line break of the placeholder, followed by the reply's entry |
| TkText.PlaceholderLineSurvives | core/ai_assistant.py:400-447 | with the start recorded as Tk's `end` line, a reply removes only the placeholder's line breaks: the placeholder's first line stays, and the reply's entry follows it on the same line |
| TkText.ThinkingLineSurvives | core/ai_assistant.py:396-447 | after a question and its reply, the transcript ends `🤖 AI: Thinking...🤖 AI: <reply>` and a blank line |
| TkText.AsWrittenMissesIntended | core/ai_assistant.py:400-447 | the transcript as written differs from the question followed by the reply |

## Left out

- The completion endpoint call, its model, token and temperature parameters, and the prompt wording (lines 127-152). The reply text is a parameter; `None` stands for a raised call or a reply whose content is not a string.
- File reading and the PyPDF2 and python-docx readers (lines 181-205). What reading gives is the `Reading` parameter: the text, a missing library, or another error.
- Loading and saving the JSON configuration file (lines 22-46). The loaded key is a constructor parameter, and the saved key is a ghost field.
- The message boxes, the key-entry dialog, and all Tk layout, geometry and widget state (lines 56-100, 244-373). The entered key is a parameter. The Tk text is a string, and its scrolling (`see`) is not modelled.
- Clearing the question entry box after a question (line 395), because the entry widget is not modelled.
- Threads, `get_name_suggestions_async` and `dialog.after` (lines 225-232, 406-416, 433-437). Each completion is a separate sequential call.
- The replies to dialog questions and file analyses. `AIAssistant` defines neither `ask_question` nor `analyze_file` (called at lines 407 and 434), so in the code the worker thread raises and the placeholder is never replaced. `UpdateResponse` models what happens when a reply does arrive.
- Construction of the dialog (lines 238-373). As written, `AIDialog.__init__` fails: `_create_ui` uses `ttk`, which is not imported (line 298), so no transcript method ever runs. The dialog model assumes that construction succeeds with an empty transcript. It leaves out the initial status message (lines 367-371), which line 368 could not produce either, since it calls the flag `is_configured`.
- Dialog.Label: the labels are the emoji 👤 (U+1F464) and 🤖 (U+1F916). The source text holds them as the Mac Roman reading of their UTF-8 bytes: U+F8FF U+00FC U+00EB U+00A7 for 👤 (line 380), and U+F8FF U+00FC U+00A7 U+00F1 for 🤖 (lines 382, 401, 428, 447). The model uses the decoded characters, which is what the program evidently means to show.
- Dialog.ChatDialog.AskQuestion, Dialog.ChatDialog.AnalyzeFile, Dialog.ChatDialog.UpdateResponse: these record and use the placeholder's start as a character offset. The code records `index(END)` instead (lines 400, 427). That is modelled separately by `TkText.ReplyAsWritten`, and its effect is the row under Findings.
- Overlapping questions. If a second question is asked before the first reply arrives, and the replies arrive in the reverse order, the first reply deletes everything after its own placeholder, including the second exchange (line 444). `Dialog.OverlappingRepliesDropLaterExchange` proves this. The model follows the code rather than a reading in which no entry is lost, and it does not model a repaired version, which would need positions that move with the text, such as Tk marks.
- `os.path.basename` and `os.path.splitext`. `FileRef` carries the base name, the stem and the extension.
- Strings.Lower: lower-cases ASCII letters only, while Python's `str.lower` also maps other Unicode letters. This does not change any classification, since no known extension has a non-ASCII letter. It does change the stub: for an extension with non-ASCII upper-case letters, the `File type:` line of `Stub` keeps them, while line 210 writes them lower-cased.
- Empty text files. A readable text file with no content gives empty content (line 182), and the excerpt then becomes `File: <name>`. The model follows the code rather than a reading in which extraction never returns an empty string.
- Failed client builds: a failed client build leaves the previous client and flag in place (lines 55-63). So after a new key whose client cannot be built, the assistant can stay ready with the client of the old key. The model follows the code rather than a reading in which a failure clears the configured flag.

## Findings

| source | as written | input that shows it | evidently intended | confidence | as-written member | corrected member |
|---|---|---|---|---|---|---|
| core/ai_assistant.py:400 | `thinking_start = self.chat_text.index(tk.END)` records Tk's `end`, the line after the text's final newline. Once `🤖 AI: Thinking...\n\n` is inserted, that index is the start of the placeholder's second (blank) line. So `delete(thinking_start, END)` at line 444 removes only the blank line and the line break before it. The same happens at line 427 for `Analyzing file...` | any transcript, any non-blank question and any reply: the transcript ends `🤖 AI: Thinking...🤖 AI: <reply>\n\n` instead of `🤖 AI: <reply>\n\n` | the placeholder's characters are removed exactly, leaving the question's entry followed by the reply's entry. For example, record `index("end-1c")` and delete up to `"end-1c"` | not executed; follows from Tk's documented meaning of the `end` index | TkText.AsWrittenMissesIntended | Dialog.ReplyReplacesPlaceholder |
