/**
 * The dialog's placeholder bookkeeping with Tk's own text indices, as the
 * dialog records them. A Tk text widget addresses positions as "line.column"
 * (lines from 1) and always keeps one newline after the last character; the
 * index `end` is the start of the line after that final newline. Inserting at
 * `end` inserts before the final newline. Deleting from the start of a line
 * up to `end` never removes the final newline, but removes the newline just
 * before the deleted lines instead. Widget text is modelled without the final
 * newline.
 *
 * The dialog records `index(END)` before inserting its placeholder. That names
 * the start of the placeholder's SECOND line, so the reply removes only the
 * placeholder's line break and blank line: the reply's entry lands on the
 * placeholder's first line, which stays on screen. `Dialog` models the
 * evidently intended bookkeeping, in which the placeholder's characters are
 * removed exactly.
 */
module TkText {
  import opened Dialog

  /** Number of line breaks in `s`. */
  function Newlines(s: string): nat {
    if s == [] then 0 else (if s[0] == '\n' then 1 else 0) + Newlines(s[1..])
  }

  /** Line number of Tk's `end` for widget text `s`. */
  function EndLine(s: string): nat {
    Newlines(s) + 2
  }

  /**
   * Offset in `s` just after its `n`-th line break, counting the widget's final
   * newline as the break after `s`; clamped to `|s|`, since that final newline
   * is never deleted.
   */
  function AfterBreak(s: string, n: nat): (k: nat)
    requires n >= 1
    ensures k <= |s|
    ensures n <= Newlines(s) ==> 1 <= k && s[k - 1] == '\n'
  {
    if s == [] then 0
    else if s[0] == '\n' then (if n == 1 then 1 else 1 + AfterBreak(s[1..], n - 1))
    else 1 + AfterBreak(s[1..], n)
  }

  /** Character offset of the index "line.0" in widget text `s`. */
  function LineStart(s: string, line: nat): (k: nat)
    ensures k <= |s|
    ensures 2 <= line <= Newlines(s) + 1 ==> 1 <= k && s[k - 1] == '\n'
  {
    if line <= 1 then 0 else AfterBreak(s, line - 1)
  }

  /**
   * `delete("line.0", END)`. From the index `end` there is nothing to delete;
   * from the first line everything goes; from the start of any later line the
   * line break before it goes too, since the final newline stays.
   */
  function DeleteToEnd(s: string, line: nat): (r: string)
    ensures line > Newlines(s) + 1 ==> r == s
    ensures line <= 1 ==> r == []
    ensures 2 <= line <= Newlines(s) + 1 ==> r + "\n" == s[..LineStart(s, line)]
  {
    if line > Newlines(s) + 1 then s
    else if line <= 1 then []
    else
      var k := LineStart(s, line);
      assert s[..k] == s[..k - 1] + "\n";
      s[..k - 1]
  }

  /** Line breaks add up over a concatenation. */
  lemma {:induction false} NewlinesConcat(a: string, b: string)
    ensures Newlines(a + b) == Newlines(a) + Newlines(b)
  {
    if a != [] {
      assert (a + b)[0] == a[0];
      assert (a + b)[1..] == a[1..] + b;
      NewlinesConcat(a[1..], b);
    } else {
      assert a + b == b;
    }
  }

  /**
   * A reply arriving for a placeholder, with the index recorded as the dialog
   * records it: `asked` is the text when `index(END)` is taken, `placeholder`
   * what is then inserted; the reply's entry is inserted at `end` once the
   * text from the recorded line to `end` is deleted.
   */
  function ReplyAsWritten(asked: string, placeholder: string, response: string): (r: string)
    ensures Newlines(placeholder) >= 1 ==>
      exists k :: |asked| <= k < |asked + placeholder| && (asked + placeholder)[k] == '\n'
        && r == (asked + placeholder)[..k] + Entry(Ai, response)
  {
    var start := EndLine(asked);
    var shown := asked + placeholder;
    var r := DeleteToEnd(shown, start) + Entry(Ai, response);
    assert Newlines(placeholder) >= 1 ==>
      exists k :: |asked| <= k < |shown| && shown[k] == '\n' && r == shown[..k] + Entry(Ai, response)
    by {
      if Newlines(placeholder) >= 1 {
        NewlinesConcat(asked, placeholder);
        AfterBreakShift(asked, placeholder, 1);
        var k := LineStart(shown, start) - 1;
        assert |asked| <= k && shown[k] == '\n';
        assert DeleteToEnd(shown, start) == shown[..k];
      }
    }
    r
  }

  /** Counting line breaks past a prefix shifts the offset by the prefix's length. */
  lemma {:induction false} AfterBreakShift(a: string, b: string, k: nat)
    requires k >= 1
    ensures AfterBreak(a + b, Newlines(a) + k) == |a| + AfterBreak(b, k)
  {
    if a != [] {
      assert (a + b)[0] == a[0];
      assert (a + b)[1..] == a[1..] + b;
      AfterBreakShift(a[1..], b, k);
    } else {
      assert a + b == b;
    }
  }

  /** The first line break of a text whose first line is `head`. */
  lemma {:induction false} AfterFirstBreak(head: string, rest: string)
    requires '\n' !in head
    ensures AfterBreak(head + "\n" + rest, 1) == |head| + 1
  {
    if head != [] {
      assert (head + "\n" + rest)[0] == head[0];
      assert (head + "\n" + rest)[1..] == head[1..] + "\n" + rest;
      AfterFirstBreak(head[1..], rest);
    } else {
      assert head + "\n" + rest == "\n" + rest;
    }
  }

  /** Deleting from the line after a single-line head to `end` leaves the text up to that head. */
  lemma DeleteAfterHead(asked: string, head: string)
    requires '\n' !in head
    ensures DeleteToEnd(asked + (head + "\n\n"), EndLine(asked)) == asked + head
  {
    var shown := asked + (head + "\n\n");
    assert head + "\n\n" == head + "\n" + "\n";
    NewlinesConcat(asked, head + "\n\n");
    NewlinesConcat(head, "\n\n");
    assert Newlines("\n\n") == 2;
    AfterBreakShift(asked, head + "\n\n", 1);
    AfterFirstBreak(head, "\n");
    assert LineStart(shown, EndLine(asked)) == |asked| + |head| + 1;
    assert shown[..|asked| + |head|] == asked + head;
  }

  /**
   * Whatever the transcript, a reply to a single-line placeholder removes only
   * its line break and blank line: the reply's entry follows the placeholder's
   * first line on the same line.
   */
  lemma PlaceholderLineSurvives(asked: string, message: string, response: string)
    requires '\n' !in message
    ensures ReplyAsWritten(asked, Entry(Ai, message), response)
         == asked + Label(Ai) + message + Entry(Ai, response)
  {
    var head := Label(Ai) + message;
    assert '\n' !in Label(Ai);
    assert '\n' !in head by {
      forall i | 0 <= i < |head| ensures head[i] != '\n' {
        if i >= |Label(Ai)| {
          assert head[i] == message[i - |Label(Ai)|];
        }
      }
    }
    assert Entry(Ai, message) == head + "\n\n";
    DeleteAfterHead(asked, head);
  }

  /** After a question and its reply, "Thinking..." is still in the transcript, just before the reply. */
  lemma ThinkingLineSurvives(text: string, question: string, response: string)
    ensures var asked := text + Entry(User, question);
      ReplyAsWritten(asked, Thinking, response) == asked + Label(Ai) + "Thinking..." + Entry(Ai, response)
  {
    PlaceholderLineSurvives(text + Entry(User, question), "Thinking...", response);
  }

  /**
   * The recorded index misses what the dialog evidently intends
   * (`Dialog.ReplyReplacesPlaceholder`): the transcript is not the question
   * followed by the reply.
   */
  lemma AsWrittenMissesIntended(text: string, question: string, response: string)
    ensures var asked := text + Entry(User, question);
      ReplyAsWritten(asked, Thinking, response) != Replaced(asked + Thinking, |asked|, response)
  {
    var asked := text + Entry(User, question);
    ThinkingLineSurvives(text, question, response);
    ReplyReplacesPlaceholder(text, question, response);
    assert |ReplyAsWritten(asked, Thinking, response)| > |asked + Entry(Ai, response)|;
  }
}
