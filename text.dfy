/**
  `getLastLines` (web/app/utils/text.ts): the tail of a command's output
  shown in the console, at most `maxLines` newline-separated lines.
  `undefined` arguments are `None`; `maxLines` defaults to
  `LOG_OUTPUT_MAX_LINES`.
*/
module Text {
  import opened Wrappers
  import opened Strings
  import Js

  /** web/app/constants/ui.ts */
  const LOG_OUTPUT_MAX_LINES: int := 10

  function GetLastLines(text: Option<string>, maxLines: Option<int>): string {
    var m := maxLines.GetOr(LOG_OUTPUT_MAX_LINES);
    if text.None? || text.value == "" then ""
    else
      var lines := Split(text.value, '\n');
      if |lines| <= m then text.value
      else Join(Js.SliceFrom(lines, -m), "\n")
  }

  /** Missing or empty text gives the empty string. */
  lemma NoText(maxLines: Option<int>)
    ensures GetLastLines(None, maxLines) == ""
    ensures GetLastLines(Some(""), maxLines) == ""
  {
  }

  /** Text with at most `maxLines` lines comes back unchanged. */
  lemma ShortText(text: string, maxLines: Option<int>)
    requires |Split(text, '\n')| <= maxLines.GetOr(LOG_OUTPUT_MAX_LINES)
    ensures GetLastLines(Some(text), maxLines) == text
  {
  }

  /** The last k lines of a text: a suffix of it, made of exactly those lines. */
  lemma {:induction false} LastLinesOf(text: string, k: nat)
    requires 0 < k < |Split(text, '\n')|
    ensures var lines := Split(text, '\n');
      var tail := Join(lines[|lines| - k..], "\n");
      EndsWith(text, tail) && Split(tail, '\n') == lines[|lines| - k..]
  {
    var lines := Split(text, '\n');
    var n := |lines| - k;
    JoinSplit(text, '\n');
    JoinAppend(lines, "\n", n);
    var tail := Join(lines[n..], "\n");
    assert text == Join(lines[..n], "\n") + "\n" + tail;
    assert text[|text| - |tail|..] == tail;
    assert forall i :: 0 <= i < |lines[n..]| ==> '\n' !in lines[n..][i] by {
      forall i | 0 <= i < |lines[n..]| ensures '\n' !in lines[n..][i] {
        assert lines[n..][i] == lines[n + i];
      }
    }
    SplitJoin(lines[n..], '\n');
  }

  /**
    With a positive bound and more lines than it, the result has exactly
    `maxLines` lines, the last ones, and is a suffix of the text.
  */
  lemma LongText(text: string, maxLines: Option<int>)
    requires var m := maxLines.GetOr(LOG_OUTPUT_MAX_LINES);
      m >= 1 && |Split(text, '\n')| > m
    ensures var m := maxLines.GetOr(LOG_OUTPUT_MAX_LINES);
      var lines := Split(text, '\n');
      var r := GetLastLines(Some(text), maxLines);
      |Split(r, '\n')| == m && Split(r, '\n') == lines[|lines| - m..] && EndsWith(text, r)
  {
    var m := maxLines.GetOr(LOG_OUTPUT_MAX_LINES);
    LongIs(text, maxLines);
    LastLinesOf(text, m);
  }

  lemma LongIs(text: string, maxLines: Option<int>)
    requires var m := maxLines.GetOr(LOG_OUTPUT_MAX_LINES);
      m >= 1 && |Split(text, '\n')| > m
    ensures var m := maxLines.GetOr(LOG_OUTPUT_MAX_LINES);
      var lines := Split(text, '\n');
      GetLastLines(Some(text), maxLines) == Join(lines[|lines| - m..], "\n")
  {
    var m := maxLines.GetOr(LOG_OUTPUT_MAX_LINES);
    SliceFromEnd(Split(text, '\n'), m);
  }

  lemma SliceFromEnd<T>(s: seq<T>, m: int)
    requires 0 < m < |s|
    ensures Js.SliceFrom(s, -m) == s[|s| - m..]
  {
  }

  /** A bound of 0 keeps the whole text, since `slice(-0)` is `slice(0)`. */
  lemma ZeroBound(text: string)
    ensures GetLastLines(Some(text), Some(0)) == text
  {
    if text != "" {
      var lines := Split(text, '\n');
      assert Js.SliceFrom(lines, 0) == lines;
      JoinSplit(text, '\n');
    }
  }

  /** A negative bound drops that many leading lines instead, and can leave nothing. */
  lemma NegativeBound(text: string, m: int)
    requires text != "" && m < 0
    ensures var lines := Split(text, '\n');
      GetLastLines(Some(text), Some(m)) ==
        if -m < |lines| then Join(lines[-m..], "\n") else ""
  {
    var lines := Split(text, '\n');
    assert Js.SliceFrom(lines, -m) == if -m < |lines| then lines[-m..] else [];
  }
}
