/** `log_message`: the log widget keeps a bounded number of lines. A new
    line (timestamp, colon, message) is appended and, when the buffer then
    holds more than `max_lines` lines, only the last `max_lines` are kept
    (Python `log_lines[-max_lines:]`). The widget's text is modelled as its
    list of lines. */
module LogBuffer {

  /** The default of `log_message`'s `max_lines` parameter; no caller passes another. */
  const DefaultMaxLines := 100

  /** `f"{timestamp}: {message}"` */
  function LogLine(timestamp: string, message: string): string
  {
    timestamp + ": " + message
  }

  /** The start index Python uses for the slice `a[-m:]` of a list of length
      `len`: a negative start counts from the end and is clamped at 0, and
      `-0` is just `0`. */
  function NegativeSliceStart(len: nat, m: int): (k: nat)
    ensures k <= len
  {
    if m > 0 then (if m >= len then 0 else len - m)
    else if -m >= len then len else -m
  }

  predicate IsSuffix(s: seq<string>, t: seq<string>)
  {
    |s| <= |t| && s == t[|t| - |s|..]
  }

  /** The last `m` elements of `s` (all of `s` when it is shorter). */
  function Last(s: seq<string>, m: nat): (r: seq<string>)
    ensures |r| == if |s| < m then |s| else m
    ensures IsSuffix(r, s)
  {
    if |s| <= m then s else s[|s| - m..]
  }

  /** One `log_message` call on a widget holding `lines`. For a positive
      bound the result is exactly the newest `min(|lines| + 1, maxLines)`
      lines of the old buffer followed by the new line. */
  function LogMessage(lines: seq<string>, line: string, maxLines: int): (r: seq<string>)
    ensures IsSuffix(r, lines + [line])
    ensures maxLines >= 1 ==> 0 < |r| <= maxLines && r[|r| - 1] == line
    ensures maxLines >= 1 ==> |r| == if |lines| + 1 <= maxLines then |lines| + 1 else maxLines
    ensures maxLines >= 1 && |lines| < maxLines ==> r == lines + [line]
  {
    var all := lines + [line];
    if |all| > maxLines then all[NegativeSliceStart(|all|, maxLines)..] else all
  }

  /** A `log_message` call with the default bound: the widget holds at most
      100 lines, the last of which is the timestamped message. */
  lemma LogMessageDefault(lines: seq<string>, timestamp: string, message: string)
    ensures var r := LogMessage(lines, LogLine(timestamp, message), DefaultMaxLines);
            && 0 < |r| <= 100
            && r[|r| - 1] == timestamp + ": " + message
            && IsSuffix(r, lines + [timestamp + ": " + message])
  {
  }

  /** With `max_lines == 0` the slice `log_lines[-0:]` is the whole list, so
      nothing is trimmed: the bound only holds for positive `max_lines`. */
  lemma LogMessageZeroKeepsAll(lines: seq<string>, line: string)
    ensures LogMessage(lines, line, 0) == lines + [line]
  {
  }

  /** Logging several lines one call at a time. */
  function LogAll(lines: seq<string>, newLines: seq<string>, maxLines: int): seq<string>
    decreases |newLines|
  {
    if newLines == [] then lines else LogAll(LogMessage(lines, newLines[0], maxLines), newLines[1..], maxLines)
  }

  /** Trimming after every call is the same as trimming once at the end: the
      buffer holds the newest `maxLines` lines of everything logged. */
  lemma {:induction false} LogAllKeepsNewest(lines: seq<string>, newLines: seq<string>, maxLines: int)
    requires maxLines >= 1 && newLines != []
    ensures LogAll(lines, newLines, maxLines) == Last(lines + newLines, maxLines)
    decreases |newLines|
  {
    var rest := newLines[1..];
    var first := lines + [newLines[0]];
    var once := LogMessage(lines, newLines[0], maxLines);
    LogMessageIsLast(lines, newLines[0], maxLines);
    assert newLines == [newLines[0]] + rest;
    assert first + rest == lines + newLines;
    assert LogAll(lines, newLines, maxLines) == LogAll(once, rest, maxLines);
    if rest != [] {
      LogAllKeepsNewest(once, rest, maxLines);
      LastOfAppend(first, rest, maxLines);
    } else {
      assert first == lines + newLines;
    }
  }

  /** One call keeps the newest `maxLines` lines of the old buffer plus the
      new line. */
  lemma LogMessageIsLast(lines: seq<string>, line: string, maxLines: int)
    requires maxLines >= 1
    ensures LogMessage(lines, line, maxLines) == Last(lines + [line], maxLines)
  {
  }

  /** Keeping the newest `m` elements after more are appended only needs
      the newest `m` from before. */
  lemma LastOfAppend(s: seq<string>, t: seq<string>, m: nat)
    ensures Last(Last(s, m) + t, m) == Last(s + t, m)
  {
    var a := Last(s, m);
    var st := s + t;
    if |s| > m {
      var at := a + t;
      if |at| > m {
        var d := |st| - |at|;
        forall p | |at| - m <= p < |at|
          ensures at[p] == st[p + d]
        {
          if p < |a| {
            assert at[p] == a[p] == s[|s| - m + p];
          } else {
            assert at[p] == t[p - |a|];
          }
        }
        assert at[|at| - m..] == st[|st| - m..];
      }
    }
  }
}
