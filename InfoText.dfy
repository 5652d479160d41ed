/** The `info` text carried by the graphics exceptions: the debug-layer messages
    collected around a failing call, joined into one string. */
module InfoText {

  /** The messages separated by `sep`, with no separator after the last one. */
  function Join(ms: seq<string>, sep: string): string
  {
    if |ms| == 0 then ""
    else if |ms| == 1 then ms[0]
    else ms[0] + sep + Join(ms[1..], sep)
  }

  /** Every message followed by `term`: what the exception constructors' loops
      accumulate before their final pop_back. */
  function Terminated(ms: seq<string>, term: string): string
  {
    if ms == [] then "" else ms[0] + term + Terminated(ms[1..], term)
  }

  function SumLengths(ms: seq<string>): nat
  {
    if ms == [] then 0 else |ms[0]| + SumLengths(ms[1..])
  }

  /** Appending one message to the list extends the accumulated text by that message and its terminator. */
  lemma {:induction false} TerminatedSnoc(ms: seq<string>, m: string, term: string)
    ensures Terminated(ms + [m], term) == Terminated(ms, term) + m + term
  {
    if ms != [] {
      assert (ms + [m])[1..] == ms[1..] + [m];
      TerminatedSnoc(ms[1..], m, term);
    }
  }

  /** For a non-empty list, terminating every message is joining them and terminating once. */
  lemma {:induction false} TerminatedIsJoined(ms: seq<string>, term: string)
    requires ms != []
    ensures Terminated(ms, term) == Join(ms, term) + term
  {
    if |ms| > 1 {
      TerminatedIsJoined(ms[1..], term);
    }
  }

  /** HrException's info: the messages joined with single newlines, no trailing newline. */
  function HrInfo(ms: seq<string>): (info: string)
    ensures ms == [] ==> info == ""
    ensures |ms| == 1 ==> info == ms[0]
  {
    Join(ms, "\n")
  }

  /** InfoException's info: each message followed by a blank line, minus the very last
      newline, so messages are separated by "\n\n" and one "\n" trails. */
  function InfoExceptionInfo(ms: seq<string>): (info: string)
    ensures ms == [] <==> info == ""
    ensures ms != [] ==> info[|info| - 1] == '\n'
  {
    if ms == [] then "" else Join(ms, "\n\n") + "\n"
  }

  lemma {:induction false} JoinLength(ms: seq<string>, sep: string)
    requires ms != []
    ensures |Join(ms, sep)| == SumLengths(ms) + (|ms| - 1) * |sep|
  {
    if |ms| > 1 {
      JoinLength(ms[1..], sep);
    }
  }

  /** For n > 0 messages, InfoException's info is (sum of message lengths) + 2n - 1 characters long. */
  lemma {:induction false} InfoExceptionInfoLength(ms: seq<string>)
    requires ms != []
    ensures |InfoExceptionInfo(ms)| == SumLengths(ms) + 2 * |ms| - 1
  {
    JoinLength(ms, "\n\n");
  }

  /** Splitting a string at every occurrence of `c`; the inverse of joining with [c]. */
  function Split(s: string, c: char): (parts: seq<string>)
    ensures |parts| >= 1
  {
    if s == [] then [""]
    else
      var rest := Split(s[1..], c);
      if s[0] == c then [""] + rest
      else [[s[0]] + rest[0]] + rest[1..]
  }

  lemma {:induction false} SplitWithout(m: string, c: char)
    requires c !in m
    ensures Split(m, c) == [m]
  {
    if m != [] {
      assert m[0] != c && m == [m[0]] + m[1..];
      SplitWithout(m[1..], c);
    }
  }

  lemma {:induction false} SplitAfterFirst(m: string, c: char, rest: string)
    requires c !in m
    ensures Split(m + [c] + rest, c) == [m] + Split(rest, c)
  {
    var s := m + [c] + rest;
    if m == [] {
      assert s[1..] == rest;
    } else {
      assert s[0] == m[0] != c && s[1..] == m[1..] + [c] + rest;
      assert m == [m[0]] + m[1..];
      SplitAfterFirst(m[1..], c, rest);
    }
  }

  /** No message is lost or merged by the HrException join: when no message contains a
      newline, splitting the info at newlines gives the messages back. */
  lemma {:induction false} HrInfoSplits(ms: seq<string>)
    requires ms != []
    requires forall i :: 0 <= i < |ms| ==> '\n' !in ms[i]
    ensures Split(HrInfo(ms), '\n') == ms
  {
    JoinSplits(ms, '\n');
  }

  lemma {:induction false} JoinSplits(ms: seq<string>, c: char)
    requires ms != []
    requires forall i :: 0 <= i < |ms| ==> c !in ms[i]
    ensures Split(Join(ms, [c]), c) == ms
  {
    if |ms| == 1 {
      SplitWithout(ms[0], c);
    } else {
      JoinSplits(ms[1..], c);
      SplitAfterFirst(ms[0], c, Join(ms[1..], [c]));
    }
  }
}
