/**
  Reading history back from `git log` text. `list` and `prune` ask for one line
  per commit with four fields separated by bars, and split each line at most
  three times, so that a subject may itself contain bars.
 */
module GitLog {
  import opened Wrappers

  datatype Record = Record(hash: string, second: string, date: string, subject: string)

  /** Index of the first c in s, or the length of s. */
  function Find(s: string, c: char): (k: nat)
    ensures k <= |s| && (k < |s| ==> s[k] == c)
    ensures forall i :: 0 <= i < k ==> s[i] != c
  {
    if s == "" || s[0] == c then 0 else 1 + Find(s[1..], c)
  }

  function FormatLine(r: Record): string {
    r.hash + "|" + r.second + "|" + r.date + "|" + r.subject
  }

  function FormatLog(rs: seq<Record>): string {
    if rs == [] then "" else FormatLine(rs[0]) + "\n" + FormatLog(rs[1..])
  }

  /** Split into at most n parts at the given separator. */
  function SplitN(s: string, n: nat, c: char): (parts: seq<string>)
    requires n >= 1
    ensures 1 <= |parts| <= n
    decreases n
  {
    var k := Find(s, c);
    if n == 1 || k == |s| then [s] else [s[..k]] + SplitN(s[k + 1..], n - 1, c)
  }

  /** A line with fewer than three fields is skipped; a missing subject takes the caller's default. */
  function ParseLine(line: string, default: string): Option<Record> {
    var parts := SplitN(line, 4, '|');
    if |parts| < 3 then None
    else Some(Record(parts[0], parts[1], parts[2], if |parts| == 4 then parts[3] else default))
  }

  function StripCr(s: string): string {
    if s != "" && s[|s| - 1] == '\r' then s[..|s| - 1] else s
  }

  /** The first line: up to the newline, without a carriage return before it, or all that is left. */
  function FirstLine(text: string): string {
    var k := Find(text, '\n');
    if k == |text| then text else StripCr(text[..k])
  }

  function AfterFirstLine(text: string): (rest: string)
    ensures text != "" ==> |rest| < |text|
  {
    var k := Find(text, '\n');
    if k == |text| then "" else text[k + 1..]
  }

  /** The records of all lines that parse, in order. */
  function ParseLog(text: string, default: string): seq<Record>
    decreases |text|
  {
    if text == "" then []
    else
      var r := ParseLine(FirstLine(text), default);
      (if r.Some? then [r.value] else []) + ParseLog(AfterFirstLine(text), default)
  }

  method ReadLog(text: string, default: string) returns (entries: seq<Record>)
    ensures entries == ParseLog(text, default)
  {
    entries := [];
    var rest := text;
    while rest != ""
      invariant entries + ParseLog(rest, default) == ParseLog(text, default)
      decreases |rest|
    {
      var r := ParseLine(FirstLine(rest), default);
      NextRecord(entries, rest, default);
      rest := AfterFirstLine(rest);
      if r.Some? {
        entries := entries + [r.value];
      }
    }
  }

  lemma {:induction false} NextRecord(done: seq<Record>, text: string, default: string)
    requires text != ""
    ensures var r := ParseLine(FirstLine(text), default);
            done + ParseLog(text, default)
            == (if r.Some? then done + [r.value] else done) + ParseLog(AfterFirstLine(text), default)
  {
    hide ParseLine;
    hide FirstLine;
    hide AfterFirstLine;
    var r := ParseLine(FirstLine(text), default);
    Associate(done, if r.Some? then [r.value] else [], ParseLog(AfterFirstLine(text), default));
  }

  lemma Associate(a: seq<Record>, b: seq<Record>, c: seq<Record>)
    ensures a + (b + c) == (a + b) + c && (b == [] ==> a + b == a)
  {
  }

  /** Only the subject may contain bars, and nothing contains a newline. */
  ghost predicate Printable(r: Record) {
    && '|' !in r.hash && '|' !in r.second && '|' !in r.date
    && '\n' !in FormatLine(r)
  }

  lemma {:induction false} FindAfter(a: string, c: char, b: string)
    requires c !in a
    ensures Find(a + [c] + b, c) == |a|
  {
    assert (a + [c] + b)[|a|] == c;
  }

  lemma {:induction false} SplitFirst(a: string, b: string, n: nat)
    requires '|' !in a && n >= 2
    ensures SplitN(a + "|" + b, n, '|') == [a] + SplitN(b, n - 1, '|')
  {
    FindAfter(a, '|', b);
    var s := a + "|" + b;
    assert s[..|a|] == a && s[|a| + 1..] == b;
  }

  lemma {:induction false} SplitLast(s: string)
    ensures SplitN(s, 1, '|') == [s]
  {
  }

  lemma Bars(a: string, b: string)
    ensures a + ("|" + b) == a + "|" + b
  {
  }

  lemma {:induction false} SplitFour(a: string, b: string, c: string, d: string)
    requires '|' !in a && '|' !in b && '|' !in c
    ensures SplitN(a + ("|" + (b + ("|" + (c + ("|" + d))))), 4, '|') == [a, b, c, d]
  {
    hide SplitN;
    var s1 := c + ("|" + d);
    var s2 := b + ("|" + s1);
    assert SplitN(s1, 2, '|') == [c, d] by {
      Bars(c, d);
      SplitFirst(c, d, 2);
      SplitLast(d);
    }
    assert SplitN(s2, 3, '|') == [b, c, d] by {
      Bars(b, s1);
      SplitFirst(b, s1, 3);
    }
    Bars(a, s2);
    SplitFirst(a, s2, 4);
  }

  lemma {:induction false} LineRoundTrip(r: Record, default: string)
    requires Printable(r)
    ensures ParseLine(FormatLine(r), default) == Some(r)
  {
    hide SplitN;
    SplitFour(r.hash, r.second, r.date, r.subject);
    assert FormatLine(r) == r.hash + ("|" + (r.second + ("|" + (r.date + ("|" + r.subject)))));
  }

  lemma {:induction false} NoBar(s: string, n: nat)
    requires '|' !in s && n >= 1
    ensures SplitN(s, n, '|') == [s]
  {
    assert Find(s, '|') == |s|;
  }

  /** With no subject field the caller's default is used; a line with fewer than two bars is skipped. */
  lemma {:induction false} ShortLines(a: string, b: string, c: string, default: string)
    requires '|' !in a && '|' !in b && '|' !in c
    ensures ParseLine(a, default) == None
    ensures ParseLine(a + "|" + b, default) == None
    ensures ParseLine(a + "|" + (b + "|" + c), default) == Some(Record(a, b, c, default))
  {
    NoBar(a, 4);
    SplitFirst(a, b, 4);
    NoBar(b, 3);
    SplitFirst(a, b + "|" + c, 4);
    SplitFirst(b, c, 3);
    NoBar(c, 2);
    hide SplitN;
    assert [a] + ([b] + [c]) == [a, b, c];
  }

  /** What survives of a record: a carriage return ending the subject is taken for part of the line ending. */
  function Trimmed(r: Record): Record {
    r.(subject := StripCr(r.subject))
  }

  function TrimAll(rs: seq<Record>): (trimmed: seq<Record>)
    ensures |trimmed| == |rs| && forall i :: 0 <= i < |rs| ==> trimmed[i] == Trimmed(rs[i])
  {
    if rs == [] then [] else [Trimmed(rs[0])] + TrimAll(rs[1..])
  }

  lemma StripFormatted(r: Record)
    ensures StripCr(FormatLine(r)) == FormatLine(Trimmed(r))
  {
    var head := r.hash + "|" + r.second + "|" + r.date + "|";
    assert FormatLine(r) == head + r.subject;
    if r.subject != "" {
      assert (head + r.subject)[..|head + r.subject| - 1] == head + r.subject[..|r.subject| - 1];
    }
  }

  /** Printed history reads back record for record, bars in subjects included. */
  lemma {:induction false} LogRoundTrip(rs: seq<Record>, default: string)
    requires forall i :: 0 <= i < |rs| ==> Printable(rs[i])
    ensures ParseLog(FormatLog(rs), default) == TrimAll(rs)
  {
    if rs != [] {
      hide ParseLog;
      hide Printable;
      hide FormatLine;
      hide Trimmed;
      LineThenRest(rs[0], FormatLog(rs[1..]), default);
      LogRoundTrip(rs[1..], default);
    }
  }

  lemma {:induction false} LineThenRest(r: Record, rest: string, default: string)
    requires Printable(r)
    ensures ParseLog(FormatLine(r) + "\n" + rest, default) == [Trimmed(r)] + ParseLog(rest, default)
  {
    var line := FormatLine(r);
    var text := line + "\n" + rest;
    FindAfter(line, '\n', rest);
    assert text[..|line|] == line && text[|line| + 1..] == rest;
    StripFormatted(r);
    TrimmedPrintable(r);
    LineRoundTrip(Trimmed(r), default);
  }

  lemma TrimmedPrintable(r: Record)
    requires Printable(r)
    ensures Printable(Trimmed(r))
  {
    StripFormatted(r);
    assert forall x :: x in StripCr(FormatLine(r)) ==> x in FormatLine(r);
  }
}
