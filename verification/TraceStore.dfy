/**
  The in-memory span exporter: spans in arrival order, an index from trace id to
  positions, eviction of the oldest quarter when full, and the two queries of the
  trace UI. Times are integers and the zero time is 0.
 */
module TraceStore {
  import opened Wrappers
  import opened Sorting

  type TraceId = string

  datatype Status = Unset | OkStatus | ErrorStatus

  datatype Span = Span(traceId: TraceId, parentId: string, name: string, start: int, end: int, status: Status)

  const MAX_STORED_SPANS: nat := 10000

  // ---------------------------------------------------------------------
  // What is stored after a history of exports
  // ---------------------------------------------------------------------

  function Cutoff(n: nat): nat {
    if n / 4 == 0 then 1 else n / 4
  }

  /** How many spans are dropped before the next one is appended. */
  function Dropped(n: nat): (k: nat)
    ensures k <= n
  {
    if n >= MAX_STORED_SPANS then Cutoff(n) else 0
  }

  function Stored(history: seq<Span>): (spans: seq<Span>) {
    if history == [] then []
    else
      var before := Stored(history[..|history| - 1]);
      before[Dropped(|before|)..] + [history[|history| - 1]]
  }

  /** The number of spans stored after n exports. */
  function StoredLength(n: nat): nat {
    if n <= MAX_STORED_SPANS then n else 7501 + (n - 10001) % 2500
  }

  lemma LengthStep(n: nat)
    ensures StoredLength(n + 1)
         == StoredLength(n) - Dropped(StoredLength(n)) + 1
  {
  }

  /** Dropping from a suffix of the history and appending the newest span gives a suffix again. */
  lemma SuffixStep(history: seq<Span>, before: seq<Span>, k: nat)
    requires history != [] && k <= |before| <= |history| - 1
    requires before == history[..|history| - 1][|history| - 1 - |before|..]
    ensures before[k..] + [history[|history| - 1]] == history[|history| - 1 - |before| + k..]
  {
  }

  /** The stored spans are a suffix of the export history, of the exact length above. */
  lemma {:induction false} StoredIsSuffix(history: seq<Span>)
    ensures |Stored(history)| == StoredLength(|history|) <= |history|
    ensures Stored(history) == history[|history| - |Stored(history)|..]
  {
    if history != [] {
      hide StoredLength;
      hide Cutoff;
      var n := |history| - 1;
      StoredIsSuffix(history[..n]);
      LengthStep(n);
      var before := Stored(history[..n]);
      var after := Stored(history);
      assert after == before[Dropped(|before|)..] + [history[n]];
      hide Stored;
      SuffixStep(history, before, Dropped(|before|));
    }
  }

  // ---------------------------------------------------------------------
  // The index
  // ---------------------------------------------------------------------

  /** Positions of a trace's spans, increasing. */
  function Positions(spans: seq<Span>, t: TraceId): seq<nat> {
    if spans == [] then []
    else
      var n := |spans| - 1;
      if spans[n].traceId == t then Positions(spans[..n], t) + [n] else Positions(spans[..n], t)
  }

  /** The spans of a trace, in arrival order. */
  function OfTrace(spans: seq<Span>, t: TraceId): seq<Span> {
    if spans == [] then []
    else
      var n := |spans| - 1;
      if spans[n].traceId == t then OfTrace(spans[..n], t) + [spans[n]] else OfTrace(spans[..n], t)
  }

  ghost predicate IndexOk(spans: seq<Span>, byTrace: map<TraceId, seq<nat>>) {
    forall t :: Lookup(byTrace, t) == if Positions(spans, t) == [] then None else Some(Positions(spans, t))
  }

  /** An index entry is exactly the increasing list of positions holding the trace. */
  lemma {:induction false} PositionsExact(spans: seq<Span>, t: TraceId)
    ensures var ps := Positions(spans, t);
            && (forall i, j :: 0 <= i < j < |ps| ==> ps[i] < ps[j])
            && (forall p: nat :: p in ps <==> p < |spans| && spans[p].traceId == t)
  {
    if spans != [] {
      var n := |spans| - 1;
      PositionsExact(spans[..n], t);
      var before, ps := Positions(spans[..n], t), Positions(spans, t);
      assert ps == if spans[n].traceId == t then before + [n] else before;
      hide Positions;
      assert forall i :: 0 <= i < |before| ==> before[i] in before;
      assert forall p: nat :: p in ps <==> p in before || (p == n && spans[n].traceId == t);
      assert forall p: nat :: p < n ==> spans[..n][p] == spans[p];
    }
  }

  lemma {:induction false} PositionsSelect(spans: seq<Span>, t: TraceId)
    ensures |Positions(spans, t)| == |OfTrace(spans, t)|
    ensures forall i :: 0 <= i < |Positions(spans, t)| ==>
              Positions(spans, t)[i] < |spans| && spans[Positions(spans, t)[i]] == OfTrace(spans, t)[i]
  {
    if spans != [] {
      PositionsSelect(spans[..|spans| - 1], t);
    }
  }

  lemma IndexSnoc(spans: seq<Span>, byTrace: map<TraceId, seq<nat>>, span: Span)
    requires IndexOk(spans, byTrace)
    ensures var entry := if span.traceId in byTrace then byTrace[span.traceId] else [];
            IndexOk(spans + [span], byTrace[span.traceId := entry + [|spans|]])
  {
    var entry := if span.traceId in byTrace then byTrace[span.traceId] else [];
    var after := byTrace[span.traceId := entry + [|spans|]];
    forall t
      ensures Lookup(after, t)
           == if Positions(spans + [span], t) == [] then None else Some(Positions(spans + [span], t))
    {
    }
  }

  // ---------------------------------------------------------------------
  // Summaries
  // ---------------------------------------------------------------------

  datatype Meta = Meta(rootName: string, start: int, end: int, count: nat, hasError: bool)

  /** What one span does to its trace's summary. */
  function AddSpan(seen: Option<Meta>, span: Span): Meta {
    var m := if seen.Some? then seen.value else Meta("", span.start, 0, 0, false);
    Meta(if span.parentId == "" then span.name else m.rootName,
         if span.start < m.start then span.start else m.start,
         if span.end != 0 && span.end > m.end then span.end else m.end,
         m.count + 1,
         m.hasError || span.status == ErrorStatus)
  }

  function MetaOf(spans: seq<Span>, t: TraceId): Option<Meta> {
    if spans == [] then None
    else
      var n := |spans| - 1;
      var seen := MetaOf(spans[..n], t);
      if spans[n].traceId == t then Some(AddSpan(seen, spans[n])) else seen
  }

  datatype TraceInfo = TraceInfo(
    traceId: TraceId, rootName: string, spanCount: nat, start: int, duration: Option<int>, failed: bool)

  function InfoOf(t: TraceId, m: Meta): TraceInfo {
    TraceInfo(t, m.rootName, m.count, m.start, if m.end == 0 then None else Some(m.end - m.start), m.hasError)
  }

  ghost predicate IsMinStart(spans: seq<Span>, start: int) {
    && (forall i :: 0 <= i < |spans| ==> start <= spans[i].start)
    && (exists i :: 0 <= i < |spans| && spans[i].start == start)
  }

  /** The latest end time, or zero when no span has ended after it. */
  ghost predicate IsMaxEnd(spans: seq<Span>, end: int) {
    && end >= 0 && (forall i :: 0 <= i < |spans| ==> spans[i].end <= end)
    && (end == 0 || exists i :: 0 <= i < |spans| && spans[i].end == end)
  }

  /** The name of the span without a parent that arrived last, or empty. */
  function LastRootName(spans: seq<Span>): string {
    if spans == [] then ""
    else if spans[|spans| - 1].parentId == "" then spans[|spans| - 1].name
    else LastRootName(spans[..|spans| - 1])
  }

  ghost predicate Describes(m: Meta, own: seq<Span>) {
    && m.count == |own| && IsMinStart(own, m.start) && IsMaxEnd(own, m.end) && m.rootName == LastRootName(own)
    && (m.hasError <==> exists i :: 0 <= i < |own| && own[i].status == ErrorStatus)
  }

  lemma {:induction false} AddSpanDescribes(seen: Option<Meta>, own: seq<Span>, span: Span)
    requires seen.Some? <==> own != []
    requires seen.Some? ==> Describes(seen.value, own)
    ensures Describes(AddSpan(seen, span), own + [span])
  {
    var all := own + [span];
    assert all[|own|] == span && all[..|own|] == own;
    assert forall i :: 0 <= i < |own| ==> all[i] == own[i];
    if own != [] {
      var k :| 0 <= k < |own| && own[k].start == seen.value.start;
      assert all[k].start == own[k].start;
      if seen.value.end != 0 {
        var e :| 0 <= e < |own| && own[e].end == seen.value.end;
        assert all[e].end == own[e].end;
      }
      if seen.value.hasError {
        var e :| 0 <= e < |own| && own[e].status == ErrorStatus;
        assert all[e].status == ErrorStatus;
      }
    }
  }

  /** A trace's summary says of its spans what it should. */
  lemma {:induction false} MetaMeaning(spans: seq<Span>, t: TraceId)
    ensures var own := OfTrace(spans, t); var m := MetaOf(spans, t);
            (m.Some? <==> own != []) && (m.Some? ==> Describes(m.value, own))
  {
    if spans != [] {
      var n := |spans| - 1;
      MetaMeaning(spans[..n], t);
      AddSpanDescribes(MetaOf(spans[..n], t), OfTrace(spans[..n], t), spans[n]);
    }
  }

  /** The spans of trace t in start order, in some order where starts are equal. */
  ghost predicate IsDetail(spans: seq<Span>, t: TraceId, d: seq<Span>) {
    && multiset(d) == multiset(OfTrace(spans, t))
    && forall i, j :: 0 <= i < j < |d| ==> d[i].start <= d[j].start
  }

  /** One entry per stored trace, each its summary, newest start first. */
  ghost predicate IsListing(spans: seq<Span>, infos: seq<TraceInfo>) {
    && (forall i, j :: 0 <= i < j < |infos| ==>
          infos[i].traceId != infos[j].traceId && infos[i].start >= infos[j].start)
    && (forall i :: 0 <= i < |infos| ==>
          && MetaOf(spans, infos[i].traceId).Some?
          && infos[i] == InfoOf(infos[i].traceId, MetaOf(spans, infos[i].traceId).value))
    && (forall t :: MetaOf(spans, t).Some? ==> exists i :: 0 <= i < |infos| && infos[i].traceId == t)
  }

  lemma PermutationMembers(a: seq<Span>, b: seq<Span>)
    requires multiset(a) == multiset(b)
    ensures |a| == |b| && forall x :: x in a <==> x in b
  {
    assert |a| == |multiset(a)| && |b| == |multiset(b)|;
    forall x ensures x in a <==> x in b {
      assert x in a <==> x in multiset(a);
    }
  }

  /**
    The two queries agree on every state: a trace is listed exactly when its detail is
    not empty, and its entry gives the number of spans returned, the start of the
    first one, and an error exactly when one of them failed.
   */
  lemma ListAgreesWithGet(spans: seq<Span>, infos: seq<TraceInfo>, t: TraceId, d: seq<Span>)
    requires IsListing(spans, infos) && IsDetail(spans, t, d)
    ensures (exists i :: 0 <= i < |infos| && infos[i].traceId == t) <==> d != []
    ensures forall i :: 0 <= i < |infos| && infos[i].traceId == t ==>
              && infos[i].spanCount == |d| && d != [] && infos[i].start == d[0].start
              && (infos[i].failed <==> exists k :: 0 <= k < |d| && d[k].status == ErrorStatus)
  {
    MetaMeaning(spans, t);
    var own := OfTrace(spans, t);
    PermutationMembers(d, own);
    if own != [] {
      var m := MetaOf(spans, t).value;
      var k :| 0 <= k < |own| && own[k].start == m.start;
      assert own[k] in d && d[0] in own;
      assert (exists i :: 0 <= i < |own| && own[i].status == ErrorStatus) <==>
             (exists i :: 0 <= i < |d| && d[i].status == ErrorStatus) by {
        if i :| 0 <= i < |own| && own[i].status == ErrorStatus { assert own[i] in d; }
        if i :| 0 <= i < |d| && d[i].status == ErrorStatus { assert d[i] in own; }
      }
    }
  }

  /** Span k is the last one without a parent. */
  ghost predicate IsLastRoot(own: seq<Span>, k: nat) {
    k < |own| && own[k].parentId == "" && forall j :: k < j < |own| ==> own[j].parentId != ""
  }

  lemma {:induction false} LastRootNameMeaning(own: seq<Span>)
    ensures (forall k :: 0 <= k < |own| ==> own[k].parentId != "") ==> LastRootName(own) == ""
    ensures forall k: nat :: IsLastRoot(own, k) ==> LastRootName(own) == own[k].name
  {
    if own != [] && own[|own| - 1].parentId != "" {
      var n := |own| - 1;
      LastRootNameMeaning(own[..n]);
      forall k: nat | IsLastRoot(own, k) ensures LastRootName(own) == own[k].name {
        assert IsLastRoot(own[..n], k);
      }
    }
  }

  /**
    A listed entry, from the spans of its trace: named after the last span without a
    parent, and as long as from the first start to the last end, or without a duration
    if no span has ended.
   */
  lemma {:induction false} ListedEntry(spans: seq<Span>, infos: seq<TraceInfo>, i: nat)
    requires IsListing(spans, infos) && i < |infos|
    ensures var e := infos[i]; var own := OfTrace(spans, e.traceId);
            && (forall k: nat :: IsLastRoot(own, k) ==> e.rootName == own[k].name)
            && ((forall k :: 0 <= k < |own| ==> own[k].parentId != "") ==> e.rootName == "")
            && (e.duration.Some? <==> exists k :: 0 <= k < |own| && own[k].end > 0)
            && (e.duration.Some? ==> IsMaxEnd(own, e.start + e.duration.value)) && IsMinStart(own, e.start)
  {
    var t := infos[i].traceId;
    MetaMeaning(spans, t);
    LastRootNameMeaning(OfTrace(spans, t));
  }

  // ---------------------------------------------------------------------
  // How many traces are listed
  // ---------------------------------------------------------------------

  /** Declared beside the span limit as the most distinct traces kept in memory; nothing enforces it. */
  const MAX_STORED_TRACES: nat := 1000

  function TraceIds(spans: seq<Span>): set<TraceId> {
    set i | 0 <= i < |spans| :: spans[i].traceId
  }

  lemma {:induction false} OfTraceEmpty(spans: seq<Span>, t: TraceId)
    ensures OfTrace(spans, t) != [] <==> t in TraceIds(spans)
  {
    if spans != [] {
      OfTraceEmpty(spans[..|spans| - 1], t);
    }
  }

  lemma {:induction false} DistinctCount(infos: seq<TraceInfo>)
    requires forall i, j :: 0 <= i < j < |infos| ==> infos[i].traceId != infos[j].traceId
    ensures |set i | 0 <= i < |infos| :: infos[i].traceId| == |infos|
  {
    var ids := set i | 0 <= i < |infos| :: infos[i].traceId;
    if infos != [] {
      var n := |infos| - 1;
      var before := set i | 0 <= i < n :: infos[..n][i].traceId;
      DistinctCount(infos[..n]);
      assert ids == before + {infos[n].traceId};
    }
  }

  lemma {:induction false} ListingLength(spans: seq<Span>, infos: seq<TraceInfo>)
    requires IsListing(spans, infos)
    ensures |infos| == |TraceIds(spans)|
  {
    DistinctCount(infos);
    var ids := set i | 0 <= i < |infos| :: infos[i].traceId;
    forall t ensures t in ids <==> t in TraceIds(spans) {
      OfTraceEmpty(spans, t);
      MetaMeaning(spans, t);
    }
    assert ids == TraceIds(spans);
  }

  /** After any history, a full listing has one entry per distinct trace among the spans still stored. */
  lemma {:induction false} ListedTraces(history: seq<Span>, infos: seq<TraceInfo>)
    requires IsListing(Stored(history), infos)
    ensures StoredLength(|history|) <= |history|
    ensures |infos| == |TraceIds(history[|history| - StoredLength(|history|)..])|
  {
    StoredIsSuffix(history);
    ListingLength(Stored(history), infos);
  }

  lemma {:induction false} DistinctSpans(spans: seq<Span>)
    requires forall i, j :: 0 <= i < j < |spans| ==> spans[i].traceId != spans[j].traceId
    ensures |TraceIds(spans)| == |spans|
  {
    if spans != [] {
      var n := |spans| - 1;
      DistinctSpans(spans[..n]);
      assert TraceIds(spans) == TraceIds(spans[..n]) + {spans[n].traceId};
    }
  }

  /** When every span is of a trace of its own, as many traces are listed as spans are stored. */
  lemma {:induction false} AllTracesListed(history: seq<Span>, infos: seq<TraceInfo>)
    requires forall i, j :: 0 <= i < j < |history| ==> history[i].traceId != history[j].traceId
    requires IsListing(Stored(history), infos)
    ensures |infos| == StoredLength(|history|)
  {
    ListedTraces(history, infos);
    DistinctSpans(history[|history| - StoredLength(|history|)..]);
  }

  /** n spans, each of a trace of its own. */
  function OwnTraces(n: nat): seq<Span> {
    seq(n, i requires 0 <= i < n => Span(seq(i, _ => 'x'), "", "", 0, 0, Unset))
  }

  /** So the declared limit on distinct traces is not kept. */
  lemma {:induction false} TraceLimitNotKept(infos: seq<TraceInfo>)
    requires IsListing(Stored(OwnTraces(1001)), infos)
    ensures |infos| == 1001 > MAX_STORED_TRACES
  {
    var history := OwnTraces(1001);
    forall i, j | 0 <= i < j < |history| ensures history[i].traceId != history[j].traceId {
      assert |history[i].traceId| == i && |history[j].traceId| == j;
    }
    AllTracesListed(history, infos);
  }

  // ---------------------------------------------------------------------
  // Counts add up
  // ---------------------------------------------------------------------

  function Without(spans: seq<Span>, t: TraceId): seq<Span> {
    if spans == [] then []
    else
      var n := |spans| - 1;
      if spans[n].traceId == t then Without(spans[..n], t) else Without(spans[..n], t) + [spans[n]]
  }

  lemma {:induction false} WithoutSplits(spans: seq<Span>, t: TraceId, u: TraceId)
    ensures |Without(spans, t)| == |spans| - |OfTrace(spans, t)|
    ensures OfTrace(Without(spans, t), u) == if u == t then [] else OfTrace(spans, u)
  {
    if spans != [] {
      var n := |spans| - 1;
      WithoutSplits(spans[..n], t, u);
    }
  }

  function SumCounts(infos: seq<TraceInfo>): nat {
    if infos == [] then 0 else infos[0].spanCount + SumCounts(infos[1..])
  }

  lemma LastIsOfItsTrace(spans: seq<Span>)
    requires spans != []
    ensures OfTrace(spans, spans[|spans| - 1].traceId) != []
  {
  }

  lemma {:induction false} CountsCover(spans: seq<Span>, infos: seq<TraceInfo>)
    requires forall i, j :: 0 <= i < j < |infos| ==> infos[i].traceId != infos[j].traceId
    requires forall i :: 0 <= i < |infos| ==> infos[i].spanCount == |OfTrace(spans, infos[i].traceId)|
    requires forall t :: OfTrace(spans, t) != [] ==> exists i :: 0 <= i < |infos| && infos[i].traceId == t
    ensures SumCounts(infos) == |spans|
    decreases |infos|
  {
    if infos == [] {
      if spans != [] {
        LastIsOfItsTrace(spans);
      }
    } else {
      var t, tail := infos[0].traceId, infos[1..];
      var rest := Without(spans, t);
      forall u ensures OfTrace(rest, u) == if u == t then [] else OfTrace(spans, u) {
        WithoutSplits(spans, t, u);
      }
      forall u | OfTrace(rest, u) != [] ensures exists i :: 0 <= i < |tail| && tail[i].traceId == u {
        var i :| 0 <= i < |infos| && infos[i].traceId == u;
        assert tail[i - 1] == infos[i];
      }
      WithoutSplits(spans, t, t);
      CountsCover(rest, tail);
    }
  }

  /** The span counts of a full listing add up to the number of stored spans. */
  lemma CountsAddUp(spans: seq<Span>, infos: seq<TraceInfo>)
    requires IsListing(spans, infos)
    ensures SumCounts(infos) == |spans|
  {
    forall t
      ensures MetaOf(spans, t).Some? <==> OfTrace(spans, t) != []
      ensures MetaOf(spans, t).Some? ==> MetaOf(spans, t).value.count == |OfTrace(spans, t)|
    {
      MetaMeaning(spans, t);
    }
    CountsCover(spans, infos);
  }

  // ---------------------------------------------------------------------
  // Sorting
  // ---------------------------------------------------------------------

  method InsertBy<T>(s: seq<T>, x: T, key: T -> real) returns (r: seq<T>)
    requires SortedBy(s, key)
    ensures SortedBy(r, key) && multiset(r) == multiset(s) + multiset{x}
  {
    var j := |s|;
    while j > 0 && key(s[j - 1]) > key(x)
      invariant 0 <= j <= |s|
      invariant forall k :: j <= k < |s| ==> key(s[k]) > key(x)
    {
      j := j - 1;
    }
    r := s[..j] + [x] + s[j..];
    PlacedInOrder(s, x, key, j);
    PlacedOnce(s, x, j);
  }

  lemma PlacedOnce<T>(s: seq<T>, x: T, j: nat)
    requires j <= |s|
    ensures multiset(s[..j] + [x] + s[j..]) == multiset(s) + multiset{x}
  {
    assert s == s[..j] + s[j..];
  }

  /** Some sort by key; like the library's, callers may only rely on order and contents. */
  method SortBy<T>(s: seq<T>, key: T -> real) returns (r: seq<T>)
    ensures SortedBy(r, key) && multiset(r) == multiset(s)
  {
    r := [];
    for i := 0 to |s|
      invariant SortedBy(r, key) && multiset(r) == multiset(s[..i])
    {
      assert s[..i + 1] == s[..i] + [s[i]];
      r := InsertBy(r, s[i], key);
    }
    assert s[..|s|] == s;
  }

  // ---------------------------------------------------------------------
  // The exporter object
  // ---------------------------------------------------------------------

  class InMemoryExporter {
    var spans: seq<Span>
    var byTrace: map<TraceId, seq<nat>>
    ghost var history: seq<Span>

    ghost predicate Valid()
      reads this
    {
      spans == Stored(history) && IndexOk(spans, byTrace)
    }

    constructor ()
      ensures Valid() && history == []
    {
      spans := [];
      byTrace := map[];
      history := [];
    }

    /** Drop the oldest quarter and rebuild the index from what is left. */
    method EvictOldest()
      requires |spans| >= 1
      modifies this`spans, this`byTrace
      ensures spans == old(spans)[Cutoff(|old(spans)|)..] && IndexOk(spans, byTrace)
    {
      var cutoff := |spans| / 4;
      if cutoff == 0 {
        cutoff := 1;
      }
      spans := spans[cutoff..];
      byTrace := map[];
      for i := 0 to |spans|
        invariant spans == old(spans)[cutoff..]
        invariant IndexOk(spans[..i], byTrace)
      {
        IndexSnoc(spans[..i], byTrace, spans[i]);
        assert spans[..i + 1] == spans[..i] + [spans[i]];
        var t := spans[i].traceId;
        byTrace := byTrace[t := (if t in byTrace then byTrace[t] else []) + [i]];
      }
      assert spans[..|spans|] == spans;
    }

    method ExportSpan(span: Span)
      requires Valid()
      modifies this
      ensures Valid() && history == old(history) + [span]
    {
      if |spans| >= MAX_STORED_SPANS {
        EvictOldest();
      }
      IndexSnoc(spans, byTrace, span);
      var idx := |spans|;
      spans := spans + [span];
      byTrace := byTrace[span.traceId := (if span.traceId in byTrace then byTrace[span.traceId] else []) + [idx]];
      history := history + [span];
    }

    /** All spans of a trace by start time, through the index. */
    method GetTrace(traceId: TraceId) returns (detail: Option<seq<Span>>)
      requires IndexOk(spans, byTrace)
      ensures detail.None? <==> OfTrace(spans, traceId) == []
      ensures detail.Some? ==> IsDetail(spans, traceId, detail.value)
    {
      PositionsSelect(spans, traceId);
      assert Lookup(byTrace, traceId)
          == if Positions(spans, traceId) == [] then None else Some(Positions(spans, traceId));
      if traceId !in byTrace {
        return None;
      }
      var indices := byTrace[traceId];
      var picked: seq<Span> := [];
      for i := 0 to |indices|
        invariant picked == OfTrace(spans, traceId)[..i]
      {
        picked := picked + [spans[indices[i]]];
      }
      assert picked == OfTrace(spans, traceId);
      var sorted := SortBy(picked, (s: Span) => s.start as real);
      detail := Some(sorted);
    }

    /** The map of summaries built by one pass over the spans. */
    method Summarise() returns (traces: map<TraceId, Meta>)
      ensures forall t :: Lookup(traces, t) == MetaOf(spans, t)
    {
      traces := map[];
      for i := 0 to |spans|
        invariant forall t :: Lookup(traces, t) == MetaOf(spans[..i], t)
      {
        assert spans[..i + 1][..i] == spans[..i];
        var span := spans[i];
        traces := traces[span.traceId := AddSpan(Lookup(traces, span.traceId), span)];
      }
      assert spans[..|spans|] == spans;
    }

    /** The summaries in map order, whatever that is. */
    method Collect(traces: map<TraceId, Meta>) returns (infos: seq<TraceInfo>)
      ensures forall i, j :: 0 <= i < j < |infos| ==> infos[i].traceId != infos[j].traceId
      ensures forall x :: x in infos <==> x.traceId in traces && x == InfoOf(x.traceId, traces[x.traceId])
    {
      infos := [];
      var left := traces.Keys;
      while left != {}
        invariant left <= traces.Keys
        invariant forall i, j :: 0 <= i < j < |infos| ==> infos[i].traceId != infos[j].traceId
        invariant forall x :: x in infos <==>
                    x.traceId in traces.Keys - left && x == InfoOf(x.traceId, traces[x.traceId])
        decreases |left|
      {
        var t :| t in left;
        infos := infos + [InfoOf(t, traces[t])];
        left := left - {t};
      }
    }

    /** Recent traces, newest first; a positive limit keeps that many of a full listing. */
    method ListTraces(limit: int) returns (infos: seq<TraceInfo>)
      ensures exists all :: IsListing(spans, all) && infos == if 0 < limit < |all| then all[..limit] else all
    {
      var traces := Summarise();
      var collected := Collect(traces);
      infos := SortBy(collected, (x: TraceInfo) => -(x.start as real));
      CollectedIsListing(spans, traces, collected, infos);
      if limit > 0 && |infos| > limit {
        infos := infos[..limit];
      }
    }
  }

  lemma {:induction false} DistinctIds(a: seq<TraceInfo>, b: seq<TraceInfo>)
    requires multiset(a) == multiset(b)
    requires forall i, j :: 0 <= i < j < |a| ==> a[i].traceId != a[j].traceId
    ensures forall i, j :: 0 <= i < j < |b| ==> b[i].traceId != b[j].traceId
  {
    forall i, j | 0 <= i < j < |b| ensures b[i].traceId != b[j].traceId {
      if b[i].traceId == b[j].traceId {
        assert b[i] in multiset(a) && b[j] in multiset(a);
        var k :| 0 <= k < |a| && a[k] == b[i];
        var m :| 0 <= m < |a| && a[m] == b[j];
        OccursOnce(a, k);
        OccursTwice(b, i, j);
      }
    }
  }

  lemma OccursTwice(b: seq<TraceInfo>, i: nat, j: nat)
    requires i < j < |b| && b[i] == b[j]
    ensures multiset(b)[b[i]] >= 2
  {
    assert b == b[..i] + [b[i]] + b[i + 1..j] + [b[j]] + b[j + 1..];
  }

  lemma OccursOnce(a: seq<TraceInfo>, k: nat)
    requires k < |a| && forall i, j :: 0 <= i < j < |a| ==> a[i].traceId != a[j].traceId
    ensures multiset(a)[a[k]] == 1
  {
    assert a == a[..k] + [a[k]] + a[k + 1..];
  }

  lemma CollectedIsListing(spans: seq<Span>, traces: map<TraceId, Meta>, collected: seq<TraceInfo>,
                           infos: seq<TraceInfo>)
    requires forall t :: Lookup(traces, t) == MetaOf(spans, t)
    requires forall i, j :: 0 <= i < j < |collected| ==> collected[i].traceId != collected[j].traceId
    requires forall x :: x in collected <==> x.traceId in traces && x == InfoOf(x.traceId, traces[x.traceId])
    requires multiset(infos) == multiset(collected) && SortedBy(infos, (x: TraceInfo) => -(x.start as real))
    ensures IsListing(spans, infos)
  {
    DistinctIds(collected, infos);
    forall x ensures x in infos <==> x in collected {
      assert x in infos <==> x in multiset(infos);
    }
    forall i | 0 <= i < |infos|
      ensures MetaOf(spans, infos[i].traceId).Some?
      ensures infos[i] == InfoOf(infos[i].traceId, MetaOf(spans, infos[i].traceId).value)
    {
    }
    forall t | MetaOf(spans, t).Some? ensures exists i :: 0 <= i < |infos| && infos[i].traceId == t {
      assert InfoOf(t, traces[t]) in infos;
    }
  }
}
