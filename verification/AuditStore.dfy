/** The in-memory audit store: filtered queries and the compliance summary. */
module AuditStore {
  import opened Wrappers

  /** Risk levels and policy decisions are open string types; unknown values are allowed. */
  datatype AuditEvent = AuditEvent(
    timestamp: int, actor: string, action: string, workspaceId: string, riskLevel: string, decision: string)

  datatype Filter = Filter(
    from: Option<int>, to: Option<int>, workspaceIds: seq<string>, eventTypes: seq<string>, userIds: seq<string>,
    severity: string)

  const ALLOWED := "allowed"
  const BLOCKED := "blocked"
  const APPROVED := "approved"
  const QUARANTINED := "quarantined"
  const ESCALATED := "escalated"

  const TOP: nat := 10

  // ---------------------------------------------------------------------
  // Queries
  // ---------------------------------------------------------------------

  function SeverityOrder(level: string): nat {
    if level == "critical" then 5
    else if level == "high" then 4
    else if level == "medium" then 3
    else if level == "low" then 2
    else if level == "none" then 1
    else 0
  }

  /** An empty list or an unknown severity filters nothing. */
  predicate Matches(e: AuditEvent, f: Filter) {
    && (f.from.Some? ==> e.timestamp >= f.from.value)
    && (f.to.Some? ==> e.timestamp <= f.to.value)
    && (f.workspaceIds == [] || e.workspaceId in f.workspaceIds)
    && (f.eventTypes == [] || e.action in f.eventTypes)
    && (f.userIds == [] || e.actor in f.userIds)
    && (SeverityOrder(f.severity) == 0 || SeverityOrder(e.riskLevel) >= SeverityOrder(f.severity))
  }

  /** The matching events, in recording order. */
  function Matching(events: seq<AuditEvent>, f: Filter): seq<AuditEvent> {
    if events == [] then []
    else
      var n := |events| - 1;
      if Matches(events[n], f) then Matching(events[..n], f) + [events[n]] else Matching(events[..n], f)
  }

  /** A query returns every matching event as often as it was recorded, and no other. */
  lemma {:induction false} MatchingExact(events: seq<AuditEvent>, f: Filter, e: AuditEvent)
    ensures multiset(Matching(events, f))[e] == if Matches(e, f) then multiset(events)[e] else 0
  {
    if events != [] {
      var n := |events| - 1;
      MatchingExact(events[..n], f, e);
      assert events == events[..n] + [events[n]];
    }
  }

  /** Recording more events only appends to the result of a query. */
  lemma {:induction false} MatchingConcat(a: seq<AuditEvent>, b: seq<AuditEvent>, f: Filter)
    ensures Matching(a + b, f) == Matching(a, f) + Matching(b, f)
  {
    if b == [] {
      assert a + b == a;
    } else {
      assert (a + b)[..|a + b| - 1] == a + b[..|b| - 1];
      MatchingConcat(a, b[..|b| - 1], f);
    }
  }

  method Contains(slice: seq<string>, val: string) returns (found: bool)
    ensures found <==> val in slice
  {
    for i := 0 to |slice|
      invariant val !in slice[..i]
    {
      if slice[i] == val {
        return true;
      }
    }
    found := false;
  }

  /** The chain of rejections, severity last. */
  method MatchesFilter(e: AuditEvent, f: Filter, minSeverity: nat) returns (ok: bool)
    requires minSeverity == SeverityOrder(f.severity)
    ensures ok <==> Matches(e, f)
  {
    if f.from.Some? && e.timestamp < f.from.value {
      return false;
    }
    if f.to.Some? && e.timestamp > f.to.value {
      return false;
    }
    var inWorkspaces := Contains(f.workspaceIds, e.workspaceId);
    if |f.workspaceIds| > 0 && !inWorkspaces {
      return false;
    }
    var inTypes := Contains(f.eventTypes, e.action);
    if |f.eventTypes| > 0 && !inTypes {
      return false;
    }
    var inUsers := Contains(f.userIds, e.actor);
    if |f.userIds| > 0 && !inUsers {
      return false;
    }
    if minSeverity > 0 && SeverityOrder(e.riskLevel) < minSeverity {
      return false;
    }
    ok := true;
  }

  /** The risk levels, in increasing order. */
  const LEVELS: seq<string> := ["none", "low", "medium", "high", "critical"]

  ghost predicate AtLeast(level: string, i: nat) {
    exists j :: i <= j < |LEVELS| && level == LEVELS[j]
  }

  lemma LevelOrder(level: string)
    ensures SeverityOrder(level) == 0 <==> level !in LEVELS
    ensures forall i :: 0 <= i < |LEVELS| ==> (AtLeast(level, i) <==> SeverityOrder(level) >= i + 1)
    ensures forall i :: 0 <= i < |LEVELS| ==> SeverityOrder(LEVELS[i]) == i + 1
  {
    assert LEVELS[0] == "none" && LEVELS[1] == "low" && LEVELS[2] == "medium";
    assert LEVELS[3] == "high" && LEVELS[4] == "critical";
    if level in LEVELS {
      var j :| 0 <= j < |LEVELS| && LEVELS[j] == level;
      assert SeverityOrder(level) == j + 1;
    }
  }

  /** Every criterion that is given, bounds included; a severity asks for that level or a higher one. */
  ghost predicate Meets(e: AuditEvent, f: Filter) {
    && (f.from == None || f.from.value <= e.timestamp) && (f.to == None || e.timestamp <= f.to.value)
    && (|f.workspaceIds| > 0 ==> exists i :: 0 <= i < |f.workspaceIds| && f.workspaceIds[i] == e.workspaceId)
    && (|f.eventTypes| > 0 ==> exists i :: 0 <= i < |f.eventTypes| && f.eventTypes[i] == e.action)
    && (|f.userIds| > 0 ==> exists i :: 0 <= i < |f.userIds| && f.userIds[i] == e.actor)
    && forall i :: 0 <= i < |LEVELS| && f.severity == LEVELS[i] ==> AtLeast(e.riskLevel, i)
  }

  lemma MatchesIffMeets(e: AuditEvent, f: Filter)
    ensures Matches(e, f) <==> Meets(e, f)
  {
    LevelOrder(e.riskLevel);
    LevelOrder(f.severity);
    hide SeverityOrder;
    hide AtLeast;
  }

  // ---------------------------------------------------------------------
  // Counting by a field
  // ---------------------------------------------------------------------

  type Key = AuditEvent -> string

  const RISK: Key := (e: AuditEvent) => e.riskLevel
  const ACTOR: Key := (e: AuditEvent) => e.actor
  const DECISION: Key := (e: AuditEvent) => e.decision

  function Count(events: seq<AuditEvent>, key: Key, v: string): nat {
    if events == [] then 0
    else
      var n := |events| - 1;
      Count(events[..n], key, v) + if key(events[n]) == v then 1 else 0
  }

  /** A map of counters that holds exactly the values that occur, with their counts. */
  ghost predicate IsTally(tally: map<string, nat>, events: seq<AuditEvent>, key: Key) {
    forall v :: Lookup(tally, v) == if Count(events, key, v) == 0 then None else Some(Count(events, key, v))
  }

  function Bump(tally: map<string, nat>, v: string): map<string, nat> {
    tally[v := (if v in tally then tally[v] else 0) + 1]
  }

  lemma {:induction false} TallySnoc(tally: map<string, nat>, events: seq<AuditEvent>, key: Key, e: AuditEvent)
    requires IsTally(tally, events, key)
    ensures IsTally(Bump(tally, key(e)), events + [e], key)
  {
  }

  ghost predicate Distinct<T>(s: seq<T>) {
    forall i, j :: 0 <= i < j < |s| ==> s[i] != s[j]
  }

  function SumCounts(events: seq<AuditEvent>, key: Key, vs: seq<string>): nat {
    if vs == [] then 0 else Count(events, key, vs[0]) + SumCounts(events, key, vs[1..])
  }

  lemma {:induction false} SumSnoc(events: seq<AuditEvent>, e: AuditEvent, key: Key, vs: seq<string>)
    requires Distinct(vs)
    ensures SumCounts(events + [e], key, vs) == SumCounts(events, key, vs) + if key(e) in vs then 1 else 0
    decreases |vs|
  {
    if vs != [] {
      SumSnoc(events, e, key, vs[1..]);
    }
  }

  /** Events whose key is among the given values. */
  function CountIn(events: seq<AuditEvent>, key: Key, vs: seq<string>): nat {
    if events == [] then 0
    else
      var n := |events| - 1;
      CountIn(events[..n], key, vs) + if key(events[n]) in vs then 1 else 0
  }

  /** Counters of distinct values add up to the number of events they cover. */
  lemma {:induction false} SumIsCountIn(events: seq<AuditEvent>, key: Key, vs: seq<string>)
    requires Distinct(vs)
    ensures SumCounts(events, key, vs) == CountIn(events, key, vs)
  {
    if events == [] {
      SumOfNothing(key, vs);
    } else {
      var n := |events| - 1;
      SumIsCountIn(events[..n], key, vs);
      SumSnoc(events[..n], events[n], key, vs);
      assert events == events[..n] + [events[n]];
    }
  }

  lemma {:induction false} SumOfNothing(key: Key, vs: seq<string>)
    ensures SumCounts([], key, vs) == 0
  {
    if vs != [] {
      SumOfNothing(key, vs[1..]);
    }
  }

  lemma {:induction false} CountInAll(events: seq<AuditEvent>, key: Key, vs: seq<string>)
    ensures CountIn(events, key, vs) <= |events|
    ensures CountIn(events, key, vs) == |events| <==> forall i :: 0 <= i < |events| ==> key(events[i]) in vs
  {
    if events != [] {
      CountInAll(events[..|events| - 1], key, vs);
    }
  }

  lemma {:induction false} Occurs(events: seq<AuditEvent>, key: Key, i: nat)
    requires i < |events|
    ensures Count(events, key, key(events[i])) > 0
  {
    if i < |events| - 1 {
      Occurs(events[..|events| - 1], key, i);
    }
  }

  // ---------------------------------------------------------------------
  // The compliance report
  // ---------------------------------------------------------------------

  datatype ActorSummary = ActorSummary(actor: string, count: nat)

  datatype Report = Report(
    total: nat, allowed: nat, blocked: nat, approved: nat, quarantined: nat, escalated: nat,
    byRisk: map<string, nat>, topActors: seq<ActorSummary>)

  const DECISIONS: seq<string> := [ALLOWED, BLOCKED, APPROVED, QUARANTINED, ESCALATED]

  /** The most active actors: true counts, none twice, descending, and nobody left out beats anyone kept. */
  ghost predicate IsTop(top: seq<ActorSummary>, events: seq<AuditEvent>) {
    && |top| <= TOP
    && (forall i, j :: 0 <= i < j < |top| ==> top[i].actor != top[j].actor && top[i].count >= top[j].count)
    && (forall i :: 0 <= i < |top| ==> top[i].count == Count(events, ACTOR, top[i].actor) > 0)
    && (forall a :: Count(events, ACTOR, a) > 0 ==>
          || (exists i :: 0 <= i < |top| && top[i].actor == a)
          || (|top| == TOP && forall i :: 0 <= i < |top| ==> Count(events, ACTOR, a) <= top[i].count))
  }

  ghost predicate IsReport(r: Report, events: seq<AuditEvent>) {
    && r.total == |events|
    && r.allowed == Count(events, DECISION, ALLOWED) && r.blocked == Count(events, DECISION, BLOCKED)
    && r.approved == Count(events, DECISION, APPROVED) && r.quarantined == Count(events, DECISION, QUARANTINED)
    && r.escalated == Count(events, DECISION, ESCALATED)
    && IsTally(r.byRisk, events, RISK)
    && IsTop(r.topActors, events)
  }

  /** In whatever order the risk map is read, its counters add up to the total. */
  lemma RiskCountsAddUp(r: Report, events: seq<AuditEvent>, levels: seq<string>)
    requires IsReport(r, events)
    requires Distinct(levels) && forall v :: v in levels <==> v in r.byRisk
    ensures SumCounts(events, RISK, levels) == r.total
    ensures forall v :: v in levels ==> r.byRisk[v] == Count(events, RISK, v)
  {
    SumIsCountIn(events, RISK, levels);
    CountInAll(events, RISK, levels);
    forall i | 0 <= i < |events| ensures RISK(events[i]) in levels {
      Occurs(events, RISK, i);
    }
  }

  /** The five decision counters never exceed the total, and reach it exactly when every decision is a known one. */
  lemma DecisionCountsAddUp(r: Report, events: seq<AuditEvent>)
    requires IsReport(r, events)
    ensures var sum := r.allowed + r.blocked + r.approved + r.quarantined + r.escalated;
            && sum <= r.total
            && (sum == r.total <==> forall i :: 0 <= i < |events| ==> events[i].decision in DECISIONS)
  {
    SumIsCountIn(events, DECISION, DECISIONS);
    CountInAll(events, DECISION, DECISIONS);
    SumOfFive(events, DECISION, ALLOWED, BLOCKED, APPROVED, QUARANTINED, ESCALATED);
  }

  lemma {:induction false} SumOfFive(events: seq<AuditEvent>, key: Key,
                                     a: string, b: string, c: string, d: string, e: string)
    ensures SumCounts(events, key, [a, b, c, d, e])
         == Count(events, key, a) + Count(events, key, b) + Count(events, key, c) + Count(events, key, d)
            + Count(events, key, e)
  {
    assert SumCounts(events, key, [e]) == Count(events, key, e) + SumCounts(events, key, []);
    assert SumCounts(events, key, [c, d, e]) == Count(events, key, c) + SumCounts(events, key, [d, e]);
  }

  /** With a full list of distinct actors in hand: the report shows the lesser of ten and all of them. */
  lemma TopHasRightLength(r: Report, events: seq<AuditEvent>, actors: seq<string>)
    requires IsReport(r, events)
    requires Distinct(actors) && forall a :: a in actors <==> Count(events, ACTOR, a) > 0
    ensures |r.topActors| == if |actors| <= TOP then |actors| else TOP
  {
    var top := r.topActors;
    var names := seq(|top|, i requires 0 <= i < |top| => top[i].actor);
    FewerDistinct(names, actors);
    if |top| < TOP {
      forall a | a in actors ensures a in names {
        var i :| 0 <= i < |top| && top[i].actor == a;
        assert names[i] == a;
      }
      FewerDistinct(actors, names);
    }
  }

  lemma {:induction false} FewerDistinct(a: seq<string>, b: seq<string>)
    requires Distinct(a) && forall x :: x in a ==> x in b
    ensures |a| <= |b|
    decreases |a|
  {
    if a != [] {
      assert a[0] in a && a[0] in b;
      var i :| 0 <= i < |b| && b[i] == a[0];
      var b' := b[..i] + b[i + 1..];
      forall x | x in a[1..] ensures x in b' {
        assert x != a[0] && x in a;
        var k :| 0 <= k < |b| && b[k] == x;
        if k < i { assert b'[k] == x; } else { assert b'[k - 1] == x; }
      }
      FewerDistinct(a[1..], b');
    }
  }

  // ---------------------------------------------------------------------
  // Ranking the actors
  // ---------------------------------------------------------------------

  ghost predicate DistinctActors(s: seq<ActorSummary>) {
    forall i, j :: 0 <= i < j < |s| ==> s[i].actor != s[j].actor
  }

  /** One summary per counter, in whatever order the map yields them. */
  method CollectActors(counts: map<string, nat>) returns (list: seq<ActorSummary>)
    ensures DistinctActors(list)
    ensures forall x :: x in list <==> Lookup(counts, x.actor) == Some(x.count)
  {
    list := [];
    var left := counts.Keys;
    while left != {}
      invariant left <= counts.Keys && DistinctActors(list)
      invariant forall x :: x in list <==> x.actor !in left && Lookup(counts, x.actor) == Some(x.count)
      decreases |left|
    {
      var a :| a in left;
      list := list + [ActorSummary(a, counts[a])];
      left := left - {a};
    }
  }

  /** The exchange sort: position i is compared with everything behind it. */
  method SortDescending(a: array<ActorSummary>)
    requires DistinctActors(a[..])
    modifies a
    ensures DistinctActors(a[..])
    ensures forall x :: x in a[..] <==> x in old(a[..])
    ensures forall p, q :: 0 <= p < q < a.Length ==> a[p].count >= a[q].count
  {
    for i := 0 to a.Length
      invariant DistinctActors(a[..]) && forall x :: x in a[..] <==> x in old(a[..])
      invariant forall p, q :: 0 <= p < q < a.Length && p < i ==> a[p].count >= a[q].count
    {
      for j := i + 1 to a.Length
        invariant DistinctActors(a[..]) && forall x :: x in a[..] <==> x in old(a[..])
        invariant forall p, q :: 0 <= p < q < a.Length && p < i ==> a[p].count >= a[q].count
        invariant forall k :: i < k < j ==> a[i].count >= a[k].count
      {
        if a[j].count > a[i].count {
          Swap(a, i, j);
        }
      }
    }
  }

  method Swap(a: array<ActorSummary>, i: nat, j: nat)
    requires i < j < a.Length && DistinctActors(a[..])
    modifies a
    ensures a[i] == old(a[j]) && a[j] == old(a[i])
    ensures forall k :: 0 <= k < a.Length && k != i && k != j ==> a[k] == old(a[k])
    ensures DistinctActors(a[..])
    ensures forall x :: x in a[..] <==> x in old(a[..])
  {
    ghost var before := a[..];
    a[i], a[j] := a[j], a[i];
    ghost var after := a[..];
    forall x ensures x in after <==> x in before {
      if x in before {
        var k :| 0 <= k < |before| && before[k] == x;
        assert after[if k == i then j else if k == j then i else k] == x;
      }
      if x in after {
        var k :| 0 <= k < |after| && after[k] == x;
      }
    }
  }

  /** The first ten of a full descending list are the top actors. */
  lemma {:induction false} PrefixIsTop(all: seq<ActorSummary>, counts: map<string, nat>, events: seq<AuditEvent>)
    requires IsTally(counts, events, ACTOR)
    requires DistinctActors(all) && forall x :: x in all <==> Lookup(counts, x.actor) == Some(x.count)
    requires forall p, q :: 0 <= p < q < |all| ==> all[p].count >= all[q].count
    ensures IsTop(if |all| > TOP then all[..TOP] else all, events)
  {
    var top := if |all| > TOP then all[..TOP] else all;
    forall i | 0 <= i < |top| ensures top[i].count == Count(events, ACTOR, top[i].actor) > 0 {
      assert all[i] in all;
      assert Lookup(counts, all[i].actor) == Some(all[i].count);
    }
    forall a | Count(events, ACTOR, a) > 0
      ensures || (exists i :: 0 <= i < |top| && top[i].actor == a)
              || (|top| == TOP && forall i :: 0 <= i < |top| ==> Count(events, ACTOR, a) <= top[i].count)
    {
      assert Lookup(counts, a) == Some(Count(events, ACTOR, a));
      var x := ActorSummary(a, Count(events, ACTOR, a));
      assert x in all;
      var k :| 0 <= k < |all| && all[k] == x;
      if k < |top| {
        assert top[k].actor == a;
      }
    }
  }

  // ---------------------------------------------------------------------
  // The store object
  // ---------------------------------------------------------------------

  class InMemoryStore {
    var events: seq<AuditEvent>

    constructor ()
      ensures events == []
    {
      events := [];
    }

    method Record(e: AuditEvent)
      modifies this
      ensures events == old(events) + [e]
    {
      events := events + [e];
    }

    method Query(f: Filter) returns (result: seq<AuditEvent>)
      ensures result == Matching(events, f)
      ensures forall e :: multiset(result)[e] == if Meets(e, f) then multiset(events)[e] else 0
    {
      result := [];
      var sevOrder := SeverityOrder(f.severity);
      for i := 0 to |events|
        invariant result == Matching(events[..i], f)
      {
        assert events[..i + 1][..i] == events[..i];
        var ok := MatchesFilter(events[i], f, sevOrder);
        if ok {
          result := result + [events[i]];
        }
      }
      assert events[..|events|] == events;
      forall e ensures multiset(result)[e] == if Meets(e, f) then multiset(events)[e] else 0 {
        MatchingExact(events, f, e);
        MatchesIffMeets(e, f);
      }
    }

    method ComplianceSummary(from: int, to: int) returns (r: Report)
      ensures IsReport(r, Matching(events, Filter(Some(from), Some(to), [], [], [], "")))
    {
      var evts := Query(Filter(Some(from), Some(to), [], [], [], ""));
      var allowed, blocked, approved, quarantined, escalated := 0, 0, 0, 0, 0;
      var byRisk: map<string, nat> := map[];
      var actorCounts: map<string, nat> := map[];
      for i := 0 to |evts|
        invariant allowed == Count(evts[..i], DECISION, ALLOWED) && blocked == Count(evts[..i], DECISION, BLOCKED)
        invariant approved == Count(evts[..i], DECISION, APPROVED)
        invariant quarantined == Count(evts[..i], DECISION, QUARANTINED)
        invariant escalated == Count(evts[..i], DECISION, ESCALATED)
        invariant IsTally(byRisk, evts[..i], RISK) && IsTally(actorCounts, evts[..i], ACTOR)
      {
        var e := evts[i];
        assert evts[..i + 1] == evts[..i] + [e] && evts[..i + 1][..i] == evts[..i];
        TallySnoc(byRisk, evts[..i], RISK, e);
        TallySnoc(actorCounts, evts[..i], ACTOR, e);
        if e.decision == ALLOWED {
          allowed := allowed + 1;
        } else if e.decision == BLOCKED {
          blocked := blocked + 1;
        } else if e.decision == APPROVED {
          approved := approved + 1;
        } else if e.decision == QUARANTINED {
          quarantined := quarantined + 1;
        } else if e.decision == ESCALATED {
          escalated := escalated + 1;
        }
        byRisk := Bump(byRisk, e.riskLevel);
        actorCounts := Bump(actorCounts, e.actor);
      }
      assert evts[..|evts|] == evts;
      var list := CollectActors(actorCounts);
      var ranked := new ActorSummary[|list|](i requires 0 <= i < |list| => list[i]);
      assert ranked[..] == list;
      SortDescending(ranked);
      PrefixIsTop(ranked[..], actorCounts, evts);
      var top := if ranked.Length > TOP then ranked[..TOP] else ranked[..];
      r := Report(|evts|, allowed, blocked, approved, quarantined, escalated, byRisk, top);
    }
  }
}
