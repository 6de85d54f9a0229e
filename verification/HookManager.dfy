/**
  The plugin hook manager: one list kept sorted by priority with a stable sort,
  plugins that come and go, and `trigger`, which runs the handlers of a type in
  order. Handlers are named by an id; what a handler does is a parameter.
 */
module HookManager {
  import opened Wrappers
  import opened Sorting

  type PluginId = string
  type HandlerId = nat
  type Payload = string

  datatype HookType = BeforeAction | AfterAction | OnEvent | OnSchedule | OnApproval

  datatype Entry = Entry(pluginId: PluginId, hookType: HookType, priority: real, handler: HandlerId)

  // ---------------------------------------------------------------------
  // Stable order
  // ---------------------------------------------------------------------

  const PRIORITY := (e: Entry) => e.priority

  ghost predicate SortedByPriority(s: seq<Entry>) {
    SortedBy(s, PRIORITY)
  }

  /** The entries of one priority, in list order. */
  function WithPriority(s: seq<Entry>, p: real): seq<Entry> {
    if s == [] then []
    else if s[|s| - 1].priority == p then WithPriority(s[..|s| - 1], p) + [s[|s| - 1]]
    else WithPriority(s[..|s| - 1], p)
  }

  /** r is s sorted by priority, with the order of s kept among equal priorities. */
  ghost predicate IsStableSort(r: seq<Entry>, s: seq<Entry>) {
    SortedByPriority(r) && forall p :: WithPriority(r, p) == WithPriority(s, p)
  }

  lemma {:induction false} WithPriorityConcat(a: seq<Entry>, b: seq<Entry>, p: real)
    ensures WithPriority(a + b, p) == WithPriority(a, p) + WithPriority(b, p)
  {
    if b == [] {
      assert a + b == a;
    } else {
      assert (a + b)[..|a + b| - 1] == a + b[..|b| - 1];
      WithPriorityConcat(a, b[..|b| - 1], p);
    }
  }

  lemma {:induction false} WithPriorityMember(s: seq<Entry>, p: real, e: Entry)
    ensures e in WithPriority(s, p) <==> e in s && e.priority == p
  {
    if s != [] {
      WithPriorityMember(s[..|s| - 1], p, e);
    }
  }

  lemma {:induction false} LastOfPriority(s: seq<Entry>)
    requires s != []
    ensures var x := s[|s| - 1]; var w := WithPriority(s, x.priority); w != [] && w[|w| - 1] == x
  {
  }

  /** Sorted lists with the same entries per priority: the last entry of one occurs in the other. */
  lemma {:induction false} LastBelowLast(r: seq<Entry>, s: seq<Entry>)
    requires SortedByPriority(s) && r != []
    requires WithPriority(r, r[|r| - 1].priority) == WithPriority(s, r[|r| - 1].priority)
    ensures s != [] && r[|r| - 1].priority <= s[|s| - 1].priority
  {
    var x := r[|r| - 1];
    WithPriorityMember(s, x.priority, x);
    var i :| 0 <= i < |s| && s[i] == x;
  }

  lemma {:induction false} SameLast(r: seq<Entry>, s: seq<Entry>)
    requires SortedByPriority(r) && SortedByPriority(s) && r != []
    requires forall p :: WithPriority(r, p) == WithPriority(s, p)
    ensures s != [] && r[|r| - 1] == s[|s| - 1]
  {
    LastBelowLast(r, s);
    LastBelowLast(s, r);
    LastOfPriority(r);
    LastOfPriority(s);
  }

  /** There is only one stable sort of a list. */
  lemma {:induction false} StableSortUnique(r: seq<Entry>, s: seq<Entry>)
    requires SortedByPriority(r) && SortedByPriority(s)
    requires forall p :: WithPriority(r, p) == WithPriority(s, p)
    ensures r == s
    decreases |r| + |s|
  {
    if r == [] && s == [] {
    } else if r == [] {
      SameLast(s, r);
    } else {
      SameLast(r, s);
      var r', s' := r[..|r| - 1], s[..|s| - 1];
      forall p ensures WithPriority(r', p) == WithPriority(s', p) {
        assert WithPriority(r, p) == WithPriority(s, p);
        var x := r[|r| - 1];
        if x.priority == p {
          assert WithPriority(r, p)[..|WithPriority(r, p)| - 1] == WithPriority(r', p);
          assert WithPriority(s, p)[..|WithPriority(s, p)| - 1] == WithPriority(s', p);
        }
      }
      StableSortUnique(r', s');
      assert r == r' + [r[|r| - 1]] && s == s' + [s[|s| - 1]];
    }
  }

  /** Insert after every entry of the same or a lower priority. */
  method InsertStable(sorted: seq<Entry>, e: Entry) returns (r: seq<Entry>)
    requires SortedByPriority(sorted)
    ensures IsStableSort(r, sorted + [e])
  {
    var j := |sorted|;
    while j > 0 && sorted[j - 1].priority > e.priority
      invariant 0 <= j <= |sorted|
      invariant forall k :: j <= k < |sorted| ==> sorted[k].priority > e.priority
    {
      j := j - 1;
    }
    r := sorted[..j] + [e] + sorted[j..];
    PlacedInOrder(sorted, e, PRIORITY, j);
    SamePriorities(sorted, j, e);
  }

  lemma {:induction false} SamePriorities(sorted: seq<Entry>, j: nat, e: Entry)
    requires j <= |sorted| && forall k :: j <= k < |sorted| ==> sorted[k].priority > e.priority
    ensures forall p :: WithPriority(sorted[..j] + [e] + sorted[j..], p) == WithPriority(sorted + [e], p)
  {
    assert sorted == sorted[..j] + sorted[j..];
    forall p ensures WithPriority(sorted[..j] + [e] + sorted[j..], p) == WithPriority(sorted + [e], p) {
      PlacedStably(sorted[..j], sorted[j..], e, p);
    }
  }

  lemma {:induction false} PlacedStably(a: seq<Entry>, b: seq<Entry>, e: Entry, p: real)
    requires forall i :: 0 <= i < |b| ==> b[i].priority != e.priority
    ensures WithPriority(a + [e] + b, p) == WithPriority(a + b + [e], p)
  {
    WithPriorityConcat(a + [e], b, p);
    WithPriorityConcat(a, b, p);
    if p == e.priority {
      NoneWithPriority(b, p);
    }
  }

  lemma {:induction false} NoneWithPriority(s: seq<Entry>, p: real)
    requires forall i :: 0 <= i < |s| ==> s[i].priority != p
    ensures WithPriority(s, p) == []
  {
    if s != [] {
      NoneWithPriority(s[..|s| - 1], p);
    }
  }

  /** The library's stable sort, as an insertion sort; `StableSortUnique` makes the algorithm immaterial. */
  method StableSort(s: seq<Entry>) returns (r: seq<Entry>)
    ensures IsStableSort(r, s)
  {
    r := [];
    for i := 0 to |s|
      invariant IsStableSort(r, s[..i])
    {
      ghost var before := r;
      r := InsertStable(r, s[i]);
      forall p ensures WithPriority(r, p) == WithPriority(s[..i + 1], p) {
        assert s[..i + 1] == s[..i] + [s[i]];
        WithPriorityConcat(before, [s[i]], p);
        WithPriorityConcat(s[..i], [s[i]], p);
      }
    }
    assert s[..|s|] == s;
  }

  // ---------------------------------------------------------------------
  // Histories of calls
  // ---------------------------------------------------------------------

  datatype Op = Register(entry: Entry) | Unregister(pluginId: PluginId)

  function WithoutPlugin(s: seq<Entry>, p: PluginId): seq<Entry> {
    if s == [] then []
    else if s[|s| - 1].pluginId == p then WithoutPlugin(s[..|s| - 1], p)
    else WithoutPlugin(s[..|s| - 1], p) + [s[|s| - 1]]
  }

  function Applied(before: seq<Entry>, op: Op): seq<Entry> {
    match op
    case Register(e) => before + [e]
    case Unregister(p) => WithoutPlugin(before, p)
  }

  /** The entries still registered after a history, in registration order. */
  function Survivors(ops: seq<Op>): seq<Entry> {
    if ops == [] then [] else Applied(Survivors(ops[..|ops| - 1]), ops[|ops| - 1])
  }

  lemma {:induction false} WithoutThenPriority(s: seq<Entry>, q: PluginId, p: real)
    ensures WithPriority(WithoutPlugin(s, q), p) == WithoutPlugin(WithPriority(s, p), q)
  {
    if s != [] {
      var n := |s| - 1;
      WithoutThenPriority(s[..n], q, p);
    }
  }

  lemma {:induction false} WithoutKeepsOrder(s: seq<Entry>, q: PluginId)
    requires SortedByPriority(s)
    ensures SortedByPriority(WithoutPlugin(s, q))
    ensures forall e :: e in WithoutPlugin(s, q) ==> e in s
  {
    if s != [] {
      WithoutKeepsOrder(s[..|s| - 1], q);
      var w := WithoutPlugin(s[..|s| - 1], q);
      assert forall i :: 0 <= i < |w| ==> w[i] in w && w[i] in s[..|s| - 1];
    }
  }

  lemma {:induction false} UnregisterKeepsStable(hooks: seq<Entry>, s: seq<Entry>, q: PluginId)
    requires IsStableSort(hooks, s)
    ensures IsStableSort(WithoutPlugin(hooks, q), WithoutPlugin(s, q))
  {
    WithoutKeepsOrder(hooks, q);
    forall p ensures WithPriority(WithoutPlugin(hooks, q), p) == WithPriority(WithoutPlugin(s, q), p) {
      WithoutThenPriority(hooks, q, p);
      WithoutThenPriority(s, q, p);
    }
  }

  lemma {:induction false} RegisterKeepsStable(hooks: seq<Entry>, s: seq<Entry>, e: Entry, after: seq<Entry>)
    requires IsStableSort(hooks, s) && IsStableSort(after, hooks + [e])
    ensures IsStableSort(after, s + [e])
  {
  }

  // ---------------------------------------------------------------------
  // Unregistering erases a plugin's past
  // ---------------------------------------------------------------------

  /** The history with all of a plugin's registrations left out. */
  function NeverRegistered(ops: seq<Op>, q: PluginId): seq<Op> {
    if ops == [] then []
    else
      var last := ops[|ops| - 1];
      if last.Register? && last.entry.pluginId == q then NeverRegistered(ops[..|ops| - 1], q)
      else NeverRegistered(ops[..|ops| - 1], q) + [last]
  }

  lemma {:induction false} SurvivorsSnoc(ops: seq<Op>, op: Op)
    ensures Survivors(ops + [op]) == Applied(Survivors(ops), op)
  {
  }

  lemma {:induction false} WithoutCommutes(s: seq<Entry>, p: PluginId, q: PluginId)
    ensures WithoutPlugin(WithoutPlugin(s, p), q) == WithoutPlugin(WithoutPlugin(s, q), p)
  {
    if s != [] {
      var n := |s| - 1;
      WithoutCommutes(s[..n], p, q);
    }
  }

  lemma {:induction false} ErasesRegistrations(ops: seq<Op>, q: PluginId)
    ensures WithoutPlugin(Survivors(ops), q) == Survivors(NeverRegistered(ops, q))
  {
    if ops != [] {
      var n := |ops| - 1;
      ErasesRegistrations(ops[..n], q);
      var before := Survivors(ops[..n]);
      match ops[n] {
        case Register(e) =>
          if e.pluginId != q {
            SurvivorsSnoc(NeverRegistered(ops[..n], q), ops[n]);
          }
        case Unregister(p) =>
          WithoutCommutes(before, p, q);
      }
    }
  }

  lemma {:induction false} SameFuture(a: seq<Op>, b: seq<Op>, later: seq<Op>)
    requires Survivors(a) == Survivors(b)
    ensures Survivors(a + later) == Survivors(b + later)
  {
    if later == [] {
      assert a + later == a && b + later == b;
    } else {
      var n := |later| - 1;
      SameFuture(a, b, later[..n]);
      assert a + later == (a + later[..n]) + [later[n]] && b + later == (b + later[..n]) + [later[n]];
    }
  }

  /**
    After a plugin is unregistered, whatever calls follow, the hook list is the one
    that would be there had the plugin never registered anything before.
   */
  lemma {:induction false} UnregisterErasesPlugin(ops: seq<Op>, q: PluginId, later: seq<Op>,
                                                  hooks: seq<Entry>, other: seq<Entry>)
    requires IsStableSort(hooks, Survivors(ops + [Unregister(q)] + later))
    requires IsStableSort(other, Survivors(NeverRegistered(ops, q) + later))
    ensures hooks == other
  {
    ErasesRegistrations(ops, q);
    SameFuture(ops + [Unregister(q)], NeverRegistered(ops, q), later);
    StableSortUnique(hooks, other);
  }

  // ---------------------------------------------------------------------
  // Trigger
  // ---------------------------------------------------------------------

  datatype Action = Continue | Abort | Modify

  /** `modified` is None when the handler left the field undefined. */
  datatype HandlerResult = HandlerResult(action: Action, modified: Option<Payload>)

  /** A handler either returns a result or throws. */
  type Handlers = (HandlerId, Payload) -> Option<HandlerResult>

  datatype Outcome = Resolved(results: seq<HandlerResult>, finalPayload: Payload) | Rejected

  function OfType(hooks: seq<Entry>, t: HookType): seq<Entry> {
    if hooks == [] then []
    else if hooks[0].hookType == t then [hooks[0]] + OfType(hooks[1..], t)
    else OfType(hooks[1..], t)
  }

  /** What a BeforeAction result makes of the payload. */
  function Threaded(r: HandlerResult, payload: Payload): Payload {
    if r.action == Modify && r.modified.Some? then r.modified.value else payload
  }

  /** The left fold `trigger` refines: stop at an abort, thread modified payloads, for BeforeAction only. */
  function Fold(run: Handlers, t: HookType, entries: seq<Entry>, payload: Payload): Outcome
    decreases |entries|
  {
    if entries == [] then Resolved([], payload)
    else
      match run(entries[0].handler, payload)
      case None => Rejected
      case Some(r) =>
        if t == BeforeAction && r.action == Abort then Resolved([r], payload)
        else
          match Fold(run, t, entries[1..], if t == BeforeAction then Threaded(r, payload) else payload)
          case Rejected => Rejected
          case Resolved(rs, final) => Resolved([r] + rs, final)
  }

  method Trigger(hooks: seq<Entry>, run: Handlers, t: HookType, payload: Payload) returns (out: Outcome)
    ensures out == Fold(run, t, OfType(hooks, t), payload)
  {
    var relevant := OfType(hooks, t);
    var results: seq<HandlerResult> := [];
    var current := payload;
    ghost var whole := Fold(run, t, relevant, payload);
    for i := 0 to |relevant|
      invariant whole == match Fold(run, t, relevant[i..], current)
                         case Rejected => Rejected
                         case Resolved(rs, final) => Resolved(results + rs, final)
    {
      var answer := run(relevant[i].handler, current);
      if answer.None? {
        return Rejected;
      }
      var r := answer.value;
      ghost var before := results;
      results := results + [r];
      if t == BeforeAction {
        if r.action == Abort {
          return Resolved(results, current);
        }
        if r.action == Modify && r.modified.Some? {
          current := r.modified.value;
        }
      }
      assert forall rs: seq<HandlerResult> :: before + ([r] + rs) == results + rs;
    }
    out := Resolved(results, current);
  }

  /** The hooks that run are exactly those of the type, as often as they are listed, in list order. */
  lemma {:induction false} RunsHooksOfType(a: seq<Entry>, b: seq<Entry>, t: HookType, e: Entry)
    ensures OfType(a + b, t) == OfType(a, t) + OfType(b, t)
    ensures multiset(OfType(a, t))[e] == if e.hookType == t then multiset(a)[e] else 0
  {
    if a == [] {
      assert a + b == b;
    } else {
      assert (a + b)[1..] == a[1..] + b;
      RunsHooksOfType(a[1..], b, t, e);
      assert a == [a[0]] + a[1..];
    }
  }

  /** For every type but BeforeAction all handlers see the original payload, all run, and it comes back unchanged. */
  lemma {:induction false} FireAndForget(run: Handlers, t: HookType, entries: seq<Entry>, payload: Payload)
    requires t != BeforeAction
    ensures var out := Fold(run, t, entries, payload);
            if exists i :: 0 <= i < |entries| && run(entries[i].handler, payload).None? then out == Rejected
            else
              && out.Resolved? && out.finalPayload == payload && |out.results| == |entries|
              && forall i :: 0 <= i < |entries| ==> run(entries[i].handler, payload) == Some(out.results[i])
    decreases |entries|
  {
    if entries != [] {
      FireAndForget(run, t, entries[1..], payload);
    }
  }

  /** For BeforeAction the run stops at the first abort: only the last result can be one. */
  lemma {:induction false} AbortIsLast(run: Handlers, entries: seq<Entry>, payload: Payload)
    ensures var out := Fold(run, BeforeAction, entries, payload);
            out.Resolved? ==>
              && |out.results| <= |entries|
              && (forall i :: 0 <= i < |out.results| - 1 ==> out.results[i].action != Abort)
              && (|out.results| < |entries| ==> out.results != [] && out.results[|out.results| - 1].action == Abort)
    decreases |entries|
  {
    if entries != [] && run(entries[0].handler, payload).Some? {
      var r := run(entries[0].handler, payload).value;
      if r.action != Abort {
        AbortIsLast(run, entries[1..], Threaded(r, payload));
      }
    }
  }

  /** The payload after a run of BeforeAction results. */
  function ThreadedAll(rs: seq<HandlerResult>, payload: Payload): Payload
    decreases |rs|
  {
    if rs == [] then payload else ThreadedAll(rs[1..], Threaded(rs[0], payload))
  }

  /** For BeforeAction every handler that runs is given the payload as its predecessors left it. */
  lemma {:induction false} PayloadIsThreaded(run: Handlers, entries: seq<Entry>, payload: Payload)
    ensures var out := Fold(run, BeforeAction, entries, payload);
            out.Resolved? ==>
              && |out.results| <= |entries|
              && out.finalPayload == ThreadedAll(out.results, payload)
              && forall i :: 0 <= i < |out.results| ==>
                   run(entries[i].handler, ThreadedAll(out.results[..i], payload)) == Some(out.results[i])
    decreases |entries|
  {
    var out := Fold(run, BeforeAction, entries, payload);
    if entries != [] && out.Resolved? {
      var r := run(entries[0].handler, payload).value;
      if r.action != Abort {
        PayloadIsThreaded(run, entries[1..], Threaded(r, payload));
        var rest := Fold(run, BeforeAction, entries[1..], Threaded(r, payload));
        forall i | 0 <= i < |out.results|
          ensures run(entries[i].handler, ThreadedAll(out.results[..i], payload)) == Some(out.results[i])
        {
          if i > 0 {
            assert out.results[..i][1..] == rest.results[..i - 1];
          }
        }
      }
    }
  }

  ghost predicate Modifies(r: HandlerResult) {
    r.action == Modify && r.modified.Some?
  }

  /** The payload after some results is that of the last one that modified it, or the original. */
  lemma {:induction false} PayloadIsLastModified(rs: seq<HandlerResult>, payload: Payload, k: nat)
    requires k <= |rs| && (k > 0 ==> Modifies(rs[k - 1])) && forall i :: k <= i < |rs| ==> !Modifies(rs[i])
    ensures ThreadedAll(rs, payload) == if k == 0 then payload else rs[k - 1].modified.value
  {
    if rs != [] {
      PayloadIsLastModified(rs[1..], Threaded(rs[0], payload), if k == 0 then 0 else k - 1);
    }
  }

  /** The handlers answered `rs`, each on the payload its predecessors left, none aborted, and the next threw. */
  ghost predicate ThrowsAfter(run: Handlers, entries: seq<Entry>, payload: Payload, rs: seq<HandlerResult>) {
    && |rs| < |entries|
    && (forall i :: 0 <= i < |rs| ==>
          && rs[i].action != Abort
          && run(entries[i].handler, ThreadedAll(rs[..i], payload)) == Some(rs[i]))
    && run(entries[|rs|].handler, ThreadedAll(rs, payload)) == None
  }

  /** A BeforeAction run rejects if and only if a handler throws before any has aborted. */
  lemma {:induction false} RejectsIffThrows(run: Handlers, entries: seq<Entry>, payload: Payload)
    ensures Fold(run, BeforeAction, entries, payload).Rejected? <==> exists rs :: ThrowsAfter(run, entries, payload, rs)
  {
    if Fold(run, BeforeAction, entries, payload).Rejected? {
      var rs := ThrowingPrefix(run, entries, payload);
    }
    if rs :| ThrowsAfter(run, entries, payload, rs) {
      ThrowRejects(run, entries, payload, rs);
    }
  }

  lemma {:induction false} ThrowingPrefix(run: Handlers, entries: seq<Entry>, payload: Payload)
    returns (rs: seq<HandlerResult>)
    requires Fold(run, BeforeAction, entries, payload).Rejected?
    ensures ThrowsAfter(run, entries, payload, rs)
    decreases |entries|
  {
    var first := run(entries[0].handler, payload);
    if first.None? {
      rs := [];
    } else {
      var later := ThrowingPrefix(run, entries[1..], Threaded(first.value, payload));
      rs := [first.value] + later;
      forall i | 0 <= i < |rs|
        ensures rs[i].action != Abort && run(entries[i].handler, ThreadedAll(rs[..i], payload)) == Some(rs[i])
      {
        if i > 0 {
          assert rs[..i][1..] == later[..i - 1] && rs[i] == later[i - 1];
        }
      }
      assert rs[1..] == later;
    }
  }

  lemma {:induction false} ThrowRejects(run: Handlers, entries: seq<Entry>, payload: Payload, rs: seq<HandlerResult>)
    requires ThrowsAfter(run, entries, payload, rs)
    ensures Fold(run, BeforeAction, entries, payload).Rejected?
    decreases |rs|
  {
    if rs != [] {
      var tail := rs[1..];
      assert rs[..0] == [];
      forall i | 0 <= i < |tail|
        ensures tail[i].action != Abort
        ensures run(entries[1..][i].handler, ThreadedAll(tail[..i], Threaded(rs[0], payload))) == Some(tail[i])
      {
        assert rs[..i + 1][1..] == tail[..i] && rs[..i + 1][0] == rs[0];
      }
      ThrowRejects(run, entries[1..], Threaded(rs[0], payload), tail);
    }
  }

  /** Removing a plugin removes its entries, all of them, and keeps the others in order. */
  lemma {:induction false} RemovesPluginOnly(a: seq<Entry>, b: seq<Entry>, q: PluginId, e: Entry)
    ensures WithoutPlugin(a + b, q) == WithoutPlugin(a, q) + WithoutPlugin(b, q)
    ensures multiset(WithoutPlugin(b, q))[e] == if e.pluginId == q then 0 else multiset(b)[e]
  {
    if b == [] {
      assert a + b == a;
    } else {
      assert (a + b)[..|a + b| - 1] == a + b[..|b| - 1];
      RemovesPluginOnly(a, b[..|b| - 1], q, e);
      assert b == b[..|b| - 1] + [b[|b| - 1]];
    }
  }

  lemma {:induction false} PriorityCounts(s: seq<Entry>, p: real, e: Entry)
    ensures multiset(WithPriority(s, p))[e] == if e.priority == p then multiset(s)[e] else 0
  {
    if s != [] {
      PriorityCounts(s[..|s| - 1], p, e);
      assert s == s[..|s| - 1] + [s[|s| - 1]];
    }
  }

  /** A stable sort keeps every entry and puts lower priorities first. */
  lemma {:induction false} StableSortKeepsAll(r: seq<Entry>, s: seq<Entry>)
    requires IsStableSort(r, s)
    ensures multiset(r) == multiset(s)
    ensures forall i, j :: 0 <= i < j < |r| ==> r[i].priority <= r[j].priority
  {
    forall e ensures multiset(r)[e] == multiset(s)[e] {
      PriorityCounts(r, e.priority, e);
      PriorityCounts(s, e.priority, e);
    }
    assert forall i, j :: 0 <= i < j < |r| ==> PRIORITY(r[i]) <= PRIORITY(r[j]);
  }

  // ---------------------------------------------------------------------
  // The manager object
  // ---------------------------------------------------------------------

  class Manager {
    var hooks: seq<Entry>
    ghost var ops: seq<Op>

    /** The list is the surviving entries by priority, then by registration time. */
    ghost predicate Valid()
      reads this
    {
      IsStableSort(hooks, Survivors(ops))
    }

    constructor ()
      ensures Valid() && ops == []
    {
      hooks := [];
      ops := [];
    }

    method RegisterHook(e: Entry)
      requires Valid()
      modifies this
      ensures Valid() && ops == old(ops) + [Register(e)]
      ensures multiset(hooks) == multiset(old(hooks)) + multiset{e}
      ensures forall i, j :: 0 <= i < j < |hooks| ==> hooks[i].priority <= hooks[j].priority
    {
      ghost var before := hooks;
      hooks := StableSort(hooks + [e]);
      StableSortKeepsAll(hooks, before + [e]);
      RegisterKeepsStable(before, Survivors(ops), e, hooks);
      SurvivorsSnoc(ops, Register(e));
      ops := ops + [Register(e)];
    }

    /** Splice out the plugin's entries, walking the list from its end. */
    method UnregisterPlugin(q: PluginId)
      requires Valid()
      modifies this
      ensures Valid() && ops == old(ops) + [Unregister(q)]
      ensures hooks == WithoutPlugin(old(hooks), q)
    {
      ghost var before := hooks;
      var i := |hooks|;
      assert before[..i] == before && hooks[i..] == [];
      while i > 0
        invariant 0 <= i <= |before| && i <= |hooks|
        invariant hooks[..i] == before[..i]
        invariant WithoutPlugin(before, q) == WithoutPlugin(before[..i], q) + hooks[i..]
        modifies this`hooks
      {
        i := i - 1;
        ghost var tail := hooks[i + 1..];
        assert before[..i + 1][..i] == before[..i] && hooks[i] == before[i];
        if hooks[i].pluginId == q {
          hooks := hooks[..i] + hooks[i + 1..];
        } else {
          assert hooks[i..] == [before[i]] + tail;
        }
      }
      UnregisterKeepsStable(before, Survivors(ops), q);
      SurvivorsSnoc(ops, Unregister(q));
      assert hooks == WithoutPlugin(before, q);
      ops := ops + [Unregister(q)];
    }
  }
}
