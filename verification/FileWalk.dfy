/** The file-count guard: an explicit-stack directory walk with early exit. */
module FileWalk {
  /** A directory entry; `Unknown` is one whose file type cannot be read, which the walk skips. */
  datatype Entry = File | Unknown | Dir(readable: bool, entries: seq<Entry>)

  /** Files below an entry; an unreadable directory contributes nothing. */
  function Files(e: Entry): nat
    decreases e, 1
  {
    match e
    case File => 1
    case Unknown => 0
    case Dir(readable, entries) => if readable then FilesIn(entries) else 0
  }

  function FilesIn(es: seq<Entry>): nat
    decreases es, 0
  {
    if es == [] then 0 else Files(es[0]) + FilesIn(es[1..])
  }

  /** Termination measure: directories still to visit. */
  ghost function Size(e: Entry): nat
    decreases e, 1
  {
    if e.Dir? then 1 + SizeIn(e.entries) else 0
  }

  ghost function SizeIn(es: seq<Entry>): nat
    decreases es, 0
  {
    if es == [] then 0 else Size(es[0]) + SizeIn(es[1..])
  }

  lemma {:induction false} SplitLast(es: seq<Entry>)
    requires es != []
    ensures var n := |es| - 1;
            FilesIn(es) == FilesIn(es[..n]) + Files(es[n]) && SizeIn(es) == SizeIn(es[..n]) + Size(es[n])
  {
    if |es| > 1 {
      SplitLast(es[1..]);
      assert es[1..][..|es| - 2] == es[..|es| - 1][1..];
    }
  }

  /** What one more entry adds to a readable directory, wherever it stands. */
  lemma {:induction false} EntryCounts(a: seq<Entry>, x: Entry, b: seq<Entry>)
    ensures Files(Dir(true, [])) == 0
    ensures Files(Dir(true, a + [x] + b)) - Files(Dir(true, a + b))
         == if x.File? then 1 else if x.Dir? && x.readable then FilesIn(x.entries) else 0
  {
    if a == [] {
      assert a + [x] + b == [x] + b && a + b == b;
      assert ([x] + b)[1..] == b;
      assert FilesIn([x] + b) == Files(x) + FilesIn(b);
    } else {
      EntryCounts(a[1..], x, b);
      assert (a + [x] + b)[1..] == a[1..] + [x] + b && (a + b)[1..] == a[1..] + b;
    }
  }

  /** The walk refuses a tree exactly when it holds more files than the limit. */
  method CheckFileCount(root: Entry, limit: nat) returns (tooMany: bool)
    requires root.Dir?
    ensures tooMany <==> Files(root) > limit
  {
    var count := 0;
    var stack := [root];
    while stack != []
      invariant forall d :: d in stack ==> d.Dir?
      invariant count <= limit
      invariant count + FilesIn(stack) == Files(root)
      decreases SizeIn(stack)
    {
      SplitLast(stack);
      var dir := stack[|stack| - 1];
      stack := stack[..|stack| - 1];
      if !dir.readable {
        continue;
      }
      ghost var before := SizeIn(stack);
      var es := dir.entries;
      while es != []
        invariant forall d :: d in stack ==> d.Dir?
        invariant count <= limit
        invariant count + FilesIn(es) + FilesIn(stack) == Files(root)
        invariant SizeIn(stack) + SizeIn(es) == before + SizeIn(dir.entries)
        decreases |es|
      {
        if es[0].Dir? {
          stack := stack + [es[0]];
          SplitLast(stack);
        } else if es[0].File? {
          count := count + 1;
          if count > limit {
            return true;
          }
        }
        es := es[1..];
      }
    }
    tooMany := false;
  }
}
