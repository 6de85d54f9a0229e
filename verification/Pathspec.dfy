/** Restore targets: the paths a caller may name and the tree paths they select. */
module Pathspec {
  import opened Wrappers

  type Path = string

  /** The components of a path, separated by slashes. */
  function Components(t: Path): (cs: seq<string>)
    ensures |cs| >= 1
  {
    if t == "" then [""] else Prepend(t[0], Components(t[1..]))
  }

  function Join(cs: seq<string>): Path
    requires cs != []
  {
    if |cs| == 1 then cs[0] else cs[0] + "/" + Join(cs[1..])
  }

  /** Empty and `.` components name nothing. */
  function Named(cs: seq<string>): seq<string> {
    if cs == [] then []
    else (if cs[0] == "" || cs[0] == "." then [] else [cs[0]]) + Named(cs[1..])
  }

  /** A target that ends in a slash, or in `.`, names a directory and not a file. */
  predicate OnlyDirectory(t: Path) {
    var cs := Components(t);
    cs[|cs| - 1] == "" || cs[|cs| - 1] == "."
  }

  /** `git checkout <commit> -- <target>`: which tree paths the target selects. */
  predicate Selects(target: Option<Path>, q: Path) {
    match target
    case None => true
    case Some(t) =>
      var names := Named(Components(t));
      names <= Components(q) && (OnlyDirectory(t) ==> |names| < |Components(q)|)
  }

  lemma {:induction false} JoinComponents(q: Path)
    ensures Join(Components(q)) == q
  {
    if q != "" {
      JoinComponents(q[1..]);
      var rest := Components(q[1..]);
      assert Prepend(q[0], rest)[1..] == if q[0] == '/' then rest else rest[1..];
    }
  }

  lemma {:induction false} ComponentsConcat(a: Path, r: Path)
    ensures Components(a + "/" + r) == Components(a) + Components(r)
  {
    var s := a + "/" + r;
    if a == "" {
      assert s[1..] == r;
    } else {
      assert s[1..] == a[1..] + "/" + r;
      ComponentsConcat(a[1..], r);
      PrependConcat(a[0], Components(a[1..]), Components(r));
    }
  }

  function Prepend(c: char, rest: seq<string>): seq<string>
    requires rest != []
  {
    if c == '/' then [""] + rest else [[c] + rest[0]] + rest[1..]
  }

  lemma PrependConcat(c: char, a: seq<string>, b: seq<string>)
    requires a != []
    ensures Prepend(c, a + b) == Prepend(c, a) + b
  {
    assert (a + b)[1..] == a[1..] + b;
  }

  lemma {:induction false} JoinConcat(a: seq<string>, b: seq<string>)
    requires a != [] && b != []
    ensures Join(a + b) == Join(a) + "/" + Join(b)
  {
    if |a| == 1 {
      assert (a + b)[1..] == b;
    } else {
      assert (a + b)[1..] == a[1..] + b;
      JoinConcat(a[1..], b);
      assert a[0] + "/" + (Join(a[1..]) + "/" + Join(b)) == a[0] + "/" + Join(a[1..]) + "/" + Join(b);
    }
  }

  /** A string without a slash is its own only component. */
  lemma {:induction false} OneComponent(name: string)
    requires '/' !in name
    ensures Components(name) == [name]
  {
    if name != "" {
      OneComponent(name[1..]);
      assert [name[0]] + name[1..] == name;
    }
  }

  lemma {:induction false} ComponentsJoin(cs: seq<string>)
    requires cs != [] && forall i :: 0 <= i < |cs| ==> '/' !in cs[i]
    ensures Components(Join(cs)) == cs
  {
    OneComponent(cs[0]);
    if |cs| > 1 {
      ComponentsConcat(cs[0], Join(cs[1..]));
      ComponentsJoin(cs[1..]);
      assert [cs[0]] + cs[1..] == cs;
    }
  }

  lemma {:induction false} NoSlashes(t: Path)
    ensures forall i :: 0 <= i < |Components(t)| ==> '/' !in Components(t)[i]
  {
    if t != "" {
      NoSlashes(t[1..]);
    }
  }

  lemma {:induction false} NamedFrom(cs: seq<string>)
    ensures forall i :: 0 <= i < |Named(cs)| ==> Named(cs)[i] in cs
  {
    if cs != [] {
      NamedFrom(cs[1..]);
    }
  }

  /** Extending the components of a path is lying below it. */
  lemma {:induction false} PrefixIsBelow(names: seq<string>, q: Path)
    requires names != [] && forall i :: 0 <= i < |names| ==> '/' !in names[i]
    ensures names == Components(q) <==> q == Join(names)
    ensures names < Components(q) <==> exists r :: q == Join(names) + "/" + r
  {
    ComponentsJoin(names);
    JoinComponents(q);
    if names < Components(q) {
      var rest := Components(q)[|names|..];
      assert Components(q) == names + rest;
      JoinConcat(names, rest);
    }
    if r :| q == Join(names) + "/" + r {
      ComponentsConcat(Join(names), r);
    }
  }

  /**
    A target selects exactly what lies below the path it names, and that path itself
    unless the target can only be a directory. One that names nothing, like `.`,
    selects everything.
   */
  lemma {:induction false} SelectsSubtree(t: Path, q: Path)
    ensures var names := Named(Components(t));
            if names == [] then Selects(Some(t), q)
            else Selects(Some(t), q) <==>
                 (q == Join(names) && !OnlyDirectory(t)) || exists r :: q == Join(names) + "/" + r
  {
    var names := Named(Components(t));
    if names != [] {
      NoSlashes(t);
      NamedFrom(Components(t));
      PrefixIsBelow(names, q);
    }
  }

  /** A restore path must be relative and must not contain a `..` component. */
  predicate ValidTarget(target: Option<Path>) {
    target.Some? ==> target.value != "" && target.value[0] != '/' && ".." !in Components(target.value)
  }

  // ---------------------------------------------------------------------
  // Targets as callers write them
  // ---------------------------------------------------------------------

  lemma {:induction false} NamedConcat(a: seq<string>, b: seq<string>)
    ensures Named(a + b) == Named(a) + Named(b)
  {
    if a == [] {
      assert a + b == b;
    } else {
      assert (a + b)[1..] == a[1..] + b;
      NamedConcat(a[1..], b);
    }
  }

  predicate IsPlain(name: string) {
    name != "" && name != "."
  }

  lemma {:induction false} NamedPlain(cs: seq<string>)
    requires forall i :: 0 <= i < |cs| ==> IsPlain(cs[i])
    ensures Named(cs) == cs
  {
    if cs != [] {
      NamedPlain(cs[1..]);
    }
  }

  /** A target without empty or `.` components selects the file of that name, or what lies below it. */
  lemma {:induction false} PlainTarget(t: Path, q: Path)
    requires forall i :: 0 <= i < |Components(t)| ==> Components(t)[i] != "" && Components(t)[i] != "."
    ensures Selects(Some(t), q) <==> q == t || exists r :: q == t + "/" + r
  {
    NamedPlain(Components(t));
    JoinComponents(t);
    hide Selects;
    hide Named;
    hide Join;
    SelectsSubtree(t, q);
  }

  /** With a slash at its end, only what lies below it. */
  lemma {:induction false} PlainDirectory(t: Path, q: Path)
    requires forall i :: 0 <= i < |Components(t)| ==> Components(t)[i] != "" && Components(t)[i] != "."
    ensures Selects(Some(t + "/"), q) <==> exists r :: q == t + "/" + r
  {
    NamedPlain(Components(t));
    JoinComponents(t);
    SlashEnds(t);
    hide Selects;
    hide Join;
    hide Components;
    hide OnlyDirectory;
    SelectsSubtree(t + "/", q);
  }

  lemma {:induction false} SlashEnds(t: Path)
    ensures OnlyDirectory(t + "/") && Named(Components(t + "/")) == Named(Components(t))
  {
    assert t + "/" == t + "/" + "";
    ComponentsConcat(t, "");
    NamedConcat(Components(t), [""]);
    assert Named(Components(t)) + [] == Named(Components(t));
  }

  /** `./` in front, and `/./` or `//` for a slash, change nothing; nor does a `.` after a trailing slash. */
  lemma {:induction false} DotsChangeNothing(a: Path, b: Path, q: Path)
    ensures Selects(Some("./" + b), q) <==> Selects(Some(b), q)
    ensures Selects(Some(a + "/./" + b), q) <==> Selects(Some(a + "/" + b), q)
    ensures Selects(Some(a + "//" + b), q) <==> Selects(Some(a + "/" + b), q)
    ensures Selects(Some(a + "/."), q) <==> Selects(Some(a + "/"), q)
  {
    hide Selects;
    hide Components;
    assert "./" + b == "." + "/" + b;
    assert [] + Components(b) == Components(b) && [] + Components("." + "/" + b) == Components("." + "/" + b);
    SkipsNothing([], ".", b, q, b, "./" + b);
    InnerSkip(a, ".", b, q);
    assert a + "/" + ("." + "/" + b) == a + "/./" + b;
    InnerSkip(a, "", b, q);
    assert a + "/" + ("" + "/" + b) == a + "//" + b;
    DotEnds(a, q);
  }

  lemma {:induction false} InnerSkip(a: Path, skipped: string, b: Path, q: Path)
    requires skipped == "" || skipped == "."
    ensures Selects(Some(a + "/" + (skipped + "/" + b)), q) <==> Selects(Some(a + "/" + b), q)
  {
    hide Selects;
    hide Components;
    ComponentsConcat(a, skipped + "/" + b);
    ComponentsConcat(a, b);
    SkipsNothing(Components(a), skipped, b, q, a + "/" + b, a + "/" + (skipped + "/" + b));
  }

  lemma {:induction false} DotEnds(a: Path, q: Path)
    ensures Selects(Some(a + "/."), q) <==> Selects(Some(a + "/"), q)
  {
    hide Selects;
    hide Components;
    hide Named;
    SlashEnds(a);
    DotSlashEnds(a);
    SelectsByNames(a + "/.", a + "/", q);
  }

  lemma {:induction false} DotSlashEnds(t: Path)
    ensures OnlyDirectory(t + "/.") && Named(Components(t + "/.")) == Named(Components(t))
  {
    assert t + "/." == t + "/" + ".";
    ComponentsConcat(t, ".");
    OneComponent(".");
    NamedConcat(Components(t), ["."]);
    assert Named(Components(t)) + [] == Named(Components(t));
  }

  /** What a target selects depends on the components it names and on how it ends. */
  lemma {:induction false} SelectsByNames(t: Path, t': Path, q: Path)
    requires Named(Components(t)) == Named(Components(t')) && OnlyDirectory(t) == OnlyDirectory(t')
    ensures Selects(Some(t), q) <==> Selects(Some(t'), q)
  {
    hide Components;
    hide Named;
    hide OnlyDirectory;
  }

  lemma {:induction false} NamedSkip(head: seq<string>, skipped: string, rest: seq<string>)
    requires skipped == "" || skipped == "."
    ensures Named(head + ([skipped] + rest)) == Named(head + rest)
  {
    NamedConcat(head, rest);
    NamedConcat(head, [skipped] + rest);
    assert ([skipped] + rest)[1..] == rest;
    assert [] + Named(rest) == Named(rest);
  }

  /** Two targets that differ by a component that names nothing select alike. */
  lemma {:induction false} SkipsNothing(head: seq<string>, skipped: string, b: Path, q: Path, t: Path, t': Path)
    requires skipped == "" || skipped == "."
    requires Components(t) == head + Components(b) && Components(t') == head + Components(skipped + "/" + b)
    ensures Selects(Some(t'), q) <==> Selects(Some(t), q)
  {
    OneComponent(skipped);
    hide Selects;
    hide Components;
    hide Named;
    hide OnlyDirectory;
    ComponentsConcat(skipped, b);
    NamedSkip(head, skipped, Components(b));
    EndsAlike(head, b, t);
    assert head + ([skipped] + Components(b)) == (head + [skipped]) + Components(b);
    EndsAlike(head + [skipped], b, t');
    SelectsByNames(t', t, q);
  }

  lemma {:induction false} EndsAlike(head: seq<string>, b: Path, t: Path)
    requires Components(t) == head + Components(b)
    ensures OnlyDirectory(t) == OnlyDirectory(b)
  {
    hide Components;
  }

  /** A target of nothing but dots and slashes selects everything. */
  lemma {:induction false} DotSelectsAll(t: Path, q: Path)
    requires forall i :: 0 <= i < |Components(t)| ==> Components(t)[i] == "" || Components(t)[i] == "."
    ensures Selects(Some(t), q)
  {
    NothingNamed(Components(t));
  }

  lemma {:induction false} NothingNamed(cs: seq<string>)
    requires forall i :: 0 <= i < |cs| ==> cs[i] == "" || cs[i] == "."
    ensures Named(cs) == []
  {
    if cs != [] {
      NothingNamed(cs[1..]);
    }
  }

  /** `name` stands in `t` between slashes or the ends. */
  ghost predicate Between(t: Path, a: Path, name: string, b: Path) {
    t == a + name + b && (a == "" || a[|a| - 1] == '/') && (b == "" || b[0] == '/')
  }

  lemma {:induction false} ComponentIn(t: Path, name: string)
    requires '/' !in name
    ensures name in Components(t) <==> exists a, b :: Between(t, a, name, b)
  {
    if name in Components(t) {
      var a, b := AroundComponent(t, name);
    }
    if a, b :| Between(t, a, name, b) {
      ComponentAt(name, b);
      if a != "" {
        var a' := a[..|a| - 1];
        assert t == a' + "/" + (name + b);
        ComponentsConcat(a', name + b);
      } else {
        assert t == name + b;
      }
    }
  }

  lemma {:induction false} ComponentAt(name: string, b: Path)
    requires '/' !in name && (b == "" || b[0] == '/')
    ensures name in Components(name + b)
  {
    OneComponent(name);
    if b == "" {
      assert name + b == name;
    } else {
      assert name + b == name + "/" + b[1..];
      ComponentsConcat(name, b[1..]);
    }
  }

  lemma {:induction false} AroundComponent(t: Path, name: string) returns (a: Path, b: Path)
    requires name in Components(t)
    ensures Between(t, a, name, b)
  {
    var cs := Components(t);
    JoinComponents(t);
    var i :| 0 <= i < |cs| && cs[i] == name;
    hide Components;
    hide Join;
    b := AfterName(cs, i);
    assert cs == cs[..i] + cs[i..];
    if i == 0 {
      a := "";
      assert cs[i..] == cs;
      assert t == "" + name + b;
    } else {
      a := Join(cs[..i]) + "/";
      JoinConcat(cs[..i], cs[i..]);
      assert t == a + name + b;
    }
  }

  lemma {:induction false} AfterName(cs: seq<string>, i: nat) returns (b: Path)
    requires i < |cs|
    ensures Join(cs[i..]) == cs[i] + b && (b == "" || b[0] == '/')
  {
    if i == |cs| - 1 {
      b := "";
      assert cs[i..] == [cs[i]] && cs[i] + "" == cs[i];
    } else {
      assert cs[i..][1..] == cs[i + 1..];
      b := "/" + Join(cs[i + 1..]);
      assert cs[i] + "/" + Join(cs[i + 1..]) == cs[i] + b;
    }
  }

  /** A restore path is refused if it is empty, absolute, or has a `..` between slashes or ends. */
  lemma RefusedTargets(t: Path)
    ensures ValidTarget(Some(t)) <==> t != "" && t[0] != '/' && !exists a, b :: Between(t, a, "..", b)
  {
    ComponentIn(t, "..");
  }
}
