/**
 The reverse-dependency table both managers keep: for each tag, the tags of the
 registered objects that depend on it.
 */
module Dependents {

  type Table = map<string, seq<string>>

  function DependentsOf(m: Table, d: string): seq<string>
  {
    if d in m then m[d] else []
  }

  function Without(s: seq<string>, tag: string): (r: seq<string>)
    ensures tag !in r
    ensures forall x :: x in r <==> x in s && x != tag
    ensures tag !in s ==> r == s
  {
    if s == [] then []
    else if s[0] == tag then Without(s[1..], tag)
    else [s[0]] + Without(s[1..], tag)
  }

  /** Adds `tag` under each dependency, in order. */
  function Register(m: Table, dependencies: seq<string>, tag: string): Table
    decreases |dependencies|
  {
    if dependencies == [] then m
    else Register(m[dependencies[0] := DependentsOf(m, dependencies[0]) + [tag]], dependencies[1..], tag)
  }

  function UnregisterOne(m: Table, d: string, tag: string): Table
  {
    if |DependentsOf(m, d)| == 1 then m - {d} else m[d := Without(DependentsOf(m, d), tag)]
  }

  /** Takes `tag` out under each dependency: a list of length one is dropped whole, whoever is in it. */
  function Unregister(m: Table, dependencies: seq<string>, tag: string): Table
    decreases |dependencies|
  {
    if dependencies == [] then m
    else Unregister(UnregisterOne(m, dependencies[0], tag), dependencies[1..], tag)
  }

  /** Registering only adds: everyone stays listed, and `tag` is listed under exactly its dependencies besides. */
  lemma {:induction false} RegisterLists(m: Table, dependencies: seq<string>, tag: string)
    ensures forall d, t :: t in DependentsOf(Register(m, dependencies, tag), d) <==>
              t in DependentsOf(m, d) || (t == tag && d in dependencies)
    decreases |dependencies|
  {
    if dependencies != [] {
      var first := dependencies[0];
      var m1 := m[first := DependentsOf(m, first) + [tag]];
      RegisterLists(m1, dependencies[1..], tag);
      assert dependencies == [first] + dependencies[1..];
      forall d, t ensures t in DependentsOf(m1, d) <==> t in DependentsOf(m, d) || (t == tag && d == first) {
        if d == first {
          assert DependentsOf(m1, d) == DependentsOf(m, d) + [tag];
        }
      }
    }
  }

  function Occurrences(s: seq<string>, d: string): nat
  {
    if s == [] then 0 else (if s[0] == d then 1 else 0) + Occurrences(s[1..], d)
  }

  lemma {:induction false} OccurrencesOfMember(s: seq<string>, d: string)
    ensures d in s <==> Occurrences(s, d) > 0
  {
    if s != [] {
      OccurrencesOfMember(s[1..], d);
      assert s == [s[0]] + s[1..];
    }
  }

  /** Nothing of `d` changes when it is not among the dependencies. */
  lemma {:induction false} UnregisterElsewhere(m: Table, dependencies: seq<string>, tag: string, d: string)
    requires d !in dependencies
    ensures DependentsOf(Unregister(m, dependencies, tag), d) == DependentsOf(m, d)
    decreases |dependencies|
  {
    if dependencies != [] {
      assert dependencies[0] != d;
      UnregisterElsewhere(UnregisterOne(m, dependencies[0], tag), dependencies[1..], tag, d);
    }
  }

  /** A list that no longer has `tag` is left alone, unless it has one entry and `d` comes up again. */
  lemma {:induction false} UnregisterAgain(m: Table, dependencies: seq<string>, tag: string, d: string)
    requires tag !in DependentsOf(m, d)
    ensures DependentsOf(Unregister(m, dependencies, tag), d) ==
            if |DependentsOf(m, d)| == 1 && d in dependencies then [] else DependentsOf(m, d)
    decreases |dependencies|
  {
    if dependencies != [] {
      var m1 := UnregisterOne(m, dependencies[0], tag);
      assert dependencies == [dependencies[0]] + dependencies[1..];
      UnregisterAgain(m1, dependencies[1..], tag, d);
    }
  }

  /**
   Exactly what unregistering leaves of a list that had `tag`: everyone else, except when the
   dependency is repeated and a single other dependent is left, who is then lost.
   */
  lemma {:induction false} UnregisterExact(m: Table, dependencies: seq<string>, tag: string, d: string)
    requires d in dependencies && tag in DependentsOf(m, d)
    ensures var others := Without(DependentsOf(m, d), tag);
            DependentsOf(Unregister(m, dependencies, tag), d) ==
            if |others| == 1 && Occurrences(dependencies, d) >= 2 then [] else others
    decreases |dependencies|
  {
    var first := dependencies[0];
    var rest := dependencies[1..];
    var m1 := UnregisterOne(m, first, tag);
    assert dependencies == [first] + rest;
    if first == d {
      OccurrencesOfMember(rest, d);
      if |DependentsOf(m, d)| == 1 {
        assert DependentsOf(m, d)[0] == tag;
        assert Without(DependentsOf(m, d), tag) == [];
      } else {
        assert DependentsOf(m1, d) == Without(DependentsOf(m, d), tag);
      }
      UnregisterAgain(m1, rest, tag, d);
    } else {
      UnregisterExact(m1, rest, tag, d);
    }
  }

  lemma {:induction false} OccurrencesAreCounted(s: seq<string>, d: string)
    requires forall i, j :: 0 <= i < j < |s| ==> s[i] != s[j]
    ensures Occurrences(s, d) <= 1
  {
    if s != [] {
      OccurrencesAreCounted(s[1..], d);
      OccurrencesOfMember(s[1..], d);
    }
  }

  /** With duplicate-free dependencies unregistering takes out `tag` and nobody else. */
  lemma UnregisterKeepsOthers(m: Table, dependencies: seq<string>, tag: string)
    requires forall i, j :: 0 <= i < j < |dependencies| ==> dependencies[i] != dependencies[j]
    requires forall d :: d in dependencies ==> tag in DependentsOf(m, d)
    ensures forall d, t :: t in DependentsOf(m, d) && t != tag ==>
              t in DependentsOf(Unregister(m, dependencies, tag), d)
    ensures forall d, t :: t in DependentsOf(Unregister(m, dependencies, tag), d) ==> t in DependentsOf(m, d)
  {
    forall d
      ensures forall t :: t in DependentsOf(m, d) && t != tag ==> t in DependentsOf(Unregister(m, dependencies, tag), d)
      ensures forall t :: t in DependentsOf(Unregister(m, dependencies, tag), d) ==> t in DependentsOf(m, d)
    {
      if d in dependencies {
        OccurrencesAreCounted(dependencies, d);
        UnregisterExact(m, dependencies, tag, d);
      } else {
        UnregisterElsewhere(m, dependencies, tag, d);
      }
    }
  }

  lemma RegisterStep(m: Table, d: string, rest: seq<string>, tag: string)
    ensures Register(m, [d] + rest, tag) == Register(m[d := DependentsOf(m, d) + [tag]], rest, tag)
  {
    assert ([d] + rest)[1..] == rest;
  }

  /** The loss is real: of two dependents of one tag, the one that mentions it twice takes the other with it. */
  lemma RepeatedDependencyLosesAnother()
    ensures var table := Register(Register(map[], ["a", "a"], "x"), ["a"], "y");
            table == map["a" := ["x", "x", "y"]] && DependentsOf(Unregister(table, ["a", "a"], "x"), "a") == []
  {
    var twice, once := ["a", "a"], ["a"];
    assert twice == ["a"] + once && once == ["a"] + [];
    var m0: Table, m1: Table, m2: Table, m3: Table := map[], map["a" := ["x"]], map["a" := ["x", "x"]],
        map["a" := ["x", "x", "y"]];
    RegisterStep(m0, "a", once, "x");
    assert DependentsOf(m0, "a") + ["x"] == ["x"];
    RegisterStep(m1, "a", [], "x");
    assert DependentsOf(m1, "a") + ["x"] == ["x", "x"];
    assert m1["a" := ["x", "x"]] == m2;
    RegisterStep(m2, "a", [], "y");
    assert DependentsOf(m2, "a") + ["y"] == ["x", "x", "y"];
    assert m2["a" := ["x", "x", "y"]] == m3;
    assert Register(Register(m0, twice, "x"), once, "y") == m3;
    assert twice[1..] == once && once[1..] == [] && Occurrences(twice, "a") == 2;
    assert Without(["x", "x", "y"], "x") == ["y"] by {
      assert ["x", "x", "y"][1..] == ["x", "y"] && ["x", "y"][1..] == ["y"] && ["y"][1..] == [];
      assert Without(["x", "y"], "x") == Without(["y"], "x") == ["y"] + Without([], "x");
    }
    UnregisterExact(m3, twice, "x", "a");
  }

  // ----- in place -----

  method RegisterAll(table: Table, dependencies: seq<string>, tag: string) returns (r: Table)
    ensures r == Register(table, dependencies, tag)
  {
    r := table;
    for i := 0 to |dependencies|
      invariant Register(table, dependencies, tag) == Register(r, dependencies[i..], tag)
    {
      r := r[dependencies[i] := DependentsOf(r, dependencies[i]) + [tag]];
      assert dependencies[i..][1..] == dependencies[i + 1..];
    }
  }

  method UnregisterAll(table: Table, dependencies: seq<string>, tag: string) returns (r: Table)
    ensures r == Unregister(table, dependencies, tag)
  {
    r := table;
    for i := 0 to |dependencies|
      invariant Unregister(table, dependencies, tag) == Unregister(r, dependencies[i..], tag)
    {
      if |DependentsOf(r, dependencies[i])| == 1 {
        r := r - {dependencies[i]};
      } else {
        r := r[dependencies[i] := Without(DependentsOf(r, dependencies[i]), tag)];
      }
      assert dependencies[i..][1..] == dependencies[i + 1..];
    }
  }
}
