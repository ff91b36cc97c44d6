/**
 Dependency-ordered start: passes over the items until everything is started, and a
 diagnosis walk along unstarted dependencies when a pass makes no progress.
 */
module StartOrder {
  import opened Basics

  datatype Item = Item(tag: string, dependencies: seq<string>)

  datatype StartResult =
    | Started
    | StartFailed(tag: string)
    | Circular(path: seq<string>, closing: string)
    | NotFound(dependency: string, dependent: string)
    | Crashed

  ghost predicate DistinctTags(items: seq<Item>)
  {
    forall i, j :: 0 <= i < j < |items| ==> items[i].tag != items[j].tag
  }

  ghost predicate IsTag(items: seq<Item>, t: string)
  {
    exists i :: 0 <= i < |items| && items[i].tag == t
  }

  // ----- the dependency graph -----

  ghost predicate Edge(items: seq<Item>, a: string, b: string)
  {
    exists i :: 0 <= i < |items| && items[i].tag == a && b in items[i].dependencies
  }

  ghost predicate IsWalk(items: seq<Item>, p: seq<string>)
  {
    forall k :: 0 <= k < |p| - 1 ==> Edge(items, p[k], p[k + 1])
  }

  ghost predicate IsCycle(items: seq<Item>, p: seq<string>)
  {
    |p| >= 2 && p[0] == p[|p| - 1] && IsWalk(items, p)
  }

  ghost predicate Acyclic(items: seq<Item>)
  {
    forall p :: !IsCycle(items, p)
  }

  /** Every dependency is the tag of some item. */
  ghost predicate Closed(items: seq<Item>)
  {
    forall i, d :: 0 <= i < |items| && d in items[i].dependencies ==> IsTag(items, d)
  }

  // ----- what an order of starting keeps -----

  ghost predicate ReadyAt(items: seq<Item>, order: seq<string>, k: nat)
    requires k < |order|
  {
    exists i :: 0 <= i < |items| && items[i].tag == order[k] && forall d :: d in items[i].dependencies ==>
        d in order[..k]
  }

  /** Each item is started at most once, after everything it depends on. */
  ghost predicate GoodOrder(items: seq<Item>, order: seq<string>)
  {
    NoDuplicates(order) && forall k :: 0 <= k < |order| ==> ReadyAt(items, order, k)
  }

  lemma GoodOrderGrows(items: seq<Item>, order: seq<string>, i: nat)
    requires GoodOrder(items, order) && i < |items|
    requires items[i].tag !in order && forall d :: d in items[i].dependencies ==> d in order
    ensures GoodOrder(items, order + [items[i].tag])
  {
    var grown := order + [items[i].tag];
    forall k | 0 <= k < |grown| ensures ReadyAt(items, grown, k) {
      if k < |order| {
        assert ReadyAt(items, order, k);
        assert grown[..k] == order[..k];
      } else {
        assert grown[..k] == order;
      }
    }
  }

  lemma TagsAreItems(items: seq<Item>, order: seq<string>)
    requires GoodOrder(items, order)
    ensures forall t :: t in order ==> IsTag(items, t)
  {
    forall k | 0 <= k < |order| ensures IsTag(items, order[k]) {
      assert ReadyAt(items, order, k);
    }
  }

  ghost function ToSet<T>(s: seq<T>): set<T>
  {
    set x | x in s
  }

  lemma {:induction false} DistinctCount<T>(s: seq<T>)
    requires NoDuplicates(s)
    ensures |ToSet(s)| == |s|
  {
    if s != [] {
      var front := s[..|s| - 1];
      DistinctCount(front);
      assert s == front + [s[|s| - 1]];
      assert ToSet(s) == ToSet(front) + {s[|s| - 1]};
    }
  }

  ghost function TagsOf(items: seq<Item>): seq<string>
  {
    seq(|items|, i requires 0 <= i < |items| => items[i].tag)
  }

  lemma SubsetCount<T>(a: set<T>, b: set<T>)
    requires a <= b
    ensures |a| <= |b| && (|a| == |b| ==> a == b)
  {
    assert b == a + (b - a);
  }

  lemma {:induction false} SeqCount<T>(s: seq<T>)
    ensures |ToSet(s)| <= |s|
    ensures |ToSet(s)| == |s| ==> NoDuplicates(s)
  {
    if s != [] {
      var front := s[..|s| - 1];
      SeqCount(front);
      assert s == front + [s[|s| - 1]];
      assert ToSet(s) == ToSet(front) + {s[|s| - 1]};
    }
  }

  /**
   A duplicate-free list of tags is no longer than the item list, and as long only when it has every tag and no tag
   comes twice.
   */
  lemma TagCount(items: seq<Item>, tags: seq<string>)
    requires NoDuplicates(tags) && forall t :: t in tags ==> IsTag(items, t)
    ensures |tags| <= |items|
    ensures |tags| == |items| <==> DistinctTags(items) && forall i :: 0 <= i < |items| ==> items[i].tag in tags
  {
    var all := TagsOf(items);
    SeqCount(all);
    DistinctCount(tags);
    forall t | t in tags ensures t in all {
      var i :| 0 <= i < |items| && items[i].tag == t;
      assert all[i] == t;
    }
    SubsetCount(ToSet(tags), ToSet(all));
    if |tags| == |items| {
      assert NoDuplicates(all);
      forall i, j | 0 <= i < j < |items| ensures items[i].tag != items[j].tag {
        assert all[i] != all[j];
      }
      forall i | 0 <= i < |items| ensures items[i].tag in tags {
        assert all[i] in ToSet(all);
      }
    } else if DistinctTags(items) && forall i :: 0 <= i < |items| ==> items[i].tag in tags {
      DistinctCount(all);
      SubsetCount(ToSet(all), ToSet(tags));
    }
  }

  // ----- the diagnosis walk -----

  /** A dependency that is not started, the first one in the list. */
  function FirstUnstarted(dependencies: seq<string>, started: set<string>): (d: string)
    requires exists d :: d in dependencies && d !in started
    ensures d in dependencies && d !in started
  {
    if dependencies[0] !in started then dependencies[0]
    else
      assert forall d :: d in dependencies && d !in started ==> d in dependencies[1..];
      FirstUnstarted(dependencies[1..], started)
  }

  ghost predicate Blocked(item: Item, started: set<string>)
  {
    exists d :: d in item.dependencies && d !in started
  }

  /** No unstarted item can be started. */
  ghost predicate IsStuck(items: seq<Item>, started: set<string>)
  {
    forall i :: 0 <= i < |items| && items[i].tag !in started ==> Blocked(items[i], started)
  }

  /** The lookup table holds items of the list under their own tags. */
  ghost predicate LookupFits(items: seq<Item>, lookup: map<string, Item>)
  {
    forall t :: t in lookup ==> lookup[t].tag == t && lookup[t] in items
  }

  ghost predicate TreeFits(items: seq<Item>, started: set<string>, tree: seq<string>, current: Item)
  {
    && current in items && current.tag !in started
    && tree != [] && tree[|tree| - 1] == current.tag
    && NoDuplicates(tree)
    && (forall t :: t in tree ==> IsTag(items, t))
    && IsWalk(items, tree)
  }

  lemma TreeGrows(items: seq<Item>, started: set<string>, tree: seq<string>, current: Item, next: Item)
    requires TreeFits(items, started, tree, current)
    requires next in items && next.tag !in started && next.tag in current.dependencies && next.tag !in tree
    ensures TreeFits(items, started, tree + [next.tag], next)
  {
    var grown := tree + [next.tag];
    var n :| 0 <= n < |items| && items[n] == next;
    var c :| 0 <= c < |items| && items[c] == current;
    assert Edge(items, current.tag, next.tag);
    forall k | 0 <= k < |grown| - 1 ensures Edge(items, grown[k], grown[k + 1]) {
      if k < |tree| - 1 {
        assert Edge(items, tree[k], tree[k + 1]);
      }
    }
    forall t | t in grown ensures IsTag(items, t) {
      assert t in tree || t == items[n].tag;
    }
  }

  /** Follows unstarted dependencies until one repeats or cannot be found. */
  function Lint(items: seq<Item>, lookup: map<string, Item>, started: set<string>, tree: seq<string>,
      current: Item): (r: StartResult)
    requires LookupFits(items, lookup) && IsStuck(items, started)
    requires TreeFits(items, started, tree, current)
    ensures r.Circular? || r.NotFound?
    ensures r.Circular? ==> r.closing in r.path && IsWalk(items, r.path + [r.closing]) && tree <= r.path
    ensures r.NotFound? ==>
              Edge(items, r.dependent, r.dependency) && r.dependency !in started && r.dependency !in lookup
    decreases |items| - |tree|
  {
    assert Blocked(current, started) by {
      var c :| 0 <= c < |items| && items[c] == current;
    }
    var problem := FirstUnstarted(current.dependencies, started);
    if problem in tree then
      LintClosesCycle(items, started, tree, current, problem);
      Circular(tree, problem)
    else if problem !in lookup then
      assert Edge(items, current.tag, problem) by {
        var c :| 0 <= c < |items| && items[c] == current;
      }
      NotFound(problem, current.tag)
    else
      TreeGrows(items, started, tree, current, lookup[problem]);
      TagCount(items, tree + [problem]);
      Lint(items, lookup, started, tree + [problem], lookup[problem])
  }

  lemma LintClosesCycle(items: seq<Item>, started: set<string>, tree: seq<string>, current: Item, problem: string)
    requires TreeFits(items, started, tree, current) && problem in current.dependencies
    ensures IsWalk(items, tree + [problem])
  {
    var c :| 0 <= c < |items| && items[c] == current;
    var p := tree + [problem];
    forall k | 0 <= k < |p| - 1 ensures Edge(items, p[k], p[k + 1]) {
      if k < |tree| - 1 {
        assert Edge(items, tree[k], tree[k + 1]);
      }
    }
  }

  /** A circular diagnosis names a real cycle: the part of the path from the repeated tag on. */
  lemma CircularNamesACycle(items: seq<Item>, path: seq<string>, closing: string)
    requires closing in path && IsWalk(items, path + [closing])
    ensures exists m :: 0 <= m < |path| && IsCycle(items, path[m..] + [closing])
    ensures !Acyclic(items)
  {
    var m :| 0 <= m < |path| && path[m] == closing;
    var c := path[m..] + [closing];
    var p := path + [closing];
    forall k | 0 <= k < |c| - 1 ensures Edge(items, c[k], c[k + 1]) {
      assert Edge(items, p[m + k], p[m + k + 1]);
    }
    assert IsCycle(items, c);
  }

  // ----- when a start succeeds -----

  ghost function PositionOf(order: seq<string>, t: string): nat
    requires t in order
    ensures PositionOf(order, t) < |order| && order[PositionOf(order, t)] == t
  {
    var k: nat :| k < |order| && order[k] == t;
    k
  }

  lemma EdgesGoBack(items: seq<Item>, order: seq<string>, a: string, b: string)
    requires DistinctTags(items) && GoodOrder(items, order) && a in order && Edge(items, a, b)
    ensures b in order && PositionOf(order, b) < PositionOf(order, a)
  {
    var k := PositionOf(order, a);
    assert ReadyAt(items, order, k);
    assert b in order[..k];
  }

  lemma {:induction false} WalksGoBack(items: seq<Item>, order: seq<string>, p: seq<string>)
    requires DistinctTags(items) && GoodOrder(items, order) && |p| >= 2 && p[0] in order && IsWalk(items, p)
    ensures p[|p| - 1] in order && PositionOf(order, p[|p| - 1]) < PositionOf(order, p[0])
  {
    assert Edge(items, p[0], p[1]);
    EdgesGoBack(items, order, p[0], p[1]);
    if |p| > 2 {
      var rest := p[1..];
      forall k | 0 <= k < |rest| - 1 ensures Edge(items, rest[k], rest[k + 1]) {
        assert Edge(items, p[k + 1], p[k + 2]);
      }
      WalksGoBack(items, order, rest);
    }
  }

  /** An order that starts everything proves the graph closed and acyclic. */
  lemma FullOrderMeansSound(items: seq<Item>, order: seq<string>)
    requires DistinctTags(items) && GoodOrder(items, order)
    requires forall i :: 0 <= i < |items| ==> items[i].tag in order
    ensures Closed(items) && Acyclic(items)
  {
    TagsAreItems(items, order);
    forall i, d | 0 <= i < |items| && d in items[i].dependencies ensures IsTag(items, d) {
      assert Edge(items, items[i].tag, d);
      EdgesGoBack(items, order, items[i].tag, d);
    }
    forall p ensures !IsCycle(items, p) {
      if IsCycle(items, p) {
        assert Edge(items, p[0], p[1]);
        WalksGoBack(items, order, p);
      }
    }
  }

  /** A lookup table that knows every tag; of several items with one tag it knows one. */
  ghost function FullLookup(items: seq<Item>): (lookup: map<string, Item>)
    ensures LookupFits(items, lookup)
    ensures forall t :: IsTag(items, t) ==> t in lookup
  {
    if items == [] then map[]
    else
      var last := items[|items| - 1];
      var front := FullLookup(items[..|items| - 1]);
      assert forall t :: IsTag(items, t) ==> IsTag(items[..|items| - 1], t) || t == last.tag by {
        forall t | IsTag(items, t) ensures IsTag(items[..|items| - 1], t) || t == last.tag {
          var i :| 0 <= i < |items| && items[i].tag == t;
          assert i < |items| - 1 ==> items[..|items| - 1][i].tag == t;
        }
      }
      front[last.tag := last]
  }

  /** A stuck state with something left means a missing dependency or a cycle. */
  lemma StuckMeansUnsound(items: seq<Item>, started: set<string>, i: nat)
    requires IsStuck(items, started) && i < |items| && items[i].tag !in started
    ensures !(Closed(items) && Acyclic(items))
  {
    var full := FullLookup(items);
    var r := Lint(items, full, started, [items[i].tag], items[i]);
    if r.Circular? {
      CircularNamesACycle(items, r.path, r.closing);
    } else {
      assert !IsTag(items, r.dependency);
    }
  }

  /** Whether the item may start now: every dependency has been started. */
  method DependenciesStarted(item: Item, started: set<string>) returns (ready: bool)
    ensures ready <==> !Blocked(item, started)
  {
    for j := 0 to |item.dependencies|
      invariant forall k :: 0 <= k < j ==> item.dependencies[k] in started
    {
      if item.dependencies[j] !in started {
        return false;
      }
    }
    return true;
  }

  /** One pass over the list; starts every item whose turn has come. */
  method StartPass(items: seq<Item>, starts: string -> bool, order0: seq<string>)
    returns (order: seq<string>, failed: bool)
    requires GoodOrder(items, order0)
    requires forall t :: t in order0 ==> starts(t)
    ensures GoodOrder(items, order) && order0 <= order
    ensures failed ==> |order| > |order0| && !starts(order[|order| - 1])
    ensures !failed ==> forall t :: t in order ==> starts(t)
    ensures !failed && order == order0 ==> IsStuck(items, ToSet(order))
  {
    order := order0;
    var started := set t | t in order0;
    for i := 0 to |items|
      invariant GoodOrder(items, order) && order0 <= order && started == ToSet(order)
      invariant forall t :: t in order ==> starts(t)
      invariant order == order0 ==> forall k :: 0 <= k < i && items[k].tag !in started ==> Blocked(items[k], started)
    {
      if items[i].tag in started {
        continue;
      }
      var ready := DependenciesStarted(items[i], started);
      if !ready {
        continue;
      }
      assert forall d :: d in items[i].dependencies ==> d in order;
      GoodOrderGrows(items, order, i);
      started := started + {items[i].tag};
      order := order + [items[i].tag];
      if !starts(items[i].tag) {
        return order, true;
      }
    }
    failed := false;
  }

  /**
   The whole start.  It always ends; it succeeds exactly when no tag comes twice, every dependency
   exists, there is no cycle and every item starts.  When a tag comes twice and everything can be
   started, the loop looks for the item left over, finds none and crashes.
   */
  method StartAll(items: seq<Item>, lookup: map<string, Item>, starts: string -> bool)
    returns (r: StartResult, order: seq<string>)
    requires LookupFits(items, lookup)
    ensures GoodOrder(items, order)
    ensures r.Started? <==>
              DistinctTags(items) && Closed(items) && Acyclic(items) && forall i :: 0 <= i < |items| ==>
                  starts(items[i].tag)
    ensures r.Started? ==> |order| == |items| && forall i :: 0 <= i < |items| ==> items[i].tag in order
    ensures r.StartFailed? ==> IsTag(items, r.tag) && !starts(r.tag) && order != [] && order[|order| - 1] == r.tag
    ensures !r.StartFailed? ==> forall t :: t in order ==> starts(t)
    ensures r.Circular? ==> r.closing in r.path && IsWalk(items, r.path + [r.closing])
    ensures r.NotFound? ==> Edge(items, r.dependent, r.dependency) && r.dependency !in lookup && r.dependency !in order
    ensures r.Circular? || r.NotFound? ==> !(Closed(items) && Acyclic(items))
    ensures r.Crashed? <==> !DistinctTags(items) && !r.StartFailed? && forall i :: 0 <= i < |items| ==>
              items[i].tag in order
  {
    order := [];
    while true
      invariant GoodOrder(items, order)
      invariant forall t :: t in order ==> starts(t)
      invariant |order| <= |items|
      decreases |items| - |order|
    {
      var before := order;
      var failed;
      order, failed := StartPass(items, starts, before);
      TagsAreItems(items, order);
      TagCount(items, order);
      if failed {
        var t := order[|order| - 1];
        assert IsTag(items, t);
        return StartFailed(t), order;
      }
      if |order| == |items| {
        FullOrderMeansSound(items, order);
        return Started, order;
      }
      if |order| > |before| {
        continue;
      }
      assert order == before;
      r := Diagnose(items, lookup, order);
      return r, order;
    }
  }

  /** After a pass without progress: the walk from the first item left over, if there is one. */
  method Diagnose(items: seq<Item>, lookup: map<string, Item>, order: seq<string>) returns (r: StartResult)
    requires LookupFits(items, lookup) && IsStuck(items, ToSet(order))
    ensures r.Circular? || r.NotFound? || r.Crashed?
    ensures r.Crashed? <==> forall i :: 0 <= i < |items| ==> items[i].tag in order
    ensures r.Circular? ==> r.closing in r.path && IsWalk(items, r.path + [r.closing])
    ensures r.NotFound? ==> Edge(items, r.dependent, r.dependency) && r.dependency !in lookup && r.dependency !in order
    ensures !r.Crashed? ==> !(Closed(items) && Acyclic(items))
  {
    var started := set t | t in order;
    assert started == ToSet(order);
    var i := 0;
    while i < |items| && items[i].tag in started
      invariant i <= |items|
      invariant forall k :: 0 <= k < i ==> items[k].tag in started
    {
      i := i + 1;
    }
    if i == |items| {
      return Crashed;
    }
    StuckMeansUnsound(items, started, i);
    assert TreeFits(items, started, [items[i].tag], items[i]);
    r := Lint(items, lookup, started, [items[i].tag], items[i]);
  }

  /** When the lookup table covers the list, as it does for DNS servers, a missing dependency is really missing. */
  lemma NotFoundMeansAbsent(items: seq<Item>, lookup: map<string, Item>, r: StartResult)
    requires LookupFits(items, lookup)
    requires forall i :: 0 <= i < |items| ==> items[i].tag in lookup
    requires r.NotFound? && r.dependency !in lookup && Edge(items, r.dependent, r.dependency)
    ensures !IsTag(items, r.dependency) && !Closed(items)
  {
    assert !IsTag(items, r.dependency);
    var i :| 0 <= i < |items| && items[i].tag == r.dependent && r.dependency in items[i].dependencies;
  }
}
