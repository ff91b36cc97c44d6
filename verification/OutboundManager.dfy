/**
 The outbound manager: a list, a tag table and a reverse-dependency table that are kept in
 step while outbounds are created, started and removed.
 */
module OutboundManager {
  import opened Basics
  import opened Dependents
  import opened StartOrder

  class Outbound {
    const tag: string
    const dependencies: seq<string>

    constructor (tag: string, dependencies: seq<string>)
      ensures this.tag == tag && this.dependencies == dependencies
    {
      this.tag := tag;
      this.dependencies := dependencies;
    }
  }

  datatype Outcome = Done | Invalid | NotCreated | StartError | CloseError | DependedBy(tags: seq<string>)

  datatype StartOutcome = DefaultNotFound | NoFallback | Ran(result: StartResult) | StageFailed(index: nat) | StageDone

  const STAGE_START := 1

  function ItemOf(o: Outbound): Item
  {
    Item(o.tag, o.dependencies)
  }

  function ItemsOf(outbounds: seq<Outbound>): (items: seq<Item>)
    ensures |items| == |outbounds| && forall i :: 0 <= i < |items| ==> items[i] == ItemOf(outbounds[i])
  {
    seq(|outbounds|, i requires 0 <= i < |outbounds| => ItemOf(outbounds[i]))
  }

  function LookupOf(byTag: map<string, Outbound>): map<string, Item>
  {
    map t | t in byTag :: ItemOf(byTag[t])
  }

  /** List and tag table hold the same objects, each under its own tag and once. */
  ghost predicate InStep(outbounds: seq<Outbound>, byTag: map<string, Outbound>)
  {
    && NoDuplicates(outbounds)
    && (forall o :: o in outbounds ==> o.tag in byTag && byTag[o.tag] == o)
    && (forall t :: t in byTag ==> byTag[t].tag == t && byTag[t] in outbounds)
  }

  /** Every registered outbound is listed under each of its dependencies. */
  ghost predicate AllListed(outbounds: seq<Outbound>, table: Table)
  {
    forall o, d :: o in outbounds && d in o.dependencies ==> o.tag in DependentsOf(table, d)
  }

  lemma InStepAfterDrop(outbounds: seq<Outbound>, byTag: map<string, Outbound>, tag: string, i: nat)
    requires InStep(outbounds, byTag) && tag in byTag && i < |outbounds| && outbounds[i] == byTag[tag]
    ensures InStep(DropAt(outbounds, i), byTag - {tag})
  {
    DropAtKeeps(outbounds, i);
  }

  lemma InStepAfterAppend(outbounds: seq<Outbound>, byTag: map<string, Outbound>, o: Outbound)
    requires InStep(outbounds, byTag) && o.tag !in byTag && o !in outbounds
    ensures InStep(outbounds + [o], byTag[o.tag := o])
  {
  }

  lemma ListedAfterCreate(before: seq<Outbound>, after: seq<Outbound>, table: Table, created: Outbound)
    requires forall o :: o in after ==> o == created || o in before
    ensures AllListed(before, table) ==> AllListed(after, Register(table, created.dependencies, created.tag))
  {
    RegisterLists(table, created.dependencies, created.tag);
  }

  /** Removing `removed` takes another outbound out of the dependents of `d` with it. */
  ghost predicate LosesDependent(outbounds: seq<Outbound>, table: Table, removed: Outbound)
  {
    exists o, d :: o in outbounds && o != removed && d in o.dependencies && Lost(table, removed, d)
  }

  ghost predicate Lost(table: Table, removed: Outbound, d: string)
  {
    Occurrences(removed.dependencies, d) >= 2 && |Without(DependentsOf(table, d), removed.tag)| == 1
  }

  /**
   Exactly when unregistering keeps everyone else listed: unless a repeated dependency has a single other dependent.
   */
  lemma ListedAfterRemove(before: seq<Outbound>, after: seq<Outbound>, table: Table, removed: Outbound)
    requires AllListed(before, table) && removed in before
    requires forall o :: o in before && o.tag == removed.tag ==> o == removed
    requires forall o :: o in after <==> o in before && o != removed
    ensures AllListed(after, Unregister(table, removed.dependencies, removed.tag)) <==>
              !LosesDependent(before, table, removed)
  {
    var table' := Unregister(table, removed.dependencies, removed.tag);
    forall o, d | o in after && d in o.dependencies
      ensures o.tag in DependentsOf(table', d) <==> !Lost(table, removed, d)
    {
      StillListed(table, removed, o.tag, d);
    }
    if LosesDependent(before, table, removed) {
      var o, d :| o in before && o != removed && d in o.dependencies && Lost(table, removed, d);
      assert o in after && o.tag !in DependentsOf(table', d);
    }
  }

  lemma StillListed(table: Table, removed: Outbound, t: string, d: string)
    requires t != removed.tag && t in DependentsOf(table, d)
    requires d in removed.dependencies ==> removed.tag in DependentsOf(table, d)
    ensures t in DependentsOf(Unregister(table, removed.dependencies, removed.tag), d) <==> !Lost(table, removed, d)
  {
    if d in removed.dependencies {
      UnregisterExact(table, removed.dependencies, removed.tag, d);
    } else {
      UnregisterElsewhere(table, removed.dependencies, removed.tag, d);
      OccurrencesOfMember(removed.dependencies, d);
    }
  }

  lemma NothingLost(outbounds: seq<Outbound>, table: Table, removed: Outbound)
    requires NoDuplicates(removed.dependencies)
    ensures !LosesDependent(outbounds, table, removed)
  {
    forall d ensures Occurrences(removed.dependencies, d) <= 1 {
      OccurrencesAreCounted(removed.dependencies, d);
    }
  }

  lemma LookupInStep(outbounds: seq<Outbound>, byTag: map<string, Outbound>, endpoints: seq<Item>)
    requires InStep(outbounds, byTag)
    ensures LookupFits(ItemsOf(outbounds) + endpoints, LookupOf(byTag))
  {
    var items := ItemsOf(outbounds) + endpoints;
    forall t | t in byTag ensures ItemOf(byTag[t]) in items {
      var k :| 0 <= k < |outbounds| && outbounds[k] == byTag[t];
      assert items[k] == ItemOf(byTag[t]);
    }
  }

  /** Among the outbounds no tag comes twice; an endpoint may repeat one. */
  lemma DistinctWithEndpoints(outbounds: seq<Outbound>, byTag: map<string, Outbound>, endpoints: seq<Item>)
    requires InStep(outbounds, byTag)
    ensures DistinctTags(ItemsOf(outbounds) + endpoints) <==>
              DistinctTags(endpoints) && forall i :: 0 <= i < |endpoints| ==> endpoints[i].tag !in byTag
  {
    var items := ItemsOf(outbounds);
    var all := items + endpoints;
    if DistinctTags(all) {
      forall i, j | 0 <= i < j < |endpoints| ensures endpoints[i].tag != endpoints[j].tag {
        assert all[|items| + i].tag != all[|items| + j].tag;
      }
      forall i | 0 <= i < |endpoints| ensures endpoints[i].tag !in byTag {
        forall k | 0 <= k < |outbounds| ensures outbounds[k].tag != endpoints[i].tag {
          assert all[k].tag != all[|items| + i].tag;
        }
      }
    }
    if DistinctTags(endpoints) && forall i :: 0 <= i < |endpoints| ==> endpoints[i].tag !in byTag {
      forall i, j | 0 <= i < j < |all| ensures all[i].tag != all[j].tag {
        if j < |items| {
          assert outbounds[i] != outbounds[j] && outbounds[i] in outbounds && outbounds[j] in outbounds;
        } else if i < |items| {
          assert outbounds[i] in outbounds;
        }
      }
    }
  }

  class Manager {
    const defaultTag: string
    var started: bool
    var stage: nat
    var outbounds: seq<Outbound>
    var outboundByTag: map<string, Outbound>
    var dependByTag: Table
    var defaultOutbound: Outbound?

    ghost predicate Valid()
      reads this
    {
      InStep(outbounds, outboundByTag) && (defaultTag == "" && defaultOutbound == null ==> outbounds == [])
    }

    ghost predicate Complete()
      reads this
    {
      AllListed(outbounds, dependByTag)
    }

    constructor (defaultTag: string)
      ensures Valid() && Complete()
      ensures this.defaultTag == defaultTag && outbounds == [] && outboundByTag == map[] && dependByTag == map[]
              && !started && stage == 0 && defaultOutbound == null
    {
      this.defaultTag := defaultTag;
      started, stage := false, 0;
      outbounds, outboundByTag, dependByTag := [], map[], map[];
      defaultOutbound := null;
    }

    method IndexOf(o: Outbound) returns (i: int)
      ensures -1 <= i < |outbounds|
      ensures i == -1 <==> o !in outbounds
      ensures i >= 0 ==> outbounds[i] == o
    {
      i := 0;
      while i < |outbounds|
        invariant 0 <= i <= |outbounds|
        invariant o !in outbounds[..i]
      {
        if outbounds[i] == o {
          return;
        }
        i := i + 1;
      }
      i := -1;
    }

    /** Takes the outbound registered under `tag` out of the list. */
    method DropExisting(tag: string)
      requires InStep(outbounds, outboundByTag) && tag in outboundByTag
      modifies `outbounds, `outboundByTag
      ensures InStep(outbounds, outboundByTag) && outboundByTag == old(outboundByTag) - {tag}
      ensures forall o :: o in outbounds <==> o in old(outbounds) && o.tag != tag
    {
      var existsIndex := IndexOf(outboundByTag[tag]);
      assert existsIndex != -1;
      InStepAfterDrop(outbounds, outboundByTag, tag, existsIndex);
      DropAtKeeps(outbounds, existsIndex);
      outbounds := DropAt(outbounds, existsIndex);
      outboundByTag := outboundByTag - {tag};
    }

    /** Appends an outbound whose tag is free to the list and the tables. */
    method Admit(created: Outbound)
      requires InStep(outbounds, outboundByTag) && created.tag !in outboundByTag && created !in outbounds
      modifies `outbounds, `outboundByTag, `dependByTag, `defaultOutbound
      ensures InStep(outbounds, outboundByTag)
      ensures outbounds == old(outbounds) + [created] && outboundByTag == old(outboundByTag)[created.tag := created]
      ensures dependByTag == Register(old(dependByTag), created.dependencies, created.tag)
      ensures defaultOutbound == (if created.tag == defaultTag || (defaultTag == "" && old(defaultOutbound) == null)
                then created else old(defaultOutbound))
    {
      InStepAfterAppend(outbounds, outboundByTag, created);
      outbounds := outbounds + [created];
      outboundByTag := outboundByTag[created.tag := created];
      dependByTag := RegisterAll(dependByTag, created.dependencies, created.tag);
      if created.tag == defaultTag || (defaultTag == "" && defaultOutbound == null) {
        defaultOutbound := created;
      }
    }

    /** The new outbound takes over its tag, from an earlier one if there is one. */
    method Replace(created: Outbound)
      requires Valid() && created !in outbounds
      modifies `outbounds, `outboundByTag, `dependByTag, `defaultOutbound
      ensures Valid()
      ensures outboundByTag == old(outboundByTag)[created.tag := created]
      ensures dependByTag == Register(old(dependByTag), created.dependencies, created.tag)
      ensures defaultOutbound == (if created.tag == defaultTag || (defaultTag == "" && old(defaultOutbound) == null)
                then created else old(defaultOutbound))
      ensures outbounds != [] && outbounds[|outbounds| - 1] == created
      ensures forall o :: o in outbounds <==> o == created || (o in old(outbounds) && o.tag != created.tag)
    {
      if created.tag in outboundByTag {
        DropExisting(created.tag);
      }
      Admit(created);
    }

    /** Registers a new outbound, replacing one of the same tag; a failed creation changes nothing. */
    method Create(tag: string, created: Outbound?, startOk: bool, closeOk: bool) returns (e: Outcome)
      requires Valid()
      requires created != null ==> created.tag == tag && created !in outbounds
      modifies this
      ensures Valid() && started == old(started) && stage == old(stage)
      ensures e == (if tag == "" then Invalid else if created == null then NotCreated
                    else if started && !startOk then StartError
                    else if tag in old(outboundByTag) && started && !closeOk then CloseError else Done)
      ensures e != Done ==>
                outbounds == old(outbounds) && outboundByTag == old(outboundByTag) && dependByTag == old(dependByTag)
                && defaultOutbound == old(defaultOutbound)
      ensures e == Done ==>
                && outboundByTag == old(outboundByTag)[tag := created]
                && dependByTag == Register(old(dependByTag), created.dependencies, tag)
                && defaultOutbound == (if tag == defaultTag || (defaultTag == "" && old(defaultOutbound) == null)
                   then created else old(defaultOutbound))
                && outbounds != [] && outbounds[|outbounds| - 1] == created
                && (forall o :: o in outbounds <==> o == created || (o in old(outbounds) && o.tag != tag))
      ensures old(Complete()) ==> Complete()
      // A default that is not the configured one goes stale exactly when its own tag is replaced.
      ensures e == Done && old(defaultOutbound) != null && old(defaultOutbound) in old(outbounds) ==>
                (defaultOutbound in outbounds <==> !(old(defaultOutbound).tag == tag && tag != defaultTag))
    {
      if tag == "" {
        return Invalid;
      }
      if created == null {
        return NotCreated;
      }
      if started && !startOk {
        return StartError;
      }
      if tag in outboundByTag && started && !closeOk {
        return CloseError;
      }
      Replace(created);
      ListedAfterCreate(old(outbounds), outbounds, old(dependByTag), created);
      return Done;
    }

    /** Takes an outbound out of the list and the table, and passes the default on. */
    method TakeOut(tag: string) returns (outbound: Outbound)
      requires Valid() && tag in outboundByTag
      modifies `outbounds, `outboundByTag, `defaultOutbound
      ensures Valid() && outbound == old(outboundByTag)[tag] && outboundByTag == old(outboundByTag) - {tag}
      ensures IsDropOf(old(outbounds), outbound, outbounds)
      ensures forall o :: o in outbounds <==> o in old(outbounds) && o != outbound
      ensures defaultOutbound == (if old(defaultOutbound) != outbound then old(defaultOutbound)
                else if outbounds == [] then null else outbounds[0])
    {
      outbound := outboundByTag[tag];
      var index := IndexOf(outbound);
      assert index != -1;
      InStepAfterDrop(outbounds, outboundByTag, tag, index);
      DropAtKeeps(outbounds, index);
      outboundByTag := outboundByTag - {tag};
      outbounds := DropAt(outbounds, index);
      if defaultOutbound == outbound {
        if |outbounds| > 0 {
          defaultOutbound := outbounds[0];
        } else {
          defaultOutbound := null;
        }
      }
    }

    /** Unregisters an outbound; it is gone even when others still depend on it and an error is returned. */
    method Remove(tag: string, closeOk: bool) returns (e: Outcome)
      requires Valid()
      modifies this
      ensures Valid() && started == old(started) && stage == old(stage)
      ensures tag !in old(outboundByTag) ==>
                e == Invalid && outbounds == old(outbounds) && outboundByTag == old(outboundByTag)
                    && dependByTag == old(dependByTag) && defaultOutbound == old(defaultOutbound)
      ensures tag in old(outboundByTag) ==>
                var removed := old(outboundByTag)[tag];
                && outboundByTag == old(outboundByTag) - {tag}
                && IsDropOf(old(outbounds), removed, outbounds)
                && defaultOutbound == (if old(defaultOutbound) != removed then old(defaultOutbound)
                                       else if outbounds == [] then null else outbounds[0])
                && if DependentsOf(old(dependByTag), tag) != [] then
                     && e == DependedBy(DependentsOf(old(dependByTag), tag))
                     && dependByTag == old(dependByTag)
                   else
                     && e == (if started && !closeOk then CloseError else Done)
                     && dependByTag == Unregister(old(dependByTag), removed.dependencies, tag)
      // Everyone stays listed, except exactly when the removed outbound repeats a dependency that has one other
      // dependent.
      ensures old(Complete()) && (e == Done || e == CloseError) ==>
                (Complete() <==> !old(LosesDependent(outbounds, dependByTag, outboundByTag[tag])))
      ensures old(Complete()) && e != Done && e != CloseError ==> Complete()
      ensures old(Complete()) && (tag in old(outboundByTag) ==> NoDuplicates(old(outboundByTag)[tag].dependencies)) ==>
                Complete()
      ensures old(Complete()) && (e == Done || e == CloseError) ==> forall o :: o in old(outbounds) ==>
                tag !in o.dependencies
    {
      if tag !in outboundByTag {
        return Invalid;
      }
      ghost var before := outbounds;
      var outbound := TakeOut(tag);
      var dependBy := DependentsOf(dependByTag, tag);
      if |dependBy| > 0 {
        return DependedBy(dependBy);
      }
      if AllListed(before, dependByTag) {
        ListedAfterRemove(before, outbounds, dependByTag, outbound);
        if NoDuplicates(outbound.dependencies) {
          NothingLost(before, dependByTag, outbound);
        }
      }
      dependByTag := UnregisterAll(dependByTag, outbound.dependencies, tag);
      if started && !closeOk {
        return CloseError;
      }
      return Done;
    }

    /** Settles the default outbound; the fallback is the direct outbound. */
    method SettleDefault(defaultEndpoint: Outbound?, fallback: Outbound?) returns (problem: Option<StartOutcome>)
      requires Valid()
      requires fallback != null ==> fallback.dependencies == [] && fallback !in outbounds
      modifies `outbounds, `outboundByTag, `defaultOutbound
      ensures Valid()
      ensures old(Complete()) ==> Complete()
      ensures problem == Some(DefaultNotFound) <==>
                defaultTag != "" && old(defaultOutbound) == null && defaultEndpoint == null
      ensures problem == Some(NoFallback) <==> defaultTag == "" && old(defaultOutbound) == null && fallback == null
      ensures problem.None? || problem == Some(DefaultNotFound) || problem == Some(NoFallback)
      ensures problem.None? ==>
                && defaultOutbound == (if old(defaultOutbound) != null then old(defaultOutbound)
                                       else if defaultTag != "" then defaultEndpoint else fallback)
                && outbounds == (if old(defaultOutbound) == null && defaultTag == "" then [fallback]
                   else old(outbounds))
    {
      if defaultTag != "" && defaultOutbound == null {
        if defaultEndpoint == null {
          return Some(DefaultNotFound);
        }
        defaultOutbound := defaultEndpoint;
      }
      if defaultOutbound == null {
        if fallback == null {
          return Some(NoFallback);
        }
        EmptyInStep(outbounds, outboundByTag);
        InStepAfterAppend(outbounds, outboundByTag, fallback);
        outbounds := outbounds + [fallback];
        outboundByTag := outboundByTag[fallback.tag := fallback];
        defaultOutbound := fallback;
      }
      return None;
    }

    /** The start loop over outbounds and endpoints; an endpoint that repeats a tag makes it fail. */
    method StartOutbounds(endpoints: seq<Item>, starts: string -> bool) returns (r: StartResult)
      requires Valid()
      ensures r.Started? <==>
                && DistinctTags(endpoints) && (forall i :: 0 <= i < |endpoints| ==> endpoints[i].tag !in outboundByTag)
                && var items := ItemsOf(outbounds) + endpoints;
                Closed(items) && Acyclic(items) && forall i :: 0 <= i < |items| ==> starts(items[i].tag)
    {
      LookupInStep(outbounds, outboundByTag, endpoints);
      DistinctWithEndpoints(outbounds, outboundByTag, endpoints);
      var order;
      r, order := StartAll(ItemsOf(outbounds) + endpoints, LookupOf(outboundByTag), starts);
    }

    method StartStage(starts: string -> bool) returns (e: StartOutcome)
      ensures e == StageDone <==> forall o :: o in outbounds ==> starts(o.tag)
    {
      for i := 0 to |outbounds|
        invariant forall k :: 0 <= k < i ==> starts(outbounds[k].tag)
      {
        if !starts(outbounds[i].tag) {
          return StageFailed(i);
        }
      }
      return StageDone;
    }

    /**
     Completes the registry at the start stage and starts everything in dependency order; at any other starts all in
     turn.
     */
    method Start(newStage: nat, defaultEndpoint: Outbound?, fallback: Outbound?, endpoints: seq<Item>,
        starts: string -> bool)
      returns (e: StartOutcome)
      requires Valid()
      requires !(started && stage >= newStage)
      requires fallback != null ==> fallback.dependencies == [] && fallback !in outbounds
      modifies this
      ensures Valid() && started && stage == newStage && dependByTag == old(dependByTag)
      ensures old(Complete()) ==> Complete()
      ensures newStage != STAGE_START ==>
                && outbounds == old(outbounds) && outboundByTag == old(outboundByTag)
                   && defaultOutbound == old(defaultOutbound)
                && (e == StageDone <==> forall o :: o in outbounds ==> starts(o.tag))
      ensures newStage == STAGE_START ==>
                && (e == DefaultNotFound <==>
                   defaultTag != "" && old(defaultOutbound) == null && defaultEndpoint == null)
                && (e == NoFallback <==> defaultTag == "" && old(defaultOutbound) == null && fallback == null)
                && (e.Ran? || e == DefaultNotFound || e == NoFallback)
      ensures newStage == STAGE_START && e.Ran? ==>
                && defaultOutbound == (if old(defaultOutbound) != null then old(defaultOutbound)
                                       else if defaultTag != "" then defaultEndpoint else fallback)
                && outbounds == (if old(defaultOutbound) == null && defaultTag == "" then [fallback]
                   else old(outbounds))
                && (e.result.Started? <==>
                      && DistinctTags(endpoints)
                         && (forall i :: 0 <= i < |endpoints| ==> endpoints[i].tag !in outboundByTag)
                      && var items := ItemsOf(outbounds) + endpoints;
                      Closed(items) && Acyclic(items) && forall i :: 0 <= i < |items| ==> starts(items[i].tag))
    {
      started, stage := true, newStage;
      if newStage != STAGE_START {
        e := StartStage(starts);
        return;
      }
      var problem := SettleDefault(defaultEndpoint, fallback);
      if problem.Some? {
        return problem.value;
      }
      var result := StartOutbounds(endpoints, starts);
      return Ran(result);
    }
  }

  lemma EmptyInStep(outbounds: seq<Outbound>, byTag: map<string, Outbound>)
    requires InStep(outbounds, byTag) && outbounds == []
    ensures byTag == map[]
  {
    assert forall t :: t !in byTag;
  }

  /** The default goes stale: a new outbound takes over the tag of a default that is not the configured one. */
  method DefaultGoesStale() returns (m: Manager)
    ensures fresh(m) && m.Valid() && m.defaultOutbound != null && m.defaultOutbound !in m.outbounds
  {
    m := new Manager("");
    var first := new Outbound("a", []);
    var second := new Outbound("a", []);
    var e := m.Create("a", first, true, true);
    e := m.Create("a", second, true, true);
  }

  /** A dependent is lost: one outbound depends twice on a tag that one other depends on, and is removed. */
  method DependentGetsLost() returns (m: Manager)
    ensures fresh(m) && m.Valid() && !m.Complete()
  {
    m := new Manager("");
    var x := new Outbound("x", ["a", "a"]);
    var y := new Outbound("y", ["a"]);
    RepeatedDependencyLosesAnother();
    var e := m.Create("x", x, true, true);
    e := m.Create("y", y, true, true);
    assert y in m.outbounds && x in m.outbounds;
    e := m.Remove("x", true);
    assert m.outboundByTag["y"] == y && "a" in y.dependencies;
  }
}
