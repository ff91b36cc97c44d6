/**
 The DNS transport manager, as far as rule-driven queries depend on it: the list and tag
 table of servers, the default server and the fakeip server.
 */
module TransportManager {
  import opened Basics
  import opened Dependents
  import opened DnsBuild
  import opened StartOrder

  class Server {
    const tag: string
    const kind: TransportKind
    const dependencies: seq<string>

    constructor (tag: string, kind: TransportKind, dependencies: seq<string>)
      ensures this.tag == tag && this.kind == kind && this.dependencies == dependencies
    {
      this.tag, this.kind, this.dependencies := tag, kind, dependencies;
    }
  }

  datatype StartOutcome =
    | DefaultMissing | FallbackMissing
    | Ran(result: StartResult) | StageFailed(index: nat) | StageDone

  const STAGE_START := 1

  datatype Outcome =
    | Done | Invalid | NotCreated | StartError | CloseError
    | DefaultIsFakeIp | SecondFakeIp
    | DependedBy(tags: seq<string>)

  /** The outcomes that leave the manager as it was. */
  predicate Refusal(e: Outcome)
  {
    e == Invalid || e == NotCreated || e == StartError || e == CloseError
  }

  function ViewOf(s: Server): Transport
  {
    Transport(s.tag, s.kind)
  }

  /** The table the DNS router reads. */
  function TableOf(byTag: map<string, Server>): TransportTable
  {
    map t | t in byTag :: ViewOf(byTag[t])
  }

  function ItemsOf(servers: seq<Server>): (items: seq<Item>)
    ensures |items| == |servers| && forall i :: 0 <= i < |items| ==>
              items[i] == Item(servers[i].tag, servers[i].dependencies)
  {
    seq(|servers|, i requires 0 <= i < |servers| => Item(servers[i].tag, servers[i].dependencies))
  }

  function LookupOf(byTag: map<string, Server>): map<string, Item>
  {
    map t | t in byTag :: Item(byTag[t].tag, byTag[t].dependencies)
  }

  /** Every tagged server is in the list, once, under its own tag. */
  ghost predicate Tagged(servers: seq<Server>, byTag: map<string, Server>)
  {
    NoDuplicates(servers) && forall t :: t in byTag ==> byTag[t].tag == t && byTag[t] in servers
  }

  /** Conversely every listed server is the one its tag names. */
  ghost predicate AllTagged(servers: seq<Server>, byTag: map<string, Server>)
  {
    forall s :: s in servers ==> s.tag in byTag && byTag[s.tag] == s
  }

  lemma LookupInStep(servers: seq<Server>, byTag: map<string, Server>)
    requires Tagged(servers, byTag)
    ensures LookupFits(ItemsOf(servers), LookupOf(byTag))
  {
    var items := ItemsOf(servers);
    forall t | t in byTag ensures Item(byTag[t].tag, byTag[t].dependencies) in items {
      var k :| 0 <= k < |servers| && servers[k] == byTag[t];
      assert items[k] == Item(byTag[t].tag, byTag[t].dependencies);
    }
  }

  /** No tag comes twice exactly when every listed server is the one its tag names. */
  lemma DistinctInStep(servers: seq<Server>, byTag: map<string, Server>)
    requires Tagged(servers, byTag) && forall s :: s in servers ==> s.tag in byTag
    ensures DistinctTags(ItemsOf(servers)) <==> AllTagged(servers, byTag)
  {
    var items := ItemsOf(servers);
    if AllTagged(servers, byTag) {
      forall i, j | 0 <= i < j < |items| ensures items[i].tag != items[j].tag {
        assert servers[i] in servers && servers[j] in servers && servers[i] != servers[j];
      }
    }
    if DistinctTags(items) {
      forall s | s in servers ensures byTag[s.tag] == s {
        var i :| 0 <= i < |servers| && servers[i] == s;
        var j :| 0 <= j < |servers| && servers[j] == byTag[s.tag];
        assert items[i].tag == items[j].tag;
      }
    }
  }

  lemma DropKeepsTagged(servers: seq<Server>, byTag: map<string, Server>, tag: string, i: nat)
    requires Tagged(servers, byTag) && tag in byTag && i < |servers| && servers[i] == byTag[tag]
    ensures Tagged(DropAt(servers, i), byTag - {tag})
    ensures forall s :: s in DropAt(servers, i) <==> s in servers && s != servers[i]
  {
    DropAtKeeps(servers, i);
  }

  class Manager {
    const defaultTag: string
    var started: bool
    var stage: nat
    var servers: seq<Server>
    var serverByTag: map<string, Server>
    var dependByTag: Table
    var defaultServer: Server?
    var fakeIpServer: Server?

    ghost predicate Valid()
      reads this
    {
      && Tagged(servers, serverByTag)
      && (fakeIpServer != null ==> fakeIpServer.kind == FakeIp)
    }

    /** A default server never hands out fake addresses. */
    ghost predicate DefaultIsReal()
      reads this
    {
      defaultServer != null ==> defaultServer.kind != FakeIp
    }

    constructor (defaultTag: string)
      ensures Valid() && DefaultIsReal() && AllTagged(servers, serverByTag)
      ensures this.defaultTag == defaultTag && servers == [] && serverByTag == map[] && dependByTag == map[]
              && defaultServer == null && fakeIpServer == null && !started
    {
      this.defaultTag := defaultTag;
      started, stage := false, 0;
      servers, serverByTag, dependByTag := [], map[], map[];
      defaultServer, fakeIpServer := null, null;
    }

    method IndexOf(s: Server) returns (i: int)
      ensures -1 <= i < |servers|
      ensures i == -1 <==> s !in servers
      ensures i >= 0 ==> servers[i] == s
    {
      i := 0;
      while i < |servers|
        invariant 0 <= i <= |servers|
        invariant s !in servers[..i]
      {
        if servers[i] == s {
          return;
        }
        i := i + 1;
      }
      i := -1;
    }

    /** Takes the server under `tag` out of the list and the table. */
    method Drop(tag: string)
      requires Valid() && tag in serverByTag
      modifies `servers, `serverByTag
      ensures Valid() && serverByTag == old(serverByTag) - {tag}
      ensures IsDropOf(old(servers), old(serverByTag)[tag], servers)
      ensures old(AllTagged(servers, serverByTag)) ==> AllTagged(servers, serverByTag)
      ensures forall s :: s in servers <==> s in old(servers) && s != old(serverByTag)[tag]
    {
      var index := IndexOf(serverByTag[tag]);
      assert index != -1;
      DropKeepsTagged(servers, serverByTag, tag, index);
      servers := DropAt(servers, index);
      serverByTag := serverByTag - {tag};
    }

    /** Appends a server whose tag is free. */
    method Admit(created: Server)
      requires Valid() && created.tag !in serverByTag && created !in servers
      modifies `servers, `serverByTag, `dependByTag
      ensures Valid() && servers == old(servers) + [created] && serverByTag == old(serverByTag)[created.tag := created]
      ensures dependByTag == Register(old(dependByTag), created.dependencies, created.tag)
      ensures old(AllTagged(servers, serverByTag)) ==> AllTagged(servers, serverByTag)
    {
      servers := servers + [created];
      serverByTag := serverByTag[created.tag := created];
      dependByTag := RegisterAll(dependByTag, created.dependencies, created.tag);
    }

    /** Puts a new server in the place of one with the same tag. */
    method Replace(created: Server)
      requires Valid() && created !in servers
      modifies `servers, `serverByTag, `dependByTag
      ensures Valid() && serverByTag == old(serverByTag)[created.tag := created]
      ensures dependByTag == Register(old(dependByTag), created.dependencies, created.tag)
      ensures servers != [] && servers[|servers| - 1] == created
      ensures forall s :: s in servers <==>
                s == created
                || (s in old(servers) && !(created.tag in old(serverByTag) && s == old(serverByTag)[created.tag]))
      ensures old(AllTagged(servers, serverByTag)) ==> AllTagged(servers, serverByTag)
    {
      if created.tag in serverByTag {
        Drop(created.tag);
      }
      Admit(created);
    }

    /** Decides whether a new server becomes the default or the fakeip server. */
    method Elect(created: Server) returns (e: Outcome)
      requires Valid()
      modifies `defaultServer, `fakeIpServer
      ensures Valid() && (old(DefaultIsReal()) ==> DefaultIsReal())
      ensures var asDefault := created.tag == defaultTag || (defaultTag == "" && old(defaultServer) == null);
              && defaultServer == (if asDefault && created.kind != FakeIp then created else old(defaultServer))
              && e == (if created.kind != FakeIp then Done else if asDefault then DefaultIsFakeIp
                 else if old(fakeIpServer) != null then SecondFakeIp else Done)
              && fakeIpServer == (if e == Done && created.kind == FakeIp then created else old(fakeIpServer))
    {
      if created.tag == defaultTag || (defaultTag == "" && defaultServer == null) {
        if created.kind == FakeIp {
          return DefaultIsFakeIp;
        }
        defaultServer := created;
      }
      if created.kind == FakeIp {
        if fakeIpServer != null {
          return SecondFakeIp;
        }
        fakeIpServer := created;
      }
      return Done;
    }

    /** Registers a server.  A fakeip server is refused as default, yet stays registered. */
    method Create(tag: string, created: Server?, startOk: bool, closeOk: bool) returns (e: Outcome)
      requires Valid()
      requires created != null ==> created.tag == tag && created !in servers
      modifies this
      ensures Valid() && started == old(started) && stage == old(stage)
      ensures old(DefaultIsReal()) ==> DefaultIsReal()
      ensures old(AllTagged(servers, serverByTag)) ==> AllTagged(servers, serverByTag)
      ensures Refusal(e) <==>
                tag == "" || created == null || (started && !startOk)
                || (tag in old(serverByTag) && started && !closeOk)
      ensures Refusal(e) ==>
                e == (if tag == "" then Invalid else if created == null then NotCreated else if started && !startOk
                    then StartError else CloseError)
      ensures Refusal(e) ==>
                servers == old(servers) && serverByTag == old(serverByTag) && dependByTag == old(dependByTag)
                    && defaultServer == old(defaultServer) && fakeIpServer == old(fakeIpServer)
      ensures !Refusal(e) ==>
                var asDefault := tag == defaultTag || (defaultTag == "" && old(defaultServer) == null);
                && created != null
                && serverByTag == old(serverByTag)[tag := created]
                && dependByTag == Register(old(dependByTag), created.dependencies, tag)
                && servers != [] && servers[|servers| - 1] == created
                && (forall s :: s in servers <==>
                   s == created || (s in old(servers) && !(tag in old(serverByTag) && s == old(serverByTag)[tag])))
                && defaultServer == (if asDefault && created.kind != FakeIp then created else old(defaultServer))
                && e == (if created.kind != FakeIp then Done else if asDefault then DefaultIsFakeIp
                   else if old(fakeIpServer) != null then SecondFakeIp else Done)
                && fakeIpServer == (if e == Done && created.kind == FakeIp then created else old(fakeIpServer))
    {
      if tag == "" {
        return Invalid;
      }
      if created == null {
        return NotCreated;
      }
      if started && !startOk {
        return StartError;
      }
      if tag in serverByTag && started && !closeOk {
        return CloseError;
      }
      Replace(created);
      e := Elect(created);
    }

    /** Settles the default server; the fallback is the local resolver. */
    method SettleDefault(fallback: Server?) returns (problem: Option<StartOutcome>)
      requires Valid()
      requires fallback != null ==> fallback.kind == Local && fallback !in servers
      modifies `servers, `serverByTag, `defaultServer
      ensures Valid()
      ensures old(DefaultIsReal()) ==> DefaultIsReal()
      ensures old(defaultServer) != null ==>
                problem == None && defaultServer == old(defaultServer) && servers == old(servers)
                && serverByTag == old(serverByTag)
      ensures old(defaultServer) == null ==>
                if defaultTag != "" || fallback == null then
                  && problem == Some(if defaultTag != "" then DefaultMissing else FallbackMissing)
                  && defaultServer == null && servers == old(servers) && serverByTag == old(serverByTag)
                else
                  && problem == None && defaultServer == fallback
                  && servers == old(servers) + [fallback] && serverByTag == old(serverByTag)[fallback.tag := fallback]
      ensures problem.None? ==> defaultServer != null
      // The fallback keeps list and table in step exactly when its tag is still free.
      ensures old(AllTagged(servers, serverByTag)) ==>
                (AllTagged(servers, serverByTag) <==>
                    !(old(defaultServer) == null && defaultTag == "" && fallback != null
                    && fallback.tag in old(serverByTag)))
    {
      if defaultTag != "" && defaultServer == null {
        return Some(DefaultMissing);
      }
      if defaultServer == null {
        if fallback == null {
          return Some(FallbackMissing);
        }
        ghost var clash := fallback.tag in serverByTag;
        ghost var shadowed := if clash then serverByTag[fallback.tag] else fallback;
        servers := servers + [fallback];
        serverByTag := serverByTag[fallback.tag := fallback];
        defaultServer := fallback;
        assert shadowed in servers && shadowed.tag == fallback.tag;
      }
      return None;
    }

    /** At the start stage: settles the default and starts every server in dependency order. */
    method StartFirst(fallback: Server?, starts: string -> bool) returns (e: StartOutcome)
      requires Valid() && AllTagged(servers, serverByTag)
      requires fallback != null ==> fallback.kind == Local && fallback !in servers
      modifies `servers, `serverByTag, `defaultServer
      ensures Valid()
      ensures old(DefaultIsReal()) ==> DefaultIsReal()
      ensures e == DefaultMissing <==> old(defaultServer) == null && defaultTag != ""
      ensures e == FallbackMissing <==> old(defaultServer) == null && defaultTag == "" && fallback == null
      ensures e.Ran? || e == DefaultMissing || e == FallbackMissing
      ensures e.Ran? ==>
                && defaultServer != null
                && defaultServer == (if old(defaultServer) != null then old(defaultServer) else fallback)
                && servers == (if old(defaultServer) != null then old(servers) else old(servers) + [fallback])
                && var items := ItemsOf(servers);
                && var taken := old(defaultServer) == null && fallback.tag in old(serverByTag);
                && var sound := Closed(items) && Acyclic(items) && forall s :: s in servers ==> starts(s.tag);
                && (e.result.Started? <==> !taken && sound)
                && (taken && sound ==> e.result.Crashed?)
                && (e.result.Crashed? ==> taken)
                && (e.result.NotFound? ==> !IsTag(items, e.result.dependency))
                && (e.result.Circular? ==> !Acyclic(items))
    {
      var problem := SettleDefault(fallback);
      if problem.Some? {
        return problem.value;
      }
      var result := StartServers(starts);
      return Ran(result);
    }

    /** At any other stage the servers are started in turn. */
    method StartStage(starts: string -> bool) returns (e: StartOutcome)
      ensures e == StageDone <==> forall s :: s in servers ==> starts(s.tag)
    {
      for i := 0 to |servers|
        invariant forall k :: 0 <= k < i ==> starts(servers[k].tag)
      {
        if !starts(servers[i].tag) {
          return StageFailed(i);
        }
      }
      return StageDone;
    }

    /** Each stage once, in order. */
    method Start(newStage: nat, fallback: Server?, starts: string -> bool) returns (e: StartOutcome)
      requires Valid()
      requires !(started && stage >= newStage)
      requires newStage == STAGE_START ==> AllTagged(servers, serverByTag)
      requires fallback != null ==> fallback.kind == Local && fallback !in servers
      modifies this
      ensures Valid() && started && stage == newStage && dependByTag == old(dependByTag)
              && fakeIpServer == old(fakeIpServer)
      ensures old(DefaultIsReal()) ==> DefaultIsReal()
      ensures newStage != STAGE_START ==>
                && servers == old(servers) && serverByTag == old(serverByTag) && defaultServer == old(defaultServer)
                && (e == StageDone <==> forall s :: s in servers ==> starts(s.tag))
      ensures newStage == STAGE_START ==>
                && (e == DefaultMissing <==> old(defaultServer) == null && defaultTag != "")
                && (e == FallbackMissing <==> old(defaultServer) == null && defaultTag == "" && fallback == null)
                && (e.Ran? || e == DefaultMissing || e == FallbackMissing)
      ensures newStage == STAGE_START && e.Ran? ==>
                && defaultServer != null
                && defaultServer == (if old(defaultServer) != null then old(defaultServer) else fallback)
                && servers == (if old(defaultServer) != null then old(servers) else old(servers) + [fallback])
                && var items := ItemsOf(servers);
                && var taken := old(defaultServer) == null && fallback.tag in old(serverByTag);
                && var sound := Closed(items) && Acyclic(items) && forall s :: s in servers ==> starts(s.tag);
                && (e.result.Started? <==> !taken && sound)
                && (taken && sound ==> e.result.Crashed?)
                && (e.result.Crashed? ==> taken)
                && (e.result.NotFound? ==> !IsTag(items, e.result.dependency))
                && (e.result.Circular? ==> !Acyclic(items))
    {
      started, stage := true, newStage;
      if newStage == STAGE_START {
        e := StartFirst(fallback, starts);
      } else {
        e := StartStage(starts);
      }
    }

    /** The start loop over the listed servers; a tag that is listed twice makes it fail. */
    method StartServers(starts: string -> bool) returns (r: StartResult)
      requires Valid() && forall s :: s in servers ==> s.tag in serverByTag
      ensures r.Started? <==>
                && AllTagged(servers, serverByTag)
                && Closed(ItemsOf(servers)) && Acyclic(ItemsOf(servers)) && forall s :: s in servers ==> starts(s.tag)
      ensures r.Crashed? ==> !AllTagged(servers, serverByTag)
      ensures Closed(ItemsOf(servers)) && Acyclic(ItemsOf(servers)) && (forall s :: s in servers ==> starts(s.tag)) ==>
                r == if AllTagged(servers, serverByTag) then Started else Crashed
      ensures r.NotFound? ==> !IsTag(ItemsOf(servers), r.dependency)
      ensures r.Circular? ==> !Acyclic(ItemsOf(servers))
    {
      LookupInStep(servers, serverByTag);
      DistinctInStep(servers, serverByTag);
      var items := ItemsOf(servers);
      var order;
      r, order := StartAll(items, LookupOf(serverByTag), starts);
      if r.Circular? {
        CircularNamesACycle(items, r.path, r.closing);
      }
      assert forall i :: 0 <= i < |items| ==> items[i].tag == servers[i].tag && servers[i] in servers;
      if r.NotFound? {
        NotFoundMeansAbsent(items, LookupOf(serverByTag), r);
      }
    }

    /**
     Removes a server.  When the default goes, the next server takes over exactly when it is
     a fakeip server, so this is the one operation that can break `DefaultIsReal`.
     */
    method Remove(tag: string) returns (e: Outcome)
      requires Valid()
      modifies this
      ensures Valid() && started == old(started) && stage == old(stage) && fakeIpServer == old(fakeIpServer)
      ensures tag !in old(serverByTag) ==>
                e == Invalid && servers == old(servers) && serverByTag == old(serverByTag)
                    && defaultServer == old(defaultServer) && dependByTag == old(dependByTag)
      ensures tag in old(serverByTag) ==>
                var removed := old(serverByTag)[tag];
                && serverByTag == old(serverByTag) - {tag}
                && IsDropOf(old(servers), removed, servers)
                && (e == DefaultIsFakeIp <==>
                   old(defaultServer) == removed && servers != [] && servers[0].kind != FakeIp)
                && defaultServer == (if old(defaultServer) != removed || e == DefaultIsFakeIp then old(defaultServer)
                   else if servers == [] then null else servers[0])
                && (e != DefaultIsFakeIp ==>
                      if DependentsOf(old(dependByTag), tag) != []
                          then e == DependedBy(DependentsOf(old(dependByTag), tag))
                      else e == Done && dependByTag == Unregister(old(dependByTag), removed.dependencies, tag))
                && (e != Done ==> dependByTag == old(dependByTag))
      ensures old(DefaultIsReal()) ==>
                (DefaultIsReal() <==>
                   !(&& tag in old(serverByTag) && old(defaultServer) == old(serverByTag)[tag] && |old(servers)| > 1
                     && old(servers)[if old(servers)[0] == old(serverByTag)[tag] then 1 else 0].kind == FakeIp))
    {
      if tag !in serverByTag {
        return Invalid;
      }
      var removed := serverByTag[tag];
      Drop(tag);
      if defaultServer == removed {
        if |servers| > 0 {
          var next := servers[0];
          if next.kind != FakeIp {
            return DefaultIsFakeIp;
          }
          defaultServer := next;
        } else {
          defaultServer := null;
        }
      }
      var dependBy := DependentsOf(dependByTag, tag);
      if |dependBy| > 0 {
        return DependedBy(dependBy);
      }
      dependByTag := UnregisterAll(dependByTag, removed.dependencies, tag);
      return Done;
    }
  }

  lemma NoDependencies(items: seq<Item>)
    requires forall i :: 0 <= i < |items| ==> items[i].dependencies == []
    ensures Closed(items) && Acyclic(items)
  {
    assert forall a, b :: !Edge(items, a, b);
    forall p ensures !IsCycle(items, p) {
      assert |p| >= 2 ==> !Edge(items, p[0], p[1]);
    }
  }

  /** A fakeip server under the fallback's tag: every server starts, and yet the start crashes. */
  method FallbackTagTaken() returns (m: Manager, e: StartOutcome)
    ensures fresh(m) && m.Valid() && e == Ran(Crashed)
  {
    m := new Manager("");
    var fake := new Server("local", FakeIp, []);
    var fallback := new Server("local", Local, []);
    var created := m.Create("local", fake, true, true);
    assert forall i :: 0 <= i < |m.servers| ==> m.servers[i] in m.servers;
    e := m.Start(STAGE_START, fallback, t => true);
    NoDependencies(ItemsOf(m.servers));
  }

  /** Two servers, one of them fakeip: removing the default makes the fakeip server the default. */
  method DefaultBecomesFakeIp() returns (m: Manager)
    ensures fresh(m) && m.Valid() && !m.DefaultIsReal()
  {
    m := new Manager("");
    var plain := new Server("a", Plain, []);
    var fake := new Server("b", FakeIp, []);
    var e := m.Create("a", plain, true, true);
    e := m.Create("b", fake, true, true);
    assert plain in m.servers && fake in m.servers && |m.servers| > 1;
    assert m.servers[0] in m.servers && m.servers[1] in m.servers;
    assert m.servers[if m.servers[0] == plain then 1 else 0] == fake;
    e := m.Remove("a");
    assert m.serverByTag["b"] == fake;
  }
}
