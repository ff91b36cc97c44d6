/**
 Queries for one question over one transport, at once: the per-key lock that lets one of them ask
 upstream while the others wait for it, and the background refresh of a stale entry.

 A query is a thread; the channel it puts into the lock map is named after it. A step runs from one
 place where others may interleave to the next.
 */
module SingleFlight {
  import opened Basics

  type Tid = nat

  datatype Load = Fresh | Stale | Missing

  datatype Pc =
    | Peeks                       // a lookup reads the cache before it queries
    | Enters                      // about to load or store its channel in the lock map
    | Waits(on: Tid)              // for that thread's channel
    | Loads(holder: bool)         // about to read the cache
    | Queries(holder: bool)       // upstream
    | Leaves(holder: bool)        // a holder is about to delete the map entry
    | Closes                      // a holder is about to close its channel
    | Done
    | Refreshes                   // a background refresh, upstream
    | RefreshEnds                 // about to delete its mark

  /**
   `asked` counts the thread's upstream queries, `sawFresh` says its read under or after the lock found a fresh entry.
   */
  datatype Thread = Thread(pc: Pc, asked: nat, sawFresh: bool, acceptsStale: bool)

  datatype World = World(
    lock: Option<Tid>,
    refresh: Option<Tid>,
    expireAt: Option<int>,
    now: int,
    closes: map<Tid, nat>,
    threads: map<Tid, Thread>)

  datatype Config = Config(disableExpire: bool, optimistic: nat)

  const EMPTY := World(None, None, None, 0, map[], map[])

  datatype Act =
    | Call(t: Tid, lookup: bool, acceptsStale: bool)
    | Step(t: Tid, spawned: Tid, stores: Option<int>, refused: bool)
    | Cancel(t: Tid)
    | Elapse(time: nat)
    | Evict

  function Read(cfg: Config, w: World): Load
  {
    if w.expireAt.None? then Missing
    else if cfg.disableExpire || w.now <= w.expireAt.value then Fresh
    else if w.now < w.expireAt.value + cfg.optimistic then Stale
    else Missing
  }

  predicate IsClosed(w: World, c: Tid)
  {
    c in w.closes && w.closes[c] > 0
  }

  predicate Possible(w: World, a: Act)
  {
    match a
    case Call(t, _, _) => t !in w.threads
    case Step(t, spawned, _, _) =>
      && t in w.threads
      && !w.threads[t].pc.Done?
      && (w.threads[t].pc.Waits? ==> IsClosed(w, w.threads[t].pc.on))
      && spawned !in w.threads
    case Cancel(t) => t in w.threads && w.threads[t].pc.Waits?
    case Elapse(_) => true
    case Evict => true
  }

  function Goto(w: World, t: Tid, pc: Pc): map<Tid, Thread>
    requires t in w.threads
  {
    w.threads[t := w.threads[t].(pc := pc)]
  }

  /** A refresh starts unless one is marked as under way. */
  function StartRefresh(w: World, t: Tid, pc: Pc, spawned: Tid): World
    requires t in w.threads && spawned !in w.threads
  {
    if w.refresh.Some? then w.(threads := Goto(w, t, pc))
    else w.(refresh := Some(spawned), threads := Goto(w, t, pc)[spawned := Thread(Refreshes, 0, false, false)])
  }

  /** An entry too old to serve is removed by the read that finds it. */
  function Peek(cfg: Config, w: World, t: Tid, spawned: Tid): World
    requires t in w.threads && spawned !in w.threads
  {
    match Read(cfg, w)
    case Fresh => w.(threads := Goto(w, t, Done))
    case Stale => if w.threads[t].acceptsStale then StartRefresh(w, t, Done, spawned)
        else w.(threads := Goto(w, t, Enters))
    case Missing => w.(expireAt := None, threads := Goto(w, t, Enters))
  }

  function Enter(w: World, t: Tid): World
    requires t in w.threads
  {
    if w.lock.Some? then w.(threads := Goto(w, t, Waits(w.lock.value)))
    else w.(lock := Some(t), closes := w.closes[t := 0], threads := Goto(w, t, Loads(true)))
  }

  function LoadStep(cfg: Config, w: World, t: Tid, holder: bool, spawned: Tid): World
    requires t in w.threads && spawned !in w.threads
  {
    match Read(cfg, w)
    case Fresh => w.(threads := w.threads[t := w.threads[t].(pc := Leaves(holder), sawFresh := true)])
    case Stale =>
      if w.threads[t].acceptsStale then StartRefresh(w, t, Leaves(holder), spawned)
      else w.(threads := Goto(w, t, Queries(holder)))
    case Missing => w.(expireAt := None, threads := Goto(w, t, Queries(holder)))
  }

  function Stored(w: World, stores: Option<int>): Option<int>
  {
    if stores.Some? then stores else w.expireAt
  }

  /** A query that is refused as a loop or a known rejection asks nobody. */
  function QueryStep(w: World, t: Tid, holder: bool, stores: Option<int>, refused: bool): World
    requires t in w.threads
  {
    if refused then w.(threads := Goto(w, t, Leaves(holder)))
    else w.(expireAt := Stored(w, stores),
            threads := w.threads[t := w.threads[t].(pc := Leaves(holder), asked := w.threads[t].asked + 1)])
  }

  function CloseChannel(w: World, t: Tid): World
    requires t in w.threads
  {
    w.(closes := w.closes[t := (if t in w.closes then w.closes[t] else 0) + 1], threads := Goto(w, t, Done))
  }

  function Leave(w: World, t: Tid, holder: bool): World
    requires t in w.threads
  {
    if holder then w.(lock := None, threads := Goto(w, t, Closes)) else w.(threads := Goto(w, t, Done))
  }

  function Advance(cfg: Config, w: World, t: Tid, spawned: Tid, stores: Option<int>, refused: bool): World
    requires t in w.threads && spawned !in w.threads
  {
    match w.threads[t].pc
    case Peeks => Peek(cfg, w, t, spawned)
    case Enters => Enter(w, t)
    case Waits(_) => w.(threads := Goto(w, t, Loads(false)))
    case Loads(holder) => LoadStep(cfg, w, t, holder, spawned)
    case Queries(holder) => QueryStep(w, t, holder, stores, refused)
    case Leaves(holder) => Leave(w, t, holder)
    case Closes => CloseChannel(w, t)
    case Refreshes => w.(expireAt := Stored(w, stores), threads := Goto(w, t, RefreshEnds))
    case RefreshEnds => w.(refresh := None, threads := Goto(w, t, Done))
    case Done => w
  }

  function After(cfg: Config, w: World, a: Act): World
    requires Possible(w, a)
  {
    match a
    case Call(t, lookup, acceptsStale) =>
      w.(threads := w.threads[t := Thread(if lookup then Peeks else Enters, 0, false, acceptsStale)])
    case Cancel(t) => w.(threads := Goto(w, t, Done))
    case Elapse(time) => w.(now := w.now + time)
    case Evict => w.(expireAt := None)
    case Step(t, spawned, stores, refused) => Advance(cfg, w, t, spawned, stores, refused)
  }

  ghost predicate PossibleRun(cfg: Config, acts: seq<Act>)
    decreases |acts|, 0
  {
    acts == [] || (PossibleRun(cfg, acts[..|acts| - 1]) && Possible(Run(cfg, acts[..|acts| - 1]), acts[|acts| - 1]))
  }

  ghost function Run(cfg: Config, acts: seq<Act>): World
    requires PossibleRun(cfg, acts)
    decreases |acts|, 1
  {
    if acts == [] then EMPTY else After(cfg, Run(cfg, acts[..|acts| - 1]), acts[|acts| - 1])
  }

  // ----- what every run keeps -----

  /** The thread's channel is the one in the lock map. */
  predicate Holds(pc: Pc)
  {
    match pc
    case Loads(holder) => holder
    case Queries(holder) => holder
    case Leaves(holder) => holder
    case _ => false
  }

  /** Whoever waits on the thread's channel will see it closed. */
  predicate WillClose(pc: Pc)
  {
    Holds(pc) || pc.Closes?
  }

  predicate InRefresh(pc: Pc)
  {
    pc.Refreshes? || pc.RefreshEnds?
  }

  ghost predicate ThreadOk(w: World, t: Tid)
    requires t in w.threads
  {
    var th := w.threads[t];
    && (w.lock == Some(t) <==> Holds(th.pc))
    && (w.refresh == Some(t) <==> InRefresh(th.pc))
    && (WillClose(th.pc) ==> t in w.closes && w.closes[t] == 0)
    && (t in w.closes ==> w.closes[t] == if WillClose(th.pc) then 0 else 1)
    && (t in w.closes && !WillClose(th.pc) ==> th.pc.Done?)
    && (th.pc.Waits? ==> th.pc.on in w.closes)
    && (th.sawFresh ==> th.asked == 0 && (th.pc.Leaves? || th.pc.Closes? || th.pc.Done?))
    && (th.pc.Peeks? || th.pc.Enters? || th.pc.Waits? || th.pc.Loads? || th.pc.Queries? ==> th.asked == 0)
    && th.asked <= 1
  }

  ghost predicate Ok(w: World)
  {
    && (forall t :: t in w.threads ==> ThreadOk(w, t))
    && w.closes.Keys <= w.threads.Keys
    && (w.lock.Some? ==> w.lock.value in w.threads)
    && (w.refresh.Some? ==> w.refresh.value in w.threads)
  }

  /** `c` goes from free to `who`, from `who` to free, or stays. */
  ghost predicate TakenOrFreed(c: Option<Tid>, c': Option<Tid>, who: Tid)
  {
    c' == c || (c.None? && c' == Some(who)) || (c == Some(who) && c'.None?)
  }

  /** All that one thread's step can change of what concerns the others. */
  ghost predicate StepsAlone(w: World, w': World, t: Tid)
  {
    && t in w.threads && t in w'.threads
    && w'.closes - {t} == w.closes - {t}
    && (t in w.closes ==> t in w'.closes && w.closes[t] <= w'.closes[t])
    && TakenOrFreed(w.lock, w'.lock, t)
    && TakenOrFreed(w.refresh, w'.refresh, t)
    && w'.threads - {t} == w.threads - {t}
  }

  lemma Others(w: World, w': World, t: Tid, u: Tid)
    requires Ok(w) && StepsAlone(w, w', t) && u in w.threads && u != t
    ensures u in w'.threads && w'.threads[u] == w.threads[u] && ThreadOk(w', u)
  {
    assert ThreadOk(w, u);
    assert u in w.closes <==> u in w.closes - {t};
    assert u in w'.closes <==> u in w'.closes - {t};
    assert u in w.closes ==> (w.closes - {t})[u] == (w'.closes - {t})[u];
    SameThread(w, w', t, u);
    if w.threads[u].pc.Waits? {
      var c := w.threads[u].pc.on;
      assert c != t ==> (c in w.closes <==> c in w.closes - {t}) && (c in w'.closes <==> c in w'.closes - {t});
    }
  }

  lemma SameThread(w: World, w': World, t: Tid, u: Tid)
    requires StepsAlone(w, w', t) && u != t
    ensures u in w'.threads <==> u in w.threads
    ensures u in w.threads ==> w'.threads[u] == w.threads[u]
  {
    assert (u in w.threads <==> u in w.threads - {t}) && (u in w'.threads <==> u in w'.threads - {t});
    assert u in w.threads ==> (w.threads - {t})[u] == (w'.threads - {t})[u];
  }

  lemma StepKeepsOk(w: World, w': World, t: Tid)
    requires Ok(w) && StepsAlone(w, w', t) && ThreadOk(w', t)
    ensures Ok(w')
  {
    forall u | u in w'.threads ensures ThreadOk(w', u) {
      if u != t {
        SameThread(w, w', t, u);
        Others(w, w', t, u);
      }
    }
    forall c | c in w'.closes ensures c in w'.threads {
      if c != t {
        assert c in w'.closes - {t};
        assert c in w.closes;
        SameThread(w, w', t, c);
      }
    }
    if w'.lock.Some? && w'.lock.value != t {
      SameThread(w, w', t, w'.lock.value);
    }
    if w'.refresh.Some? && w'.refresh.value != t {
      SameThread(w, w', t, w'.refresh.value);
    }
  }

  lemma SpawnKeepsOk(w: World, n: Tid)
    requires Ok(w) && n !in w.threads && w.refresh.None?
    ensures Ok(w.(refresh := Some(n), threads := w.threads[n := Thread(Refreshes, 0, false, false)]))
  {
    var w' := w.(refresh := Some(n), threads := w.threads[n := Thread(Refreshes, 0, false, false)]);
    forall u | u in w'.threads ensures ThreadOk(w', u) {
      if u != n {
        assert ThreadOk(w, u);
      }
    }
  }

  /** A read moves its thread on, without asking anybody. */
  lemma MoveKeepsOk(w: World, t: Tid, pc: Pc, sawFresh: bool, expireAt: Option<int>)
    requires Ok(w) && t in w.threads && !w.threads[t].sawFresh
    requires (w.threads[t].pc.Peeks? && !sawFresh && (pc.Done? || pc.Enters?))
             || (w.threads[t].pc.Loads?
                && (pc == Leaves(w.threads[t].pc.holder) || (pc == Queries(w.threads[t].pc.holder) && !sawFresh)))
    ensures Ok(w.(expireAt := expireAt, threads := w.threads[t := w.threads[t].(pc := pc, sawFresh := sawFresh)]))
  {
    assert ThreadOk(w, t);
    StepKeepsOk(w, w.(expireAt := expireAt, threads := w.threads[t := w.threads[t].(pc := pc, sawFresh := sawFresh)]),
        t);
  }

  lemma StartKeepsOk(w: World, t: Tid, pc: Pc, spawned: Tid)
    requires Ok(w) && t in w.threads && !w.threads[t].sawFresh && spawned !in w.threads
    requires (w.threads[t].pc.Peeks? && pc.Done?) || (w.threads[t].pc.Loads? && pc == Leaves(w.threads[t].pc.holder))
    ensures Ok(StartRefresh(w, t, pc, spawned))
  {
    var w' := StartRefresh(w, t, pc, spawned);
    if w.refresh.Some? {
      MoveKeepsOk(w, t, pc, false, w.expireAt);
    } else {
      SpawnKeepsOk(w, spawned);
      var between := w.(refresh := Some(spawned), threads := w.threads[spawned := Thread(Refreshes, 0, false, false)]);
      MoveKeepsOk(between, t, pc, false, w.expireAt);
      assert w'.threads == between.threads[t := between.threads[t].(pc := pc, sawFresh := false)];
    }
  }

  lemma ReadsKeepOk(cfg: Config, w: World, t: Tid, spawned: Tid)
    requires Ok(w) && t in w.threads && spawned !in w.threads && (w.threads[t].pc.Peeks? || w.threads[t].pc.Loads?)
    ensures Ok(Advance(cfg, w, t, spawned, None, false))
  {
    assert ThreadOk(w, t);
    var pc := w.threads[t].pc;
    var done := if pc.Peeks? then Done else Leaves(pc.holder);
    var missed := if pc.Peeks? then Enters else Queries(pc.holder);
    match Read(cfg, w)
    case Fresh => MoveKeepsOk(w, t, done, pc.Loads?, w.expireAt);
    case Missing => MoveKeepsOk(w, t, missed, false, None);
    case Stale =>
      if w.threads[t].acceptsStale {
        StartKeepsOk(w, t, done, spawned);
      } else {
        MoveKeepsOk(w, t, missed, false, w.expireAt);
      }
  }

  lemma EnterKeepsOk(w: World, t: Tid)
    requires Ok(w) && t in w.threads && w.threads[t].pc.Enters?
    ensures Ok(Enter(w, t))
  {
    assert ThreadOk(w, t);
    if w.lock.Some? {
      assert ThreadOk(w, w.lock.value);
    }
    StepKeepsOk(w, Enter(w, t), t);
  }

  lemma LeaveKeepsOk(w: World, t: Tid, holder: bool)
    requires Ok(w) && t in w.threads && w.threads[t].pc == Leaves(holder)
    ensures Ok(Leave(w, t, holder))
  {
    assert ThreadOk(w, t);
    StepKeepsOk(w, Leave(w, t, holder), t);
  }

  lemma CloseKeepsOk(w: World, t: Tid)
    requires Ok(w) && t in w.threads && w.threads[t].pc.Closes?
    ensures Ok(CloseChannel(w, t))
  {
    assert ThreadOk(w, t);
    StepKeepsOk(w, CloseChannel(w, t), t);
  }

  lemma OtherStepsKeepOk(cfg: Config, w: World, t: Tid, spawned: Tid, stores: Option<int>, refused: bool)
    requires Ok(w) && t in w.threads && spawned !in w.threads
    requires w.threads[t].pc.Waits? || w.threads[t].pc.Queries? || InRefresh(w.threads[t].pc)
    ensures Ok(Advance(cfg, w, t, spawned, stores, refused))
  {
    assert ThreadOk(w, t);
    StepKeepsOk(w, Advance(cfg, w, t, spawned, stores, refused), t);
  }

  lemma CallKeepsOk(w: World, t: Tid, th: Thread)
    requires Ok(w) && t !in w.threads && (th.pc.Peeks? || th.pc.Enters?) && th.asked == 0 && !th.sawFresh
    ensures Ok(w.(threads := w.threads[t := th]))
  {
    var w' := w.(threads := w.threads[t := th]);
    forall u | u in w'.threads ensures ThreadOk(w', u) {
      if u != t {
        assert ThreadOk(w, u);
      }
    }
  }

  lemma CancelKeepsOk(w: World, t: Tid)
    requires Ok(w) && t in w.threads && w.threads[t].pc.Waits?
    ensures Ok(w.(threads := Goto(w, t, Done)))
  {
    assert ThreadOk(w, t);
    StepKeepsOk(w, w.(threads := Goto(w, t, Done)), t);
  }

  lemma ClockKeepsOk(w: World, expireAt: Option<int>, now: int)
    requires Ok(w)
    ensures Ok(w.(expireAt := expireAt, now := now))
  {
    var w' := w.(expireAt := expireAt, now := now);
    forall u | u in w'.threads ensures ThreadOk(w', u) {
      assert ThreadOk(w, u);
    }
  }

  lemma ActKeepsOk(cfg: Config, w: World, a: Act)
    requires Ok(w) && Possible(w, a)
    ensures Ok(After(cfg, w, a))
  {
    match a
    case Call(t, lookup, acceptsStale) => CallKeepsOk(w, t,
        Thread(if lookup then Peeks else Enters, 0, false, acceptsStale));
    case Cancel(t) => CancelKeepsOk(w, t);
    case Elapse(time) => ClockKeepsOk(w, w.expireAt, w.now + time);
    case Evict => ClockKeepsOk(w, None, w.now);
    case Step(t, spawned, stores, refused) =>
      var pc := w.threads[t].pc;
      if pc.Peeks? || pc.Loads? {
        ReadsKeepOk(cfg, w, t, spawned);
      } else if pc.Enters? {
        EnterKeepsOk(w, t);
      } else if pc.Leaves? {
        LeaveKeepsOk(w, t, pc.holder);
      } else if pc.Closes? {
        CloseKeepsOk(w, t);
      } else {
        OtherStepsKeepOk(cfg, w, t, spawned, stores, refused);
      }
  }

  lemma {:induction false} RunsAreOk(cfg: Config, acts: seq<Act>)
    requires PossibleRun(cfg, acts)
    ensures Ok(Run(cfg, acts))
    decreases |acts|
  {
    if acts != [] {
      RunsAreOk(cfg, acts[..|acts| - 1]);
      ActKeepsOk(cfg, Run(cfg, acts[..|acts| - 1]), acts[|acts| - 1]);
    }
  }

  /** In every interleaving at most one query holds the lock entry, and at most one refresh is under way. */
  lemma OneHolderOneRefresh(cfg: Config, acts: seq<Act>, t: Tid, u: Tid)
    requires PossibleRun(cfg, acts)
    requires t in Run(cfg, acts).threads && u in Run(cfg, acts).threads
    ensures Holds(Run(cfg, acts).threads[t].pc) && Holds(Run(cfg, acts).threads[u].pc) ==> t == u
    ensures InRefresh(Run(cfg, acts).threads[t].pc) && InRefresh(Run(cfg, acts).threads[u].pc) ==> t == u
  {
    RunsAreOk(cfg, acts);
    assert ThreadOk(Run(cfg, acts), t) && ThreadOk(Run(cfg, acts), u);
  }

  /** No channel is closed twice, and once its query is done it has been closed. */
  lemma ChannelsCloseOnce(cfg: Config, acts: seq<Act>, c: Tid)
    requires PossibleRun(cfg, acts) && c in Run(cfg, acts).closes
    ensures var w := Run(cfg, acts);
            && c in w.threads
            && w.closes[c] <= 1
            && (w.closes[c] == 1 <==> w.threads[c].pc.Done?)
            && (w.closes[c] == 0 <==> WillClose(w.threads[c].pc))
  {
    RunsAreOk(cfg, acts);
    assert ThreadOk(Run(cfg, acts), c);
  }

  /** A waiter's channel is closed already, or belongs to a live query that will close it. */
  lemma WaitersAreServed(cfg: Config, acts: seq<Act>, t: Tid)
    requires PossibleRun(cfg, acts) && t in Run(cfg, acts).threads && Run(cfg, acts).threads[t].pc.Waits?
    ensures var w := Run(cfg, acts);
            var owner := w.threads[t].pc.on;
            owner in w.threads && (IsClosed(w, owner) || WillClose(w.threads[owner].pc))
  {
    RunsAreOk(cfg, acts);
    assert ThreadOk(Run(cfg, acts), t);
    ChannelsCloseOnce(cfg, acts, Run(cfg, acts).threads[t].pc.on);
  }

  /** So nobody waits for ever: a waiting query can go on, or the one it waits for can. */
  lemma WaitersNeverStick(cfg: Config, acts: seq<Act>, t: Tid, spare: Tid)
    requires PossibleRun(cfg, acts) && t in Run(cfg, acts).threads && Run(cfg, acts).threads[t].pc.Waits?
    requires spare !in Run(cfg, acts).threads
    ensures var w := Run(cfg, acts);
            Possible(w, Step(t, spare, None, false)) || Possible(w, Step(w.threads[t].pc.on, spare, None, false))
  {
    WaitersAreServed(cfg, acts, t);
  }

  /** From its read of a fresh entry to the end of the run, a query asks nobody. */
  lemma FreshMeansNoQuery(cfg: Config, acts: seq<Act>, t: Tid)
    requires PossibleRun(cfg, acts) && t in Run(cfg, acts).threads && Run(cfg, acts).threads[t].sawFresh
    ensures Run(cfg, acts).threads[t].asked == 0
  {
    RunsAreOk(cfg, acts);
    assert ThreadOk(Run(cfg, acts), t);
  }

  ghost predicate Notes(threads: map<Tid, Thread>, t: Tid)
  {
    t in threads && threads[t].sawFresh
  }

  lemma ReadsKeepNotes(cfg: Config, w: World, u: Tid, spawned: Tid, t: Tid)
    requires Notes(w.threads, t) && u in w.threads && spawned !in w.threads
    ensures Notes(Peek(cfg, w, u, spawned).threads, t)
    ensures forall holder :: Notes(LoadStep(cfg, w, u, holder, spawned).threads, t)
  {
  }

  lemma StepsKeepNotes(cfg: Config, w: World, u: Tid, spawned: Tid, stores: Option<int>, refused: bool, t: Tid)
    requires Notes(w.threads, t) && u in w.threads && spawned !in w.threads
    ensures Notes(Advance(cfg, w, u, spawned, stores, refused).threads, t)
  {
    ReadsKeepNotes(cfg, w, u, spawned, t);
    assert forall pc :: Notes(Goto(w, u, pc), t);
  }

  lemma NoteKept(cfg: Config, w: World, a: Act, t: Tid)
    requires Possible(w, a) && Notes(w.threads, t)
    ensures Notes(After(cfg, w, a).threads, t)
  {
    if a.Step? {
      StepsKeepNotes(cfg, w, a.t, a.spawned, a.stores, a.refused, t);
    }
  }

  /** The note a query keeps of what it read is never lost. */
  lemma {:induction false} NotesPersist(cfg: Config, acts: seq<Act>, more: seq<Act>, t: Tid)
    requires PossibleRun(cfg, acts) && PossibleRun(cfg, acts + more)
    requires t in Run(cfg, acts).threads && Run(cfg, acts).threads[t].sawFresh
    ensures t in Run(cfg, acts + more).threads && Run(cfg, acts + more).threads[t].sawFresh
    decreases |more|
  {
    if more == [] {
      assert acts + more == acts;
    } else {
      var front := more[..|more| - 1];
      assert (acts + more)[..|acts + more| - 1] == acts + front;
      NotesPersist(cfg, acts, front, t);
      NoteKept(cfg, Run(cfg, acts + front), more[|more| - 1], t);
    }
  }

  /** A waiter that wakes to a fresh entry makes no upstream query, whatever happens after. */
  lemma WakingToFreshAsksNobody(cfg: Config, acts: seq<Act>, wake: Act, more: seq<Act>)
    requires wake.Step? && PossibleRun(cfg, acts) && PossibleRun(cfg, acts + [wake])
             && PossibleRun(cfg, acts + [wake] + more)
    requires var w := Run(cfg, acts);
             wake.t in w.threads && w.threads[wake.t].pc.Loads? && Read(cfg, w) == Fresh
    ensures wake.t in Run(cfg, acts + [wake] + more).threads
    ensures Run(cfg, acts + [wake] + more).threads[wake.t].asked == 0
  {
    assert (acts + [wake])[..|acts|] == acts;
    NotesPersist(cfg, acts + [wake], more, wake.t);
    FreshMeansNoQuery(cfg, acts + [wake] + more, wake.t);
  }
}
