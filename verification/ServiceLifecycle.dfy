/**
 The daemon's service: one mutex, one status, one current instance, and any number of calls
 that start or reload it, close it, report an error or read it. A reload lets go of the mutex
 while it closes the old instance and again while the new one starts.

 A call is a thread; a step runs from one place where others may interleave to the next.
 */
module ServiceLifecycle {
  import opened Basics

  type Tid = nat
  type Instance = nat

  datatype Status = Idle | Starting | Started | Stopping | Fatal

  datatype Outcome = Ok | Invalid | Failed | NilDereference

  datatype Pc =
    | ReloadEnters
    | ReloadCloses(former: Instance)               // mutex released, its Close() to be called
    | ReloadReenters                            // old closed, mutex wanted
    | ReloadBuilds                              // mutex held, newInstance to be called
    | ReloadStarts(built: Instance)             // mutex released, Start() to return
    | ReloadFinishes(built: Instance, ok: bool) // mutex wanted for the last time
    | CloseEnters
    | CloseCloses(former: Instance)                // mutex held, Close() to be called
    | ErrorEnters
    | ReaderEnters(startedOnly: bool)
    | ReaderReads(startedOnly: bool)            // read lock held, status accepted
    | Done(outcome: Outcome)

  /** `balance` counts acquisitions less releases of the mutex by this call. */
  datatype Thread = Thread(pc: Pc, balance: int)

  /** Instances are numbered as they are created; `closed` have had Close called, `started` have had Start succeed. */
  datatype World = World(
    status: Status,
    instance: Option<Instance>,
    writer: Option<Tid>,
    readers: set<Tid>,
    threads: map<Tid, Thread>,
    created: nat,
    closed: set<Instance>,
    started: set<Instance>)

  const INITIAL := World(Idle, None, None, {}, map[], 0, {}, {})

  /** A call begins, or thread `t` takes its next step; `ok` says how the call it makes out of the service ends. */
  datatype Act = Call(t: Tid, entry: Pc) | Step(t: Tid, ok: bool)

  predicate IsEntry(pc: Pc)
  {
    pc.ReloadEnters? || pc.CloseEnters? || pc.ErrorEnters? || pc.ReaderEnters?
  }

  predicate WantsMutex(pc: Pc)
  {
    pc.ReloadEnters? || pc.ReloadReenters? || pc.ReloadFinishes? || pc.CloseEnters? || pc.ErrorEnters?
  }

  predicate Enabled(w: World, t: Tid)
  {
    && t in w.threads
    && var pc := w.threads[t].pc;
    if WantsMutex(pc) then w.writer.None? && w.readers == {}
    else if pc.ReaderEnters? then w.writer.None?
    else !pc.Done?
  }

  predicate Possible(w: World, a: Act)
  {
    match a
    case Call(t, entry) => t !in w.threads && IsEntry(entry)
    case Step(t, _) => Enabled(w, t)
  }

  function Goto(w: World, t: Tid, pc: Pc, change: int): map<Tid, Thread>
    requires t in w.threads
  {
    w.threads[t := Thread(pc, w.threads[t].balance + change)]
  }

  // ----- writers -----

  function Acquire(w: World, t: Tid): World
    requires t in w.threads
  {
    w.(writer := Some(t), threads := Goto(w, t, w.threads[t].pc, 1))
  }

  /** The mutex is let go and the thread goes on at `pc`. */
  function Release(w: World, t: Tid, pc: Pc): World
    requires t in w.threads
  {
    w.(writer := None, threads := Goto(w, t, pc, -1))
  }

  /** An error is reported with the mutex held, and lets go of it. */
  function Fail(w: World, t: Tid): World
    requires t in w.threads
  {
    Release(w.(status := Fatal), t, Done(Failed))
  }

  function EnterReload(w: World, t: Tid): World
    requires t in w.threads
  {
    var m := Acquire(w, t);
    if m.status == Stopping then Release(m, t, Done(Invalid))
    else if m.instance.Some? then Release(m.(status := Stopping), t, ReloadCloses(m.instance.value))
    else m.(status := Starting, threads := Goto(m, t, ReloadBuilds, 0))
  }

  function ReenterReload(w: World, t: Tid): World
    requires t in w.threads
  {
    var m := Acquire(w, t);
    m.(status := Starting, threads := Goto(m, t, ReloadBuilds, 0))
  }

  function FinishBuild(w: World, t: Tid, ok: bool): World
    requires t in w.threads
  {
    if ok then Release(w.(instance := Some(w.created), created := w.created + 1), t, ReloadStarts(w.created))
    else Fail(w, t)
  }

  function FinishReload(w: World, t: Tid, ok: bool): World
    requires t in w.threads
  {
    var m := Acquire(w, t);
    if m.status != Starting then Release(m, t, Done(Ok))
    else if !ok then Fail(m, t)
    else Release(m.(status := Started), t, Done(Ok))
  }

  function EnterClose(w: World, t: Tid): World
    requires t in w.threads
  {
    var m := Acquire(w, t);
    if m.status != Starting && m.status != Started then Release(m, t, Done(Invalid))
    else if m.instance.None? then Release(m.(status := Idle), t, Done(Ok))
    else m.(status := Stopping, instance := None, threads := Goto(m, t, CloseCloses(m.instance.value), 0))
  }

  function FinishClose(w: World, t: Tid, former: Instance, ok: bool): World
    requires t in w.threads
  {
    var m := w.(closed := w.closed + {former});
    if ok then Release(m.(status := Idle), t, Done(Ok)) else Fail(m, t)
  }

  // ----- readers -----

  predicate Accepts(startedOnly: bool, status: Status)
  {
    status == Started || (!startedOnly && status == Starting)
  }

  function ReleaseRead(w: World, t: Tid, outcome: Outcome): World
    requires t in w.threads
  {
    w.(readers := w.readers - {t}, threads := Goto(w, t, Done(outcome), -1))
  }

  function EnterReader(w: World, t: Tid, startedOnly: bool): World
    requires t in w.threads
  {
    var m := w.(readers := w.readers + {t}, threads := Goto(w, t, ReaderReads(startedOnly), 1));
    if Accepts(startedOnly, m.status) then m else ReleaseRead(m, t, Invalid)
  }

  function Read(w: World, t: Tid): World
    requires t in w.threads
  {
    ReleaseRead(w, t, if w.instance.Some? then Ok else NilDereference)
  }

  function After(w: World, a: Act): World
    requires Possible(w, a)
  {
    if a.Call? then w.(threads := w.threads[a.t := Thread(a.entry, 0)])
    else
      var t := a.t;
      match w.threads[t].pc
      case ReloadEnters => EnterReload(w, t)
      case ReloadCloses(former) => w.(closed := w.closed + {former}, threads := Goto(w, t, ReloadReenters, 0))
      case ReloadReenters => ReenterReload(w, t)
      case ReloadBuilds => FinishBuild(w, t, a.ok)
      case ReloadStarts(built) =>
        w.(started := if a.ok then w.started + {built}
            else w.started, threads := Goto(w, t, ReloadFinishes(built, a.ok), 0))
      case ReloadFinishes(_, ok) => FinishReload(w, t, ok)
      case CloseEnters => EnterClose(w, t)
      case CloseCloses(former) => FinishClose(w, t, former, a.ok)
      case ErrorEnters => Fail(Acquire(w, t), t)
      case ReaderEnters(startedOnly) => EnterReader(w, t, startedOnly)
      case ReaderReads(_) => Read(w, t)
      case Done(_) => w
  }

  ghost predicate PossibleRun(acts: seq<Act>)
    decreases |acts|, 0
  {
    acts == [] || (PossibleRun(acts[..|acts| - 1]) && Possible(Run(acts[..|acts| - 1]), acts[|acts| - 1]))
  }

  ghost function Run(acts: seq<Act>): World
    requires PossibleRun(acts)
    decreases |acts|, 1
  {
    if acts == [] then INITIAL else After(Run(acts[..|acts| - 1]), acts[|acts| - 1])
  }

  // ----- any number of calls at once -----

  predicate HoldsMutex(pc: Pc)
  {
    pc.ReloadBuilds? || pc.CloseCloses?
  }

  ghost predicate ThreadLocks(w: World, t: Tid)
    requires t in w.threads
  {
    var Thread(pc, balance) := w.threads[t];
    && (w.writer == Some(t) <==> HoldsMutex(pc))
    && (t in w.readers <==> pc.ReaderReads?)
    && balance == (if HoldsMutex(pc) || pc.ReaderReads? then 1 else 0)
    && (pc.ReaderReads? ==> Accepts(pc.startedOnly, w.status))
    && pc != Done(NilDereference)
  }

  ghost predicate Locked(w: World)
  {
    && (forall t :: t in w.threads ==> ThreadLocks(w, t))
    && (w.writer.Some? ==> w.writer.value in w.threads && w.readers == {})
    && w.readers <= w.threads.Keys
    && (w.writer.None? && (w.status == Starting || w.status == Started) ==> w.instance.Some?)
  }

  /** Steps of different threads meet only in the shared fields. */
  lemma OthersKeep(w: World, w': World, t: Tid)
    requires Locked(w) && t in w'.threads && w'.threads - {t} == w.threads - {t}
    requires w'.writer == w.writer || (w.writer.None? && w'.writer == Some(t))
             || (w.writer == Some(t) && w'.writer.None?)
    requires w'.readers - {t} == w.readers - {t}
    requires w'.status == w.status || w.readers == {}
    requires ThreadLocks(w', t)
    ensures forall u :: u in w'.threads ==> ThreadLocks(w', u)
  {
    forall u | u in w'.threads ensures ThreadLocks(w', u) {
      if u != t {
        assert u in w'.threads - {t} && u in w.threads - {t};
        assert w'.threads[u] == (w'.threads - {t})[u] == (w.threads - {t})[u] == w.threads[u];
        assert ThreadLocks(w, u);
        assert u in w'.readers <==> u in w'.readers - {t};
        assert u in w.readers <==> u in w.readers - {t};
      }
    }
  }

  lemma StepperLocks(w: World, a: Act)
    requires Locked(w) && Possible(w, a)
    ensures ThreadLocks(After(w, a), a.t)
  {
    if a.Step? {
      assert ThreadLocks(w, a.t);
    } else {
      assert a.t !in w.readers;
    }
  }

  lemma StepperAlone(w: World, a: Act)
    requires Locked(w) && Possible(w, a)
    ensures var w' := After(w, a);
            && w'.threads - {a.t} == w.threads - {a.t}
            && w'.readers - {a.t} == w.readers - {a.t}
            && (w'.writer == w.writer || (w.writer.None? && w'.writer == Some(a.t))
               || (w.writer == Some(a.t) && w'.writer.None?))
            && (w'.status == w.status || w.readers == {})
  {
    if a.Step? {
      assert ThreadLocks(w, a.t);
    }
  }

  lemma ActKeepsLocked(w: World, a: Act)
    requires Locked(w) && Possible(w, a)
    ensures Locked(After(w, a))
  {
    StepperLocks(w, a);
    StepperAlone(w, a);
    OthersKeep(w, After(w, a), a.t);
    if a.Step? {
      assert ThreadLocks(w, a.t);
    }
  }

  /**
   In every run: each call holds the mutex or the read lock only where its code says so and has
   released it once for each time it took it, a finished call holds nothing, and while no writer
   is inside, STARTING or STARTED means there is an instance; so no reader finds none.
   */
  lemma {:induction false} LocksAreBalanced(acts: seq<Act>)
    requires PossibleRun(acts)
    ensures Locked(Run(acts))
    decreases |acts|
  {
    if acts != [] {
      LocksAreBalanced(acts[..|acts| - 1]);
      ActKeepsLocked(Run(acts[..|acts| - 1]), acts[|acts| - 1]);
    }
  }

  /** Read out for one call: nothing held at the end, and no nil instance met on the way. */
  lemma FinishedCallsHoldNothing(acts: seq<Act>, t: Tid)
    requires PossibleRun(acts) && t in Run(acts).threads && Run(acts).threads[t].pc.Done?
    ensures var w := Run(acts);
            && w.threads[t].balance == 0 && w.writer != Some(t) && t !in w.readers
            && w.threads[t].pc.outcome != NilDereference
  {
    LocksAreBalanced(acts);
    assert ThreadLocks(Run(acts), t);
  }

  /** The mutex is never stuck: whenever some call is unfinished, some thread can step. */
  lemma NoDeadlock(acts: seq<Act>, t: Tid)
    requires PossibleRun(acts) && t in Run(acts).threads && !Run(acts).threads[t].pc.Done?
    ensures exists u :: Enabled(Run(acts), u)
  {
    LocksAreBalanced(acts);
    var w := Run(acts);
    if w.writer.Some? {
      assert ThreadLocks(w, w.writer.value);
      assert Enabled(w, w.writer.value);
    } else if w.readers != {} {
      var r :| r in w.readers;
      assert ThreadLocks(w, r);
      assert Enabled(w, r);
    } else {
      assert Enabled(w, t);
    }
  }

  // ----- reloads one at a time -----

  predicate InReload(pc: Pc)
  {
    pc.ReloadEnters? || pc.ReloadCloses? || pc.ReloadReenters? || pc.ReloadBuilds? || pc.ReloadStarts?
        || pc.ReloadFinishes?
  }

  /** The caller starts a reload only when no other is under way. */
  ghost predicate Serial(w: World, a: Act)
  {
    a.Call? && a.entry.ReloadEnters? ==> forall u :: u in w.threads ==> !InReload(w.threads[u].pc)
  }

  ghost predicate SerialRun(acts: seq<Act>)
    requires PossibleRun(acts)
    decreases |acts|
  {
    acts == [] || (SerialRun(acts[..|acts| - 1]) && Serial(Run(acts[..|acts| - 1]), acts[|acts| - 1]))
  }

  /** What the one reload under way knows. */
  ghost predicate ReloadKnows(w: World, t: Tid)
    requires t in w.threads
  {
    match w.threads[t].pc
    case ReloadCloses(former) => w.instance == Some(former) && (w.status == Stopping || w.status == Fatal)
    case ReloadReenters => w.instance.Some? && w.instance.value in w.closed
        && (w.status == Stopping || w.status == Fatal)
    case ReloadBuilds => (w.instance.Some? ==> w.instance.value in w.closed) && w.status == Starting
    case ReloadStarts(built) => w.status != Started && (w.status == Starting ==> w.instance == Some(built))
    case ReloadFinishes(built, ok) =>
      && w.status != Started
      && (w.status == Starting ==> w.instance == Some(built))
      && (ok ==> built in w.started)
    case CloseCloses(_) => w.status == Stopping && w.instance.None?
    case _ => true
  }

  ghost predicate Accounted(w: World, i: Instance)
  {
    i in w.closed || w.instance == Some(i)
        || (w.writer.Some? && w.writer.value in w.threads && w.threads[w.writer.value].pc == CloseCloses(i))
  }

  ghost predicate Tidy(w: World)
  {
    && (forall t :: t in w.threads ==> ReloadKnows(w, t))
    && (forall t, u :: t in w.threads && u in w.threads && InReload(w.threads[t].pc) && InReload(w.threads[u].pc) ==>
       t == u)
    && (forall i :: 0 <= i < w.created ==> Accounted(w, i))
    && (w.status == Started ==> w.instance.Some? && w.instance.value in w.started)
  }

  lemma OneReload(w: World, a: Act)
    requires Tidy(w) && Possible(w, a) && Serial(w, a)
    ensures var w' := After(w, a);
            forall t, u ::
              t in w'.threads && u in w'.threads && InReload(w'.threads[t].pc) && InReload(w'.threads[u].pc) ==> t == u
  {
    var w' := After(w, a);
    forall t | t in w'.threads && t != a.t ensures t in w.threads && w.threads[t] == w'.threads[t] {
    }
    if a.Step? && InReload(w'.threads[a.t].pc) {
      assert InReload(w.threads[a.t].pc);
    }
  }

  lemma InstancesAccounted(w: World, a: Act)
    requires Locked(w) && Tidy(w) && Possible(w, a)
    ensures var w' := After(w, a); forall i :: 0 <= i < w'.created ==> Accounted(w', i)
  {
    var w' := After(w, a);
    if a.Step? {
      assert ThreadLocks(w, a.t) && ReloadKnows(w, a.t);
    }
    forall i | 0 <= i < w'.created ensures Accounted(w', i) {
      if i < w.created {
        assert Accounted(w, i);
      }
    }
  }

  lemma StepperKnows(w: World, a: Act)
    requires Locked(w) && Tidy(w) && Possible(w, a)
    ensures ReloadKnows(After(w, a), a.t)
  {
    if a.Step? {
      assert ThreadLocks(w, a.t) && ReloadKnows(w, a.t);
    }
  }

  lemma BystanderKnows(w: World, a: Act, u: Tid)
    requires Locked(w) && Tidy(w) && Possible(w, a) && u in w.threads && u != a.t
    ensures ReloadKnows(After(w, a), u)
  {
    assert ReloadKnows(w, u) && ThreadLocks(w, u);
    if a.Step? {
      assert ReloadKnows(w, a.t) && ThreadLocks(w, a.t);
      assert InReload(w.threads[a.t].pc) ==> !InReload(w.threads[u].pc);
    }
  }

  lemma ActKeepsTidy(w: World, a: Act)
    requires Locked(w) && Tidy(w) && Possible(w, a) && Serial(w, a)
    ensures Tidy(After(w, a))
  {
    var w' := After(w, a);
    OneReload(w, a);
    InstancesAccounted(w, a);
    StepperKnows(w, a);
    forall u | u in w'.threads ensures ReloadKnows(w', u) {
      if u != a.t {
        BystanderKnows(w, a, u);
      }
    }
    if a.Step? {
      assert ReloadKnows(w, a.t);
    }
  }

  /**
   With reloads one at a time, whatever closes and errors come between: every instance ever
   created is the current one, has had Close called, or is the one the mutex holder is about to
   close; and STARTED means the current instance's Start succeeded.
   */
  lemma {:induction false} SerialReloadsStayTidy(acts: seq<Act>)
    requires PossibleRun(acts) && SerialRun(acts)
    ensures Tidy(Run(acts))
    decreases |acts|
  {
    if acts != [] {
      var before := acts[..|acts| - 1];
      SerialReloadsStayTidy(before);
      LocksAreBalanced(before);
      ActKeepsTidy(Run(before), acts[|acts| - 1]);
    }
  }

  /** With the mutex free, nothing but the current instance is still open. */
  lemma OnlyTheCurrentInstanceIsOpen(acts: seq<Act>)
    requires PossibleRun(acts) && SerialRun(acts) && Run(acts).writer.None?
    ensures var w := Run(acts);
            && (forall i :: 0 <= i < w.created && w.instance != Some(i) ==> i in w.closed)
            && (w.status == Started ==> w.instance.Some? && w.instance.value in w.started)
  {
    SerialReloadsStayTidy(acts);
    var w := Run(acts);
    forall i | 0 <= i < w.created && w.instance != Some(i) ensures i in w.closed {
      assert Accounted(w, i);
    }
  }

  // ----- reloads that overlap -----

  /** STARTED is accurate: there is a current instance, and its Start succeeded. */
  ghost predicate Honest(w: World)
  {
    w.status == Started ==> w.instance.Some? && w.instance.value in w.started
  }

  /** No instance is lost sight of. */
  ghost predicate AllAccounted(w: World)
  {
    forall i :: 0 <= i < w.created ==> Accounted(w, i)
  }

  /**
   The current instance was created, the holder of the mutex has set the status, and a reload that reports a start has
   had it.
   */
  ghost predicate Settled(w: World)
  {
    && (w.instance.Some? ==> w.instance.value < w.created)
    && (forall t :: t in w.threads ==> SettledThread(w, w.threads[t].pc))
  }

  ghost predicate SettledThread(w: World, pc: Pc)
  {
    && (pc.ReloadBuilds? ==> w.status == Starting)
    && (pc.CloseCloses? ==> w.status == Stopping)
    && (pc.ReloadFinishes? && pc.ok ==> pc.built in w.started)
  }

  lemma ActKeepsSettled(w: World, a: Act)
    requires Locked(w) && Settled(w) && Possible(w, a)
    ensures Settled(After(w, a))
  {
    var w' := After(w, a);
    if a.Step? {
      assert ThreadLocks(w, a.t);
    }
    forall u | u in w'.threads ensures SettledThread(w', w'.threads[u].pc) {
      if u != a.t {
        assert ThreadLocks(w, u) && SettledThread(w, w.threads[u].pc) && w'.threads[u] == w.threads[u];
      }
    }
  }

  lemma {:induction false} RunsAreSettled(acts: seq<Act>)
    requires PossibleRun(acts)
    ensures Settled(Run(acts))
    decreases |acts|
  {
    if acts != [] {
      var before := acts[..|acts| - 1];
      RunsAreSettled(before);
      LocksAreBalanced(before);
      ActKeepsSettled(Run(before), acts[|acts| - 1]);
    }
  }

  /** A reload that did start finds STARTING, yet the current instance is another one that has not started. */
  ghost predicate TakesForeignStart(w: World, a: Act)
  {
    && a.Step? && a.t in w.threads
    && w.threads[a.t].pc.ReloadFinishes? && w.threads[a.t].pc.ok
    && w.status == Starting && !(w.instance.Some? && w.instance.value in w.started)
  }

  /** A new instance takes the place of one that nobody has closed. */
  ghost predicate DropsOpenInstance(w: World, a: Act)
  {
    && a.Step? && a.t in w.threads
    && w.threads[a.t].pc.ReloadBuilds? && a.ok
    && w.instance.Some? && w.instance.value !in w.closed
  }

  /** One step makes STARTED inaccurate exactly when it takes another reload's STARTING for its own. */
  lemma StepStaysHonestExactly(w: World, a: Act)
    requires Locked(w) && Settled(w) && Possible(w, a) && Honest(w)
    ensures Honest(After(w, a)) <==> !TakesForeignStart(w, a)
    ensures TakesForeignStart(w, a) ==> w.instance != Some(w.threads[a.t].pc.built)
  {
    if a.Step? {
      assert ThreadLocks(w, a.t) && SettledThread(w, w.threads[a.t].pc);
    }
  }

  /** One step loses an instance exactly when it replaces an open one. */
  lemma StepAccountsExactly(w: World, a: Act)
    requires Locked(w) && Settled(w) && Possible(w, a) && AllAccounted(w)
    ensures AllAccounted(After(w, a)) <==> !DropsOpenInstance(w, a)
  {
    var w' := After(w, a);
    if a.Step? {
      assert ThreadLocks(w, a.t);
    }
    if DropsOpenInstance(w, a) {
      assert !Accounted(w', w.instance.value);
    } else {
      forall i | 0 <= i < w'.created ensures Accounted(w', i) {
        if i < w.created {
          assert Accounted(w, i);
        }
      }
    }
  }

  ghost predicate HonestThroughout(acts: seq<Act>)
    requires PossibleRun(acts)
    decreases |acts|
  {
    Honest(Run(acts)) && (acts == [] || HonestThroughout(acts[..|acts| - 1]))
  }

  ghost predicate NoForeignStart(acts: seq<Act>)
    requires PossibleRun(acts)
    decreases |acts|
  {
    acts == [] || (NoForeignStart(acts[..|acts| - 1]) && !TakesForeignStart(Run(acts[..|acts| - 1]), acts[|acts| - 1]))
  }

  ghost predicate AccountedThroughout(acts: seq<Act>)
    requires PossibleRun(acts)
    decreases |acts|
  {
    AllAccounted(Run(acts)) && (acts == [] || AccountedThroughout(acts[..|acts| - 1]))
  }

  ghost predicate NoOpenDrop(acts: seq<Act>)
    requires PossibleRun(acts)
    decreases |acts|
  {
    acts == [] || (NoOpenDrop(acts[..|acts| - 1]) && !DropsOpenInstance(Run(acts[..|acts| - 1]), acts[|acts| - 1]))
  }

  /**
   For every run, with reloads overlapping in any way: STARTED is accurate throughout if and only if
   no reload ever ends by taking another one's STARTING for its own, and no instance is ever lost
   sight of if and only if none is replaced while it is open.
   */
  lemma {:induction false} OverlapsExactly(acts: seq<Act>)
    requires PossibleRun(acts)
    ensures HonestThroughout(acts) <==> NoForeignStart(acts)
    ensures AccountedThroughout(acts) <==> NoOpenDrop(acts)
    decreases |acts|
  {
    if acts != [] {
      var before := acts[..|acts| - 1];
      OverlapsExactly(before);
      LocksAreBalanced(before);
      RunsAreSettled(before);
      if Honest(Run(before)) {
        StepStaysHonestExactly(Run(before), acts[|acts| - 1]);
      }
      if AllAccounted(Run(before)) {
        StepAccountsExactly(Run(before), acts[|acts| - 1]);
      }
    }
  }

  /** With one reload at a time neither ever happens. */
  lemma {:induction false} SerialRunsDoNeither(acts: seq<Act>)
    requires PossibleRun(acts) && SerialRun(acts)
    ensures NoForeignStart(acts) && NoOpenDrop(acts)
    decreases |acts|
  {
    if acts != [] {
      var before := acts[..|acts| - 1];
      SerialRunsDoNeither(before);
      SerialReloadsStayTidy(before);
      var a := acts[|acts| - 1];
      if a.Step? {
        assert ReloadKnows(Run(before), a.t);
      }
    }
  }

  lemma OneMore(acts: seq<Act>, a: Act)
    requires PossibleRun(acts) && Possible(Run(acts), a)
    ensures PossibleRun(acts + [a]) && Run(acts + [a]) == After(Run(acts), a)
  {
    assert (acts + [a])[..|acts|] == acts;
  }

  ghost function Plus(acts: seq<Act>, t: Tid): seq<Act>
  {
    acts + [Step(t, true)]
  }

  lemma FirstReloadIsStarting() returns (acts: seq<Act>)
    ensures PossibleRun(acts)
            && Run(acts) == World(Starting, Some(0), None, {}, map[0 := Thread(ReloadStarts(0), 0)], 1, {}, {})
  {
    acts := [Call(0, ReloadEnters)];
    OneMore([], acts[0]);
    assert [] + acts == acts;
    OneMore(acts, Step(0, true));
    acts := Plus(acts, 0);
    OneMore(acts, Step(0, true));
    acts := Plus(acts, 0);
  }

  lemma SecondReloadIsClosing() returns (acts: seq<Act>)
    ensures PossibleRun(acts)
    ensures Run(acts) == World(Stopping, Some(0), None, {},
              map[0 := Thread(ReloadStarts(0), 0), 1 := Thread(ReloadCloses(0), 0)], 1, {}, {})
  {
    acts := FirstReloadIsStarting();
    OneMore(acts, Call(1, ReloadEnters));
    acts := acts + [Call(1, ReloadEnters)];
    OneMore(acts, Step(1, true));
    acts := Plus(acts, 1);
  }

  lemma SecondReloadIsBuilding() returns (acts: seq<Act>)
    ensures PossibleRun(acts)
    ensures Run(acts) == World(Starting, Some(0), Some(1), {},
              map[0 := Thread(ReloadStarts(0), 0), 1 := Thread(ReloadBuilds, 1)], 1, {0}, {})
  {
    acts := SecondReloadIsClosing();
    OneMore(acts, Step(1, true));
    acts := Plus(acts, 1);
    OneMore(acts, Step(1, true));
    acts := Plus(acts, 1);
  }

  lemma SecondReloadIsStarting() returns (acts: seq<Act>)
    ensures PossibleRun(acts)
    ensures Run(acts) == World(Starting, Some(1), None, {},
              map[0 := Thread(ReloadStarts(0), 0), 1 := Thread(ReloadStarts(1), 0)], 2, {0}, {})
  {
    acts := SecondReloadIsBuilding();
    OneMore(acts, Step(1, true));
    acts := Plus(acts, 1);
  }

  /** Two reloads at once: the first one's last section takes the second one's STARTING for its own. */
  lemma OverlappingReloadsMisreport()
    ensures exists acts :: PossibleRun(acts) && Run(acts).status == Started
                           && Run(acts).instance == Some(1) && 1 !in Run(acts).started
  {
    var acts := SecondReloadIsStarting();
    OneMore(acts, Step(0, true));
    acts := Plus(acts, 0);
    OneMore(acts, Step(0, true));
    acts := Plus(acts, 0);
    assert Run(acts).status == Started;
  }

  const THIRD := map[0 := Thread(ReloadStarts(0), 0), 2 := Thread(Done(Failed), 0)]

  lemma SecondReloadHasClosed() returns (acts: seq<Act>)
    ensures PossibleRun(acts)
    ensures Run(acts) == World(Stopping, Some(0), None, {},
              map[0 := Thread(ReloadStarts(0), 0), 1 := Thread(ReloadReenters, 0)], 1, {0}, {})
  {
    acts := SecondReloadIsClosing();
    OneMore(acts, Step(1, true));
    acts := Plus(acts, 1);
  }

  lemma ErrorReopensTheDoor() returns (acts: seq<Act>)
    ensures PossibleRun(acts)
            && Run(acts) == World(Fatal, Some(0), None, {}, THIRD[1 := Thread(ReloadReenters, 0)], 1, {0}, {})
  {
    acts := SecondReloadHasClosed();
    OneMore(acts, Call(2, ErrorEnters));
    acts := acts + [Call(2, ErrorEnters)];
    OneMore(acts, Step(2, true));
    acts := Plus(acts, 2);
  }

  lemma ThirdReloadIsClosing() returns (acts: seq<Act>)
    ensures PossibleRun(acts)
    ensures Run(acts) == World(Stopping, Some(0), None, {},
              THIRD[1 := Thread(ReloadReenters, 0)][3 := Thread(ReloadCloses(0), 0)], 1, {0}, {})
  {
    acts := ErrorReopensTheDoor();
    OneMore(acts, Call(3, ReloadEnters));
    acts := acts + [Call(3, ReloadEnters)];
    OneMore(acts, Step(3, true));
    acts := Plus(acts, 3);
  }

  lemma ThirdReloadComesIn() returns (acts: seq<Act>)
    ensures PossibleRun(acts)
    ensures Run(acts) == World(Stopping, Some(0), None, {},
              THIRD[1 := Thread(ReloadReenters, 0)][3 := Thread(ReloadReenters, 0)], 1, {0}, {})
  {
    acts := ThirdReloadIsClosing();
    OneMore(acts, Step(3, true));
    acts := Plus(acts, 3);
  }

  lemma SecondReloadGoesAhead() returns (acts: seq<Act>)
    ensures PossibleRun(acts)
    ensures Run(acts) == World(Starting, Some(1), None, {},
              THIRD[1 := Thread(ReloadStarts(1), 0)][3 := Thread(ReloadReenters, 0)], 2, {0}, {})
  {
    acts := ThirdReloadComesIn();
    OneMore(acts, Step(1, true));
    acts := Plus(acts, 1);
    OneMore(acts, Step(1, true));
    acts := Plus(acts, 1);
  }

  /**
   Two reloads past their closing, let in by an error between them: the second one's instance replaces the first one's,
   which nobody closes.
   */
  lemma OverlappingReloadsLoseAnInstance()
    ensures exists acts :: PossibleRun(acts) && Run(acts).created > 1 && !Accounted(Run(acts), 1)
  {
    var acts := SecondReloadGoesAhead();
    OneMore(acts, Step(3, true));
    acts := Plus(acts, 3);
    OneMore(acts, Step(3, true));
    acts := Plus(acts, 3);
    assert Run(acts).created > 1 && !Accounted(Run(acts), 1);
  }
}
