/**
 Dialling with a head start for one address family: the serial dialler, the split of the
 addresses, and the race between the two families as a protocol of caller, racers and timer.
 */
module DialRace {
  import opened Basics

  datatype Addr = V4(bits4: nat) | V6(bits6: nat) | V4In6(mapped: nat) | Invalid

  /** How one dial ended. */
  datatype Outcome = Connected | Failed(error: nat)

  // ----- serial dialling -----

  datatype SerialResult = Reached(index: nat) | AllFailed(errors: seq<nat>)

  /** The addresses dialled when a destination names none is the destination itself. */
  function Targets(destination: Addr, addresses: seq<Addr>): seq<Addr>
  {
    if addresses == [] then [destination] else addresses
  }

  /** Dials the addresses in turn until one connects. */
  method DialSerial(destination: Addr, addresses: seq<Addr>, dial: Addr -> Outcome) returns (r: SerialResult)
    requires addresses == [] ==> destination != Invalid
    ensures var targets := Targets(destination, addresses);
            && (r.Reached? ==>
               r.index < |targets| && dial(targets[r.index]).Connected? && forall k :: 0 <= k < r.index ==>
               dial(targets[k]).Failed?)
            && (r.AllFailed? ==> |r.errors| == |targets| && forall k :: 0 <= k < |targets| ==>
               dial(targets[k]) == Failed(r.errors[k]))
  {
    var targets := Targets(destination, addresses);
    var errors := [];
    for i := 0 to |targets|
      invariant |errors| == i
      invariant forall k :: 0 <= k < i ==> dial(targets[k]) == Failed(errors[k])
    {
      var outcome := dial(targets[i]);
      if outcome.Connected? {
        return Reached(i);
      }
      errors := errors + [outcome.error];
    }
    return AllFailed(errors);
  }

  // ----- splitting the addresses -----

  predicate IsFour(a: Addr)
  {
    a.V4? || a.V4In6?
  }

  predicate IsSix(a: Addr)
  {
    a.V6?
  }

  function Fours(addresses: seq<Addr>): (r: seq<Addr>)
    ensures forall a :: a in r <==> a in addresses && IsFour(a)
  {
    if addresses == [] then []
    else
      assert addresses == [addresses[0]] + addresses[1..];
      if IsFour(addresses[0]) then [addresses[0]] + Fours(addresses[1..]) else Fours(addresses[1..])
  }

  function Sixes(addresses: seq<Addr>): (r: seq<Addr>)
    ensures forall a :: a in r <==> a in addresses && IsSix(a)
  {
    if addresses == [] then []
    else
      assert addresses == [addresses[0]] + addresses[1..];
      if IsSix(addresses[0]) then [addresses[0]] + Sixes(addresses[1..]) else Sixes(addresses[1..])
  }

  datatype Plan = OneFamily(targets: seq<Addr>) | TwoFamilies(primaries: seq<Addr>, fallbacks: seq<Addr>)

  function PlanDial(destination: Addr, addresses: seq<Addr>, preferIPv6: bool): Plan
  {
    var targets := Targets(destination, addresses);
    var four, six := Fours(targets), Sixes(targets);
    if four == [] || six == [] then OneFamily(targets)
    else if preferIPv6 then TwoFamilies(six, four)
    else TwoFamilies(four, six)
  }

  /** Every valid address falls to exactly one family, as often as it is given. */
  lemma {:induction false} FamiliesCoverAddresses(addresses: seq<Addr>)
    ensures forall a :: multiset(Fours(addresses))[a] + multiset(Sixes(addresses))[a] == if a == Invalid then 0
              else multiset(addresses)[a]
  {
    if addresses != [] {
      FamiliesCoverAddresses(addresses[1..]);
      assert addresses == [addresses[0]] + addresses[1..];
    }
  }

  predicate IsPreferred(a: Addr, preferIPv6: bool)
  {
    if preferIPv6 then IsSix(a) else IsFour(a)
  }

  /**
   There is a race exactly when both families are there; the preferred one is the primary, each
   valid address is dialled by exactly one racer, and without a race all are dialled in turn.
   */
  lemma PlanCoversAddresses(destination: Addr, addresses: seq<Addr>, preferIPv6: bool)
    ensures var targets := Targets(destination, addresses);
            var plan := PlanDial(destination, addresses, preferIPv6);
            && (plan.TwoFamilies? <==>
               (exists a :: a in targets && IsFour(a)) && (exists a :: a in targets && IsSix(a)))
            && (plan.OneFamily? ==> plan.targets == targets)
            && (plan.TwoFamilies? ==>
                  && plan.primaries != [] && plan.fallbacks != []
                  && (forall a :: a in plan.primaries <==> a in targets && a != Invalid && IsPreferred(a, preferIPv6))
                  && (forall a :: a in plan.fallbacks <==> a in targets && a != Invalid && !IsPreferred(a, preferIPv6))
                  && (forall a :: multiset(plan.primaries)[a] + multiset(plan.fallbacks)[a] == if a == Invalid then 0
                     else multiset(targets)[a]))
  {
    var targets := Targets(destination, addresses);
    FamiliesCoverAddresses(targets);
    if Fours(targets) != [] {
      assert Fours(targets)[0] in targets && IsFour(Fours(targets)[0]);
    }
    if Sixes(targets) != [] {
      assert Sixes(targets)[0] in targets && IsSix(Sixes(targets)[0]);
    }
  }

  // ----- the race -----

  datatype Family = Primary | Fallback

  datatype Conn = Conn(family: Family, index: nat)

  datatype RaceResult = Won(conn: Conn) | Lost(errors: seq<nat>)

  datatype Phase = Idle | Dialing | Offering | Delivered | Withdrawn

  /** A racer, the outcomes of its dials in the order of its addresses, and how often it closed its connection. */
  datatype Racer = Racer(phase: Phase, log: seq<Outcome>, closings: nat)

  /** `forced` marks a timer that was rearmed at once because the primary family failed. */
  datatype Timer = Armed(forced: bool) | Fired | Spent

  datatype Caller = Selecting | Returned(result: RaceResult)

  /** `elapsed` and `fallbackStarts` record history: the delay has passed, and how many fallback racers were started. */
  datatype State = State(
    primary: Racer,
    fallback: Racer,
    timer: Timer,
    caller: Caller,
    elapsed: bool,
    fallbackStarts: nat)

  /** How many addresses each family has; neither is empty. */
  datatype Config = Config(primaries: nat, fallbacks: nat)

  ghost predicate ValidConfig(c: Config)
  {
    c.primaries > 0 && c.fallbacks > 0
  }

  function SizeOf(c: Config, f: Family): nat
  {
    if f == Primary then c.primaries else c.fallbacks
  }

  function RacerOf(s: State, f: Family): Racer
  {
    if f == Primary then s.primary else s.fallback
  }

  function WithRacer(s: State, f: Family, r: Racer): State
  {
    if f == Primary then s.(primary := r) else s.(fallback := r)
  }

  function Init(): State
  {
    State(Racer(Dialing, [], 0), Racer(Idle, [], 0), Armed(false), Selecting, false, 0)
  }

  /** The result a racer offers: the connection of its last dial, or all its errors. */
  predicate HasConn(r: Racer)
  {
    r.log != [] && r.log[|r.log| - 1].Connected?
  }

  function ConnOf(f: Family, r: Racer): Conn
    requires HasConn(r)
  {
    Conn(f, |r.log| - 1)
  }

  function ErrorsOf(log: seq<Outcome>): seq<nat>
  {
    seq(|log|, i requires 0 <= i < |log| => if log[i].Failed? then log[i].error else 0)
  }

  datatype Label =
    | DialEnds(family: Family, outcome: Outcome)
    | TimerFires
    | TimerReceived
    | ResultReceived(family: Family, drains: bool)
    | Withdraws(family: Family)

  function AfterDial(c: Config, f: Family, r: Racer, o: Outcome): Racer
  {
    var log := r.log + [o];
    if o.Connected? || |log| >= SizeOf(c, f) then Racer(Offering, log, r.closings) else Racer(Dialing, log, r.closings)
  }

  /**
   Stopping the timer when the primary family failed: a pending timer is rearmed for now; one that
   already fired is either left to be received or, where stopping drains it, rearmed as well.
   */
  function AfterStop(t: Timer, drains: bool): Timer
  {
    match t
    case Armed(_) => Armed(true)
    case Fired => if drains then Armed(true) else Fired
    case Spent => Spent
  }

  function AfterReceive(s: State, f: Family, drains: bool): State
  {
    var r := RacerOf(s, f);
    var s1 := WithRacer(s, f, r.(phase := Delivered));
    if HasConn(r) then s1.(caller := Returned(Won(ConnOf(f, r))))
    else if s1.primary.phase == Delivered && s1.fallback.phase == Delivered
        then s1.(caller := Returned(Lost(ErrorsOf(s1.primary.log))))
    else if f == Primary then s1.(timer := AfterStop(s1.timer, drains))
    else s1
  }

  /** One atomic step, when it is enabled. */
  function Next(c: Config, s: State, l: Label): Option<State>
  {
    match l
    case DialEnds(f, o) =>
      if RacerOf(s, f).phase == Dialing then Some(WithRacer(s, f, AfterDial(c, f, RacerOf(s, f), o))) else None
    case TimerFires =>
      if s.caller.Selecting? && s.timer.Armed? then Some(s.(timer := Fired, elapsed := s.elapsed || !s.timer.forced))
          else None
    case TimerReceived =>
      if s.caller.Selecting? && s.timer.Fired? then
        Some(s.(timer := Spent, fallback := Racer(Dialing, [], 0), fallbackStarts := s.fallbackStarts + 1))
      else None
    case ResultReceived(f, drains) =>
      if s.caller.Selecting? && RacerOf(s, f).phase == Offering then Some(AfterReceive(s, f, drains)) else None
    case Withdraws(f) =>
      var r := RacerOf(s, f);
      if s.caller.Returned? && r.phase == Offering then
        Some(WithRacer(s, f, r.(phase := Withdrawn, closings := r.closings + if HasConn(r) then 1 else 0)))
      else None
  }

  /** The state after a whole interleaving, when every step of it was enabled. */
  function Execute(c: Config, s: State, labels: seq<Label>): Option<State>
    decreases |labels|
  {
    if labels == [] then Some(s)
    else
      match Next(c, s, labels[0])
      case None => None
      case Some(s') => Execute(c, s', labels[1..])
  }

  // ----- what every step keeps -----

  ghost predicate AllFailedLog(log: seq<Outcome>)
  {
    forall i :: 0 <= i < |log| ==> log[i].Failed?
  }

  /** A racer dials its addresses in order and stops at the first connection or at the end. */
  ghost predicate RacerOk(c: Config, f: Family, r: Racer)
  {
    && r.closings == (if r.phase == Withdrawn && HasConn(r) then 1 else 0)
    && (r.phase == Idle ==> r.log == [])
    && (r.phase == Dialing ==> |r.log| < SizeOf(c, f) && AllFailedLog(r.log))
    && (r.phase in {Offering, Delivered, Withdrawn} ==>
          && 0 < |r.log| <= SizeOf(c, f)
          && AllFailedLog(r.log[..|r.log| - 1])
          && (!HasConn(r) ==> |r.log| == SizeOf(c, f) && AllFailedLog(r.log)))
  }

  ghost predicate ResultOk(s: State)
  {
    match s.caller
    case Selecting =>
      && (s.primary.phase == Delivered ==> !HasConn(s.primary))
      && (s.fallback.phase == Delivered ==> !HasConn(s.fallback))
      && !(s.primary.phase == Delivered && s.fallback.phase == Delivered)
      && s.primary.phase != Withdrawn && s.fallback.phase != Withdrawn
    case Returned(Won(conn)) =>
      && RacerOf(s, conn.family).phase == Delivered
      && HasConn(RacerOf(s, conn.family))
      && conn == ConnOf(conn.family, RacerOf(s, conn.family))
      && (s.primary.phase == Delivered && HasConn(s.primary) ==> conn.family == Primary)
      && (s.fallback.phase == Delivered && HasConn(s.fallback) ==> conn.family == Fallback)
    case Returned(Lost(errors)) =>
      && s.primary.phase == Delivered && !HasConn(s.primary)
      && s.fallback.phase == Delivered && !HasConn(s.fallback)
      && errors == ErrorsOf(s.primary.log)
  }

  ghost predicate Inv(c: Config, s: State)
  {
    && RacerOk(c, Primary, s.primary)
    && RacerOk(c, Fallback, s.fallback)
    && s.primary.phase != Idle
    && (s.fallback.phase == Idle <==> s.timer != Spent)
    && s.fallbackStarts == (if s.fallback.phase == Idle then 0 else 1)
    && ResultOk(s)
    && (s.timer == Armed(true) ==> s.primary.phase == Delivered)
    && (s.timer == Fired || s.timer == Spent ==> s.elapsed || s.primary.phase == Delivered)
    && (s.caller.Selecting? && s.fallback.phase == Idle && s.primary.phase == Delivered ==>
       s.timer == Armed(true) || s.timer == Fired)
  }

  lemma InitInv(c: Config)
    requires ValidConfig(c)
    ensures Inv(c, Init())
  {
  }

  lemma AfterDialOk(c: Config, f: Family, r: Racer, o: Outcome)
    requires RacerOk(c, f, r) && r.phase == Dialing
    ensures RacerOk(c, f, AfterDial(c, f, r, o))
  {
    assert (r.log + [o])[..|r.log|] == r.log;
  }

  lemma DialKeepsInv(c: Config, s: State, f: Family, o: Outcome)
    requires Inv(c, s) && RacerOf(s, f).phase == Dialing
    ensures Inv(c, WithRacer(s, f, AfterDial(c, f, RacerOf(s, f), o)))
  {
    AfterDialOk(c, f, RacerOf(s, f), o);
  }

  lemma DeliveredOk(c: Config, f: Family, r: Racer)
    requires RacerOk(c, f, r) && r.phase == Offering
    ensures RacerOk(c, f, r.(phase := Delivered))
  {
  }

  lemma PrimaryReceived(c: Config, s: State, drains: bool)
    requires Inv(c, s) && s.caller.Selecting? && s.primary.phase == Offering
    ensures Inv(c, AfterReceive(s, Primary, drains))
  {
    DeliveredOk(c, Primary, s.primary);
  }

  lemma FallbackReceived(c: Config, s: State, drains: bool)
    requires Inv(c, s) && s.caller.Selecting? && s.fallback.phase == Offering
    ensures Inv(c, AfterReceive(s, Fallback, drains))
  {
    DeliveredOk(c, Fallback, s.fallback);
  }

  lemma WithdrawKeepsInv(c: Config, s: State, f: Family)
    requires Inv(c, s) && s.caller.Returned? && RacerOf(s, f).phase == Offering
    ensures Inv(c, Next(c, s, Withdraws(f)).value)
  {
  }

  lemma NextKeepsInv(c: Config, s: State, l: Label)
    requires ValidConfig(c) && Inv(c, s) && Next(c, s, l).Some?
    ensures Inv(c, Next(c, s, l).value)
  {
    match l
    case DialEnds(f, o) => DialKeepsInv(c, s, f, o);
    case TimerFires =>
    case TimerReceived =>
    case ResultReceived(f, drains) =>
      if f == Primary {
        PrimaryReceived(c, s, drains);
      } else {
        FallbackReceived(c, s, drains);
      }
    case Withdraws(f) => WithdrawKeepsInv(c, s, f);
  }

  lemma {:induction false} RunKeepsInv(c: Config, s: State, labels: seq<Label>)
    requires ValidConfig(c) && Inv(c, s) && Execute(c, s, labels).Some?
    ensures Inv(c, Execute(c, s, labels).value)
    decreases |labels|
  {
    if labels != [] {
      NextKeepsInv(c, s, labels[0]);
      RunKeepsInv(c, Next(c, s, labels[0]).value, labels[1..]);
    }
  }

  // ----- the promises of the race -----

  /** A racer has opened a connection. */
  ghost predicate Opened(s: State, conn: Conn)
  {
    var r := RacerOf(s, conn.family);
    r.phase != Idle && HasConn(r) && conn == ConnOf(conn.family, r)
  }

  /**
   In every interleaving at most one fallback racer starts, every connection opened is the one
   returned, is closed exactly once, or is still held by a racer that can close it; a racer without
   a connection closes nothing.
   */
  lemma ConnectionsAreAccountedFor(c: Config, labels: seq<Label>, conn: Conn)
    requires ValidConfig(c) && Execute(c, Init(), labels).Some?
    ensures var s := Execute(c, Init(), labels).value;
            && s.fallbackStarts <= 1
            && (Opened(s, conn) ==>
                  var returned := s.caller == Returned(Won(conn));
                  var closings := RacerOf(s, conn.family).closings;
                  if RacerOf(s, conn.family).phase == Offering then !returned && closings == 0
                  else if returned then closings == 0
                  else closings == 1)
            && (!Opened(s, conn) ==> s.caller != Returned(Won(conn)))
            && (forall f :: !HasConn(RacerOf(s, f)) ==> RacerOf(s, f).closings == 0)
  {
    InitInv(c);
    RunKeepsInv(c, Init(), labels);
  }

  /**
   An error is returned only after every address of both families was dialled and failed, and it
   is the primary family's list of errors.
   */
  lemma ErrorMeansEverythingFailed(c: Config, labels: seq<Label>)
    requires ValidConfig(c) && Execute(c, Init(), labels).Some? && Execute(c, Init(), labels).value.caller.Returned?
    ensures var s := Execute(c, Init(), labels).value;
            s.caller.result.Lost? ==>
              && |s.primary.log| == c.primaries && |s.fallback.log| == c.fallbacks
              && AllFailedLog(s.primary.log) && AllFailedLog(s.fallback.log)
              && |s.caller.result.errors| == c.primaries
              && forall i :: 0 <= i < c.primaries ==> s.primary.log[i] == Failed(s.caller.result.errors[i])
    ensures var s := Execute(c, Init(), labels).value;
            s.caller.result.Won? ==>
              var conn := s.caller.result.conn;
              var log := RacerOf(s, conn.family).log;
              conn.index < |log| <= SizeOf(c, conn.family) && log[conn.index].Connected?
                  && forall i :: 0 <= i < conn.index ==> log[i].Failed?
  {
    InitInv(c);
    RunKeepsInv(c, Init(), labels);
  }

  /** The race of a plan with two families. */
  function ConfigOf(plan: Plan): Config
    requires plan.TwoFamilies?
  {
    Config(|plan.primaries|, |plan.fallbacks|)
  }

  function AddressesOf(plan: Plan, f: Family): seq<Addr>
    requires plan.TwoFamilies?
  {
    if f == Primary then plan.primaries else plan.fallbacks
  }

  /** Entry `k` of a racer's log is how its dial of its address number `k` ended. */
  ghost predicate Dialled(plan: Plan, s: State, f: Family, k: nat, a: Addr)
    requires plan.TwoFamilies?
  {
    k < |AddressesOf(plan, f)| && k < |RacerOf(s, f).log| && AddressesOf(plan, f)[k] == a
  }

  /**
   Said of the destination: when the race of its plan returns an error, every valid address of it
   was dialled and that dial failed; when it returns a connection, it is to one of its addresses,
   whose dial succeeded.
   */
  lemma EveryAddressWasDialled(destination: Addr, addresses: seq<Addr>, preferIPv6: bool, labels: seq<Label>)
    requires PlanDial(destination, addresses, preferIPv6).TwoFamilies?
    requires var c := ConfigOf(PlanDial(destination, addresses, preferIPv6));
             Execute(c, Init(), labels).Some? && Execute(c, Init(), labels).value.caller.Returned?
    ensures var plan := PlanDial(destination, addresses, preferIPv6);
            var s := Execute(ConfigOf(plan), Init(), labels).value;
            && (s.caller.result.Lost? ==>
                  forall a :: a in Targets(destination, addresses) && a != Invalid ==>
                    exists f, k: nat :: Dialled(plan, s, f, k, a) && RacerOf(s, f).log[k].Failed?)
            && (s.caller.result.Won? ==>
                  var conn := s.caller.result.conn;
                  exists a :: a in Targets(destination, addresses) && a != Invalid
                              && Dialled(plan, s, conn.family, conn.index, a)
                                 && RacerOf(s, conn.family).log[conn.index].Connected?)
  {
    var plan := PlanDial(destination, addresses, preferIPv6);
    var c := ConfigOf(plan);
    var s := Execute(c, Init(), labels).value;
    PlanCoversAddresses(destination, addresses, preferIPv6);
    ErrorMeansEverythingFailed(c, labels);
    if s.caller.result.Lost? {
      forall a | a in Targets(destination, addresses) && a != Invalid
        ensures exists f, k: nat :: Dialled(plan, s, f, k, a) && RacerOf(s, f).log[k].Failed?
      {
        DialledAndFailed(plan, s, a);
      }
    } else {
      var conn := s.caller.result.conn;
      var a := AddressesOf(plan, conn.family)[conn.index];
      assert a in AddressesOf(plan, conn.family);
      assert Dialled(plan, s, conn.family, conn.index, a);
    }
  }

  lemma DialledAndFailed(plan: Plan, s: State, a: Addr)
    requires plan.TwoFamilies? && (a in plan.primaries || a in plan.fallbacks)
    requires |s.primary.log| == |plan.primaries| && AllFailedLog(s.primary.log)
    requires |s.fallback.log| == |plan.fallbacks| && AllFailedLog(s.fallback.log)
    ensures exists f, k: nat :: Dialled(plan, s, f, k, a) && RacerOf(s, f).log[k].Failed?
  {
    var f := if a in plan.primaries then Primary else Fallback;
    var k: nat :| k < |AddressesOf(plan, f)| && AddressesOf(plan, f)[k] == a;
    assert Dialled(plan, s, f, k, a);
  }

  /** The fallback family starts only once the delay has passed or the primary family has failed. */
  lemma FallbackWaitsItsTurn(c: Config, labels: seq<Label>, l: Label)
    requires ValidConfig(c) && Execute(c, Init(), labels).Some?
    ensures var s := Execute(c, Init(), labels).value;
            Next(c, s, l).Some? && Next(c, s, l).value.fallback.phase != Idle && s.fallback.phase == Idle ==>
              s.elapsed || (s.primary.phase == Delivered && AllFailedLog(s.primary.log)
                  && |s.primary.log| == c.primaries)
  {
    InitInv(c);
    RunKeepsInv(c, Init(), labels);
  }

  // ----- every race ends -----

  ghost function RacerRank(c: Config, f: Family, r: Racer): nat
  {
    match r.phase
    case Idle => SizeOf(c, f) + 3
    case Dialing => if |r.log| <= SizeOf(c, f) then SizeOf(c, f) - |r.log| + 2 else 2
    case Offering => 2
    case _ => 0
  }

  ghost function Rank(c: Config, s: State): nat
  {
    RacerRank(c, Primary, s.primary) + RacerRank(c, Fallback,
        s.fallback) + (match s.timer case Armed(_) => 2 case Fired => 1 case Spent => 0)
  }

  /** Every step brings the race closer to its end. */
  lemma StepsRunOut(c: Config, s: State, l: Label)
    requires ValidConfig(c) && Inv(c, s) && Next(c, s, l).Some?
    ensures Rank(c, Next(c, s, l).value) < Rank(c, s)
  {
  }

  /** No interleaving is longer than the number of addresses allows. */
  lemma {:induction false} RunsAreBounded(c: Config, s: State, labels: seq<Label>)
    requires ValidConfig(c) && Inv(c, s) && Execute(c, s, labels).Some?
    ensures |labels| + Rank(c, Execute(c, s, labels).value) <= Rank(c, s)
    decreases |labels|
  {
    if labels != [] {
      NextKeepsInv(c, s, labels[0]);
      StepsRunOut(c, s, labels[0]);
      RunsAreBounded(c, Next(c, s, labels[0]).value, labels[1..]);
    }
  }

  /** Nothing more can happen. */
  ghost predicate Finished(c: Config, s: State)
  {
    forall l :: Next(c, s, l).None?
  }

  /**
   A race that can go no further has returned, left no racer dialling or blocked, and settled
   every connection: the one returned is open, every other one was closed exactly once.
   */
  lemma FinishedRaceIsClean(c: Config, labels: seq<Label>)
    requires ValidConfig(c) && Execute(c, Init(), labels).Some? && Finished(c, Execute(c, Init(), labels).value)
    ensures |labels| <= c.primaries + c.fallbacks + 7
    ensures var s := Execute(c, Init(), labels).value;
            && s.caller.Returned?
            && s.primary.phase in {Delivered, Withdrawn}
            && s.fallback.phase in {Idle, Delivered, Withdrawn}
            && forall conn :: Opened(s, conn) && s.caller != Returned(Won(conn)) ==>
               RacerOf(s, conn.family).closings == 1
  {
    InitInv(c);
    RunKeepsInv(c, Init(), labels);
    RunsAreBounded(c, Init(), labels);
    var s := Execute(c, Init(), labels).value;
    assert Next(c, s, DialEnds(Primary, Connected)).None?;
    assert Next(c, s, DialEnds(Fallback, Connected)).None?;
    assert Next(c, s, ResultReceived(Primary, false)).None?;
    assert Next(c, s, ResultReceived(Fallback, false)).None?;
    assert Next(c, s, Withdraws(Primary)).None?;
    assert Next(c, s, Withdraws(Fallback)).None?;
    assert Next(c, s, TimerFires).None?;
    assert Next(c, s, TimerReceived).None?;
    forall conn | Opened(s, conn) && s.caller != Returned(Won(conn)) ensures RacerOf(s, conn.family).closings == 1 {
      ConnectionsAreAccountedFor(c, labels, conn);
    }
  }
}
