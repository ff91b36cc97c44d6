/**
 The new-mode interpreter of DNS rules.  It walks the list once, accumulating options,
 keeping the latest evaluated response, and ends in an answer, a routed query or an error.
 */
module DnsExchange {
  import opened Basics
  import opened DnsRule
  import opened DnsBuild

  /** One query handed to the DNS client; `check` is the rule whose address limit vets the reply. */
  datatype Query = Query(transport: Transport, options: QueryOptions, check: Option<nat>)

  datatype Reply = Answered(response: Response) | Failed | Rejected

  /**
   The surroundings of a run.  Matching and the upstream servers are arbitrary; a reply
   may depend on every query sent before it.
   */
  datatype Env = Env(
    table: TransportTable,
    fallback: Transport,
    strategy: Strategy,
    matches: (RuntimeRule, Option<Response>) -> bool,
    preMatches: RuntimeRule -> bool,
    addressLimited: RuntimeRule -> bool,
    upstream: (seq<Query>, Query) -> Reply)

  type Apply = (QueryOptions, RouteOptions) -> QueryOptions

  /** Applies all five fields of an action. */
  function ApplyAll(o: QueryOptions, r: RouteOptions): QueryOptions
  {
    QueryOptions(
      if r.strategy != AsIs then r.strategy else o.strategy,
      o.lookupStrategy,
      o.disableCache || r.disableCache,
      o.disableOptimisticCache || r.disableOptimisticCache,
      if r.rewriteTtl.Some? then r.rewriteTtl else o.rewriteTtl,
      if r.clientSubnet.Some? then r.clientSubnet else o.clientSubnet)
  }

  /** What the new mode applies: everything but the strategy. */
  function ApplyNew(o: QueryOptions, r: RouteOptions): QueryOptions
  {
    var o := if r.disableCache then o.(disableCache := true) else o;
    var o := if r.disableOptimisticCache then o.(disableOptimisticCache := true) else o;
    var o := if r.rewriteTtl.Some? then o.(rewriteTtl := r.rewriteTtl) else o;
    if r.clientSubnet.Some? then o.(clientSubnet := r.clientSubnet) else o
  }

  function WithDefaultStrategy(o: QueryOptions, default: Strategy): QueryOptions
  {
    if o.strategy == AsIs then o.(strategy := default) else o
  }

  // ----- one rule, then the list -----

  datatype Evaluation = Evaluation(response: Response, transport: Transport)

  function ResponseOf(e: Option<Evaluation>): Option<Response>
  {
    if e.Some? then Some(e.value.response) else None
  }

  /** What a rule the walk went past did. */
  datatype Event =
    | Passed
    | OptionsChanged
    | Evaluated(query: Query, reply: Reply)
    | EvaluateLost
    | RouteLost
    | RouteSkipped
    | Ignored

  datatype Ending =
    | Responded(response: Response, transport: Transport)
    | NoResponse
    | Routed(query: Query, reply: Reply)
    | Refused
    | Dropped
    | Fixed(response: Response)

  /** One event per rule passed, the ending, and all queries sent so far. */
  datatype Trace = Trace(events: seq<Event>, ending: Ending, history: seq<Query>)

  datatype State = State(options: QueryOptions, evaluated: Option<Evaluation>, history: seq<Query>)

  datatype StepResult = Continue(state: State, event: Event) | Stop(ending: Ending, history: seq<Query>)

  function Send(env: Env, history: seq<Query>, transport: Transport, options: QueryOptions): (Query, Reply)
  {
    var q := Query(transport, WithDefaultStrategy(options, env.strategy), None);
    (q, env.upstream(history, q))
  }

  function EvaluationOf(q: Query, r: Reply): Option<Evaluation>
  {
    if r.Answered? then Some(Evaluation(r.response, q.transport)) else None
  }

  function RouteQueryOptions(apply: Apply, o: QueryOptions, r: RouteOptions, transport: Transport): QueryOptions
  {
    var applied := apply(o, r);
    if transport.kind == FakeIp then applied.(disableCache := true) else applied
  }

  function StepRule(env: Env, apply: Apply, rule: RuntimeRule, st: State, allowFakeIp: bool): StepResult
  {
    if !env.matches(rule, ResponseOf(st.evaluated)) then Continue(st, Passed)
    else
      match rule.action
      case NilAction => Continue(st, Ignored)
      case ChangeOptions(o) => Continue(st.(options := apply(st.options, o)), OptionsChanged)
      case EvaluateWith(server, o) =>
        if server !in env.table then Continue(st.(evaluated := None), EvaluateLost)
        else
          var (q, r) := Send(env, st.history, env.table[server], apply(st.options, o));
          Continue(State(st.options, EvaluationOf(q, r), st.history + [q]), Evaluated(q, r))
      case RespondNow =>
        if st.evaluated.None? then Stop(NoResponse, st.history)
        else Stop(Responded(st.evaluated.value.response, st.evaluated.value.transport), st.history)
      case RouteTo(server, o) =>
        if server !in env.table then Continue(st, RouteLost)
        else if env.table[server].kind == FakeIp && !allowFakeIp then Continue(st, RouteSkipped)
        else
          var (q, r) := Send(env, st.history, env.table[server],
              RouteQueryOptions(apply, st.options, o, env.table[server]));
          Stop(Routed(q, r), st.history + [q])
      case RejectQuery(m) =>
        (match m
         case RejectDefault => Stop(Refused, st.history)
         case RejectDrop => Stop(Dropped, st.history)
         case RejectReply => Continue(st, Ignored))
      case Answer(response) => Stop(Fixed(response), st.history)
  }

  function Fallback(env: Env, st: State): Trace
  {
    var (q, r) := Send(env, st.history, env.fallback, st.options);
    Trace([], Routed(q, r), st.history + [q])
  }

  function Prepend(e: seq<Event>, t: Trace): Trace
  {
    t.(events := e + t.events)
  }

  function Run(env: Env, apply: Apply, rules: seq<RuntimeRule>, i: nat, st: State, allowFakeIp: bool): Trace
    requires i <= |rules|
    decreases |rules| - i
  {
    if i == |rules| then Fallback(env, st)
    else
      match StepRule(env, apply, rules[i], st, allowFakeIp)
      case Stop(ending, history) => Trace([], ending, history)
      case Continue(st', e) => Prepend([e], Run(env, apply, rules, i + 1, st', allowFakeIp))
  }

  method ApplyDnsRouteOptions(options: QueryOptions, route: RouteOptions) returns (o: QueryOptions)
    ensures o == ApplyNew(options, route)
    ensures route.strategy == AsIs ==> o == ApplyAll(options, route)
  {
    o := options;
    if route.disableCache {
      o := o.(disableCache := true);
    }
    if route.disableOptimisticCache {
      o := o.(disableOptimisticCache := true);
    }
    if route.rewriteTtl.Some? {
      o := o.(rewriteTtl := route.rewriteTtl);
    }
    if route.clientSubnet.Some? {
      o := o.(clientSubnet := route.clientSubnet);
    }
  }

  method ExchangeWithRules(env: Env, rules: seq<RuntimeRule>, options: QueryOptions, allowFakeIp: bool,
      history: seq<Query>) returns (t: Trace)
    ensures t == Run(env, ApplyNew, rules, 0, State(options, None, history), allowFakeIp)
  {
    var effective := options;
    var evaluated: Option<Evaluation> := None;
    var sent := history;
    var events: seq<Event> := [];
    ghost var whole := Run(env, ApplyNew, rules, 0, State(options, None, history), allowFakeIp);
    for i := 0 to |rules|
      invariant |events| == i
      invariant whole == Prepend(events, Run(env, ApplyNew, rules, i, State(effective, evaluated, sent), allowFakeIp))
    {
      ghost var st := State(effective, evaluated, sent);
      ghost var before := events;
      var rule := rules[i];
      if !env.matches(rule, ResponseOf(evaluated)) {
        events := events + [Passed];
      } else {
        match rule.action
        case NilAction =>
          events := events + [Ignored];
        case ChangeOptions(o) =>
          effective := ApplyDnsRouteOptions(effective, o);
          events := events + [OptionsChanged];
        case EvaluateWith(server, o) =>
          if server !in env.table {
            evaluated := None;
            events := events + [EvaluateLost];
          } else {
            var queryOptions := ApplyDnsRouteOptions(effective, o);
            var (q, r) := Send(env, sent, env.table[server], queryOptions);
            sent := sent + [q];
            evaluated := EvaluationOf(q, r);
            events := events + [Evaluated(q, r)];
          }
        case RespondNow =>
          if evaluated.None? {
            return Trace(events, NoResponse, sent);
          }
          return Trace(events, Responded(evaluated.value.response, evaluated.value.transport), sent);
        case RouteTo(server, o) =>
          if server !in env.table {
            events := events + [RouteLost];
          } else if env.table[server].kind == FakeIp && !allowFakeIp {
            events := events + [RouteSkipped];
          } else {
            var queryOptions := ApplyDnsRouteOptions(effective, o);
            if env.table[server].kind == FakeIp {
              queryOptions := queryOptions.(disableCache := true);
            }
            var (q, r) := Send(env, sent, env.table[server], queryOptions);
            return Trace(events, Routed(q, r), sent + [q]);
          }
        case RejectQuery(m) =>
          if m == RejectDefault {
            return Trace(events, Refused, sent);
          } else if m == RejectDrop {
            return Trace(events, Dropped, sent);
          }
          events := events + [Ignored];
        case Answer(response) =>
          return Trace(events, Fixed(response), sent);
      }
      PrependTwice(before, events[i], Run(env, ApplyNew, rules, i + 1, State(effective, evaluated, sent), allowFakeIp));
    }
    var (q, r) := Send(env, sent, env.fallback, effective);
    return Trace(events, Routed(q, r), sent + [q]);
  }

  lemma PrependTwice(before: seq<Event>, e: Event, t: Trace)
    ensures Prepend(before, Prepend([e], t)) == Prepend(before + [e], t)
  {
    assert before + ([e] + t.events) == (before + [e]) + t.events;
  }

  // ----- dropping the strategy loses nothing -----

  lemma {:induction false} NewModeAppliesAllFields(env: Env, rules: seq<RuntimeRule>, i: nat, st: State,
      allowFakeIp: bool)
    requires i <= |rules|
    requires forall k :: 0 <= k < |rules| ==> OptionsOf(rules[k].action).strategy == AsIs
    ensures Run(env, ApplyNew, rules, i, st, allowFakeIp) == Run(env, ApplyAll, rules, i, st, allowFakeIp)
    decreases |rules| - i
  {
    if i < |rules| {
      assert OptionsOf(rules[i].action).strategy == AsIs;
      var step := StepRule(env, ApplyAll, rules[i], st, allowFakeIp);
      assert step == StepRule(env, ApplyNew, rules[i], st, allowFakeIp);
      if step.Continue? {
        NewModeAppliesAllFields(env, rules, i + 1, step.state, allowFakeIp);
      }
    }
  }
}
