/**
 What a run of the new-mode interpreter means, read off its trace: where the options of
 each query come from, which response a respond action returns, and when it has one.
 */
module DnsTrace {
  import opened Basics
  import opened DnsRule
  import opened DnsMode
  import opened DnsBuild
  import opened DnsExchange

  /** Everything a walk over the rules depends on. */
  datatype Walk = Walk(env: Env, apply: Apply, rules: seq<RuntimeRule>, base: QueryOptions, history: seq<Query>,
      allowFakeIp: bool)

  /** The whole run of a walk. */
  function Whole(w: Walk): Trace
  {
    Run(w.env, w.apply, w.rules, 0, State(w.base, None, w.history), w.allowFakeIp)
  }

  /** The options in force after some rules: only the option-changing rules that matched count. */
  function EffectiveAfter(apply: Apply, rules: seq<RuntimeRule>, events: seq<Event>, base: QueryOptions): QueryOptions
    requires |events| <= |rules|
  {
    if events == [] then base
    else
      var last := |events| - 1;
      var o := EffectiveAfter(apply, rules, events[..last], base);
      if events[last] == OptionsChanged then apply(o, OptionsOf(rules[last].action)) else o
  }

  /** The evaluation in force after some events: the last one, unless it failed. */
  function LatestEvaluation(events: seq<Event>): Option<Evaluation>
  {
    if events == [] then None
    else
      match events[|events| - 1]
      case Evaluated(q, r) => EvaluationOf(q, r)
      case EvaluateLost => None
      case _ => LatestEvaluation(events[..|events| - 1])
  }

  function QueriesOf(events: seq<Event>): seq<Query>
  {
    if events == [] then []
    else
      var e := events[|events| - 1];
      QueriesOf(events[..|events| - 1]) + (if e.Evaluated? then [e.query] else [])
  }

  /** A rule that the walk went past did what its action says, under the state its prefix implies. */
  ghost predicate EventFits(w: Walk, rule: RuntimeRule, o: QueryOptions, latest: Option<Evaluation>, e: Event)
  {
    var matched := w.env.matches(rule, ResponseOf(latest));
    var table := w.env.table;
    match e
    case Passed => !matched
    case OptionsChanged => matched && rule.action.ChangeOptions?
    case Evaluated(q, _) =>
      && matched
      && rule.action.EvaluateWith?
      && rule.action.server in table
      && q == Query(table[rule.action.server], WithDefaultStrategy(w.apply(o, rule.action.options), w.env.strategy),
         None)
    case EvaluateLost => matched && rule.action.EvaluateWith? && rule.action.server !in table
    case RouteLost => matched && rule.action.RouteTo? && rule.action.server !in table
    case RouteSkipped =>
      matched && rule.action.RouteTo? && rule.action.server in table && table[rule.action.server].kind == FakeIp
          && !w.allowFakeIp
    case Ignored => matched && (rule.action.NilAction? || rule.action == RejectQuery(RejectReply))
  }

  ghost predicate EndingFits(w: Walk, at: nat, o: QueryOptions, latest: Option<Evaluation>, ending: Ending)
    requires at <= |w.rules|
  {
    var table := w.env.table;
    if at == |w.rules|
        then ending.Routed? && ending.query == Query(w.env.fallback, WithDefaultStrategy(o, w.env.strategy), None)
    else
      && w.env.matches(w.rules[at], ResponseOf(latest))
      && match w.rules[at].action
         case RespondNow => if latest.Some? then ending == Responded(latest.value.response, latest.value.transport)
             else ending == NoResponse
         case RouteTo(server, own) =>
           && server in table
           && (table[server].kind == FakeIp ==> w.allowFakeIp)
           && ending.Routed?
           && ending.query == Query(table[server],
              WithDefaultStrategy(RouteQueryOptions(w.apply, o, own, table[server]), w.env.strategy), None)
         case RejectQuery(m) => ending == (if m == RejectDefault then Refused else Dropped) && m != RejectReply
         case Answer(response) => ending == Fixed(response)
         case _ => false
  }

  ghost predicate EventsFit(w: Walk, events: seq<Event>)
  {
    && |events| <= |w.rules|
    && forall k :: 0 <= k < |events| ==>
         EventFits(w, w.rules[k], EffectiveAfter(w.apply, w.rules, events[..k], w.base),
             LatestEvaluation(events[..k]), events[k])
  }

  /** A complete run, read rule by rule: what each rule did, how the walk ended and every query sent. */
  ghost predicate TraceFits(w: Walk, t: Trace)
  {
    && EventsFit(w, t.events)
    && EndingFits(w, |t.events|, EffectiveAfter(w.apply, w.rules, t.events, w.base), LatestEvaluation(t.events),
       t.ending)
    && t.history == w.history + QueriesOf(t.events) + (if t.ending.Routed? then [t.ending.query] else [])
  }

  /** The state a prefix of events leads to. */
  ghost function StateAfter(w: Walk, events: seq<Event>): State
    requires |events| <= |w.rules|
  {
    State(EffectiveAfter(w.apply, w.rules, events, w.base), LatestEvaluation(events), w.history + QueriesOf(events))
  }

  ghost function NextState(w: Walk, rule: RuntimeRule, st: State, e: Event): State
  {
    State(
      if e == OptionsChanged then w.apply(st.options, OptionsOf(rule.action)) else st.options,
      match e { case Evaluated(q, r) => EvaluationOf(q, r) case EvaluateLost => None case _ => st.evaluated },
      if e.Evaluated? then st.history + [e.query] else st.history)
  }

  lemma StepFits(w: Walk, rule: RuntimeRule, st: State)
    requires StepRule(w.env, w.apply, rule, st, w.allowFakeIp).Continue?
    ensures var step := StepRule(w.env, w.apply, rule, st, w.allowFakeIp);
            EventFits(w, rule, st.options, st.evaluated, step.event) && step.state == NextState(w, rule, st, step.event)
  {
  }

  lemma StateAfterOneMore(w: Walk, events: seq<Event>, e: Event)
    requires |events| < |w.rules|
    ensures StateAfter(w, events + [e]) == NextState(w, w.rules[|events|], StateAfter(w, events), e)
  {
    assert (events + [e])[..|events|] == events;
  }

  lemma EventsFitOneMore(w: Walk, events: seq<Event>, e: Event)
    requires EventsFit(w, events) && |events| < |w.rules|
    requires EventFits(w, w.rules[|events|], EffectiveAfter(w.apply, w.rules, events, w.base),
               LatestEvaluation(events), e)
    ensures EventsFit(w, events + [e])
  {
    var grown := events + [e];
    assert grown[..|events|] == events;
    forall k | 0 <= k < |grown|
      ensures EventFits(w, w.rules[k], EffectiveAfter(w.apply, w.rules, grown[..k], w.base),
                LatestEvaluation(grown[..k]), grown[k])
    {
      if k < |events| {
        assert grown[..k] == events[..k];
      }
    }
  }

  lemma RunEnds(w: Walk, events: seq<Event>)
    requires EventsFit(w, events)
    requires |events| == |w.rules|
             || StepRule(w.env, w.apply, w.rules[|events|], StateAfter(w, events), w.allowFakeIp).Stop?
    ensures TraceFits(w, Prepend(events, Run(w.env, w.apply, w.rules, |events|, StateAfter(w, events), w.allowFakeIp)))
  {
    var t := Run(w.env, w.apply, w.rules, |events|, StateAfter(w, events), w.allowFakeIp);
    assert events + t.events == events;
  }

  lemma {:induction false} RunFits(w: Walk, events: seq<Event>)
    requires EventsFit(w, events)
    ensures TraceFits(w, Prepend(events, Run(w.env, w.apply, w.rules, |events|, StateAfter(w, events), w.allowFakeIp)))
    decreases |w.rules| - |events|
  {
    var st := StateAfter(w, events);
    if |events| < |w.rules| && StepRule(w.env, w.apply, w.rules[|events|], st, w.allowFakeIp).Continue? {
      var step := StepRule(w.env, w.apply, w.rules[|events|], st, w.allowFakeIp);
      StepFits(w, w.rules[|events|], st);
      StateAfterOneMore(w, events, step.event);
      EventsFitOneMore(w, events, step.event);
      RunFits(w, events + [step.event]);
      PrependTwice(events, step.event, Run(w.env, w.apply, w.rules, |events| + 1, step.state, w.allowFakeIp));
    } else {
      RunEnds(w, events);
    }
  }

  /** Every run of the interpreter, from its first rule to its ending, reads as `TraceFits` says. */
  lemma WholeRunFits(w: Walk)
    ensures TraceFits(w, Whole(w))
  {
    assert w.history + [] == w.history;
    RunFits(w, []);
    assert [] + Whole(w).events == Whole(w).events;
  }

  // ----- the response a respond action returns -----

  predicate IsEvaluation(e: Event)
  {
    e.Evaluated? || e.EvaluateLost?
  }

  predicate IsAnswered(e: Event)
  {
    e.Evaluated? && e.reply.Answered?
  }

  /** Event `j` is the latest matching evaluate. */
  ghost predicate IsLatest(events: seq<Event>, j: int)
  {
    0 <= j < |events| && IsEvaluation(events[j]) && forall k :: j < k < |events| ==> !IsEvaluation(events[k])
  }

  lemma LatestInFront(events: seq<Event>, j: int)
    requires events != [] && !IsEvaluation(events[|events| - 1])
    ensures IsLatest(events, j) <==> IsLatest(events[..|events| - 1], j)
  {
    var front := events[..|events| - 1];
    if IsLatest(events, j) {
      assert front[j] == events[j];
    }
    if IsLatest(front, j) {
      forall k | j < k < |events| ensures !IsEvaluation(events[k]) {
        assert k < |front| ==> front[k] == events[k];
      }
    }
  }

  lemma {:induction false} LatestEvaluationIsTheLast(events: seq<Event>)
    ensures LatestEvaluation(events).Some? <==> exists j :: IsLatest(events, j) && IsAnswered(events[j])
    ensures forall j :: IsLatest(events, j) && IsAnswered(events[j]) ==>
              LatestEvaluation(events) == Some(Evaluation(events[j].reply.response, events[j].query.transport))
  {
    if events != [] {
      var last := |events| - 1;
      if IsEvaluation(events[last]) {
        assert IsLatest(events, last);
      } else {
        LatestEvaluationIsTheLast(events[..last]);
        forall j ensures IsLatest(events, j) <==> IsLatest(events[..last], j) {
          LatestInFront(events, j);
        }
      }
    }
  }

  /**
   A respond action answers with exactly the reply of the latest matching evaluate; a later
   one that failed or lost its server erases it, and then there is nothing to respond with.
   */
  lemma RespondAnswersWithLatestEvaluate(w: Walk)
    ensures var t := Whole(w);
            && (t.ending.Responded? ==>
                  exists j :: IsLatest(t.events, j) && IsAnswered(t.events[j])
                      && t.ending == Responded(t.events[j].reply.response, t.events[j].query.transport))
            && (t.ending.NoResponse? ==> forall j :: IsLatest(t.events, j) ==> !IsAnswered(t.events[j]))
            && (|t.events| < |w.rules| && w.rules[|t.events|].action.RespondNow? ==>
               t.ending.Responded? || t.ending.NoResponse?)
  {
    var t := Whole(w);
    WholeRunFits(w);
    LatestEvaluationIsTheLast(t.events);
  }

  /** Every evaluate rule the run went past matched, found its server and was answered. */
  ghost predicate EvaluatesSucceed(rules: seq<RuntimeRule>, events: seq<Event>)
  {
    |events| <= |rules| && forall k :: 0 <= k < |events| && rules[k].action.EvaluateWith? ==> IsAnswered(events[k])
  }

  lemma {:induction false} EvaluationPersists(rules: seq<RuntimeRule>, events: seq<Event>, j: nat)
    requires j < |events| <= |rules| && IsAnswered(events[j])
    requires forall k :: 0 <= k < |events| && IsEvaluation(events[k]) ==> IsAnswered(events[k])
    ensures LatestEvaluation(events).Some?
  {
    var last := |events| - 1;
    if !IsEvaluation(events[last]) {
      EvaluationPersists(rules, events[..last], j);
    }
  }

  lemma EvaluationsAreEvaluates(w: Walk, events: seq<Event>)
    requires EventsFit(w, events)
    ensures forall k :: 0 <= k < |events| && IsEvaluation(events[k]) ==> w.rules[k].action.EvaluateWith?
  {
    forall k | 0 <= k < |events| && IsEvaluation(events[k]) ensures w.rules[k].action.EvaluateWith? {
      assert EventFits(w, w.rules[k], EffectiveAfter(w.apply, w.rules, events[..k], w.base),
          LatestEvaluation(events[..k]), events[k]);
    }
  }

  lemma EvaluatedBefore(w: Walk, events: seq<Event>, i: nat, j: nat)
    requires EventsFit(w, events) && EvaluatesSucceed(w.rules, events)
    requires j < i <= |events| && w.rules[j].action.EvaluateWith?
    ensures LatestEvaluation(events[..i]).Some?
  {
    EvaluationsAreEvaluates(w, events);
    EvaluationPersists(w.rules, events[..i], j);
  }

  /**
   Static validation makes the missing-response error unreachable in every run whose
   evaluates succeed, and every rule that consumes a response is matched against one.
   */
  lemma ResponseIsThereWhenNeeded(w: Walk)
    requires RunsInNewMode(w.rules) && EvaluatesSucceed(w.rules, Whole(w).events)
    ensures Whole(w).ending != NoResponse
    ensures forall i :: 0 <= i <= |Whole(w).events| && i < |w.rules| && UsesResponse(w.rules[i].config) ==>
              LatestEvaluation(Whole(w).events[..i]).Some?
  {
    var t := Whole(w);
    WholeRunFits(w);
    forall i | 0 <= i <= |t.events| && i < |w.rules| && UsesResponse(w.rules[i].config)
      ensures LatestEvaluation(t.events[..i]).Some?
    {
      var j :| 0 <= j < i && w.rules[j].action.EvaluateWith?;
      EvaluatedBefore(w, t.events, i, j);
    }
    assert t.events[..|t.events|] == t.events;
  }

  // ----- where the options of a query come from -----

  /** Rule `j` matched and changed the options to `OptionsOf(rules[j].action)`. */
  ghost predicate Changes(rules: seq<RuntimeRule>, events: seq<Event>, j: int)
  {
    0 <= j < |events| <= |rules| && events[j] == OptionsChanged
  }

  ghost predicate TurnsOffCache(rules: seq<RuntimeRule>, events: seq<Event>, j: int)
  {
    Changes(rules, events, j) && OptionsOf(rules[j].action).disableCache
  }

  ghost predicate TurnsOffOptimistic(rules: seq<RuntimeRule>, events: seq<Event>, j: int)
  {
    Changes(rules, events, j) && OptionsOf(rules[j].action).disableOptimisticCache
  }

  ghost predicate LastTtl(rules: seq<RuntimeRule>, events: seq<Event>, j: int)
  {
    Changes(rules, events, j) && OptionsOf(rules[j].action).rewriteTtl.Some?
    && forall k :: j < k < |events| && Changes(rules, events, k) ==> OptionsOf(rules[k].action).rewriteTtl.None?
  }

  ghost predicate LastSubnet(rules: seq<RuntimeRule>, events: seq<Event>, j: int)
  {
    Changes(rules, events, j) && OptionsOf(rules[j].action).clientSubnet.Some?
    && forall k :: j < k < |events| && Changes(rules, events, k) ==> OptionsOf(rules[k].action).clientSubnet.None?
  }

  /** A switch is on exactly when the caller or a matched option rule turned it on; no strategy changes. */
  lemma {:induction false} SwitchesAccumulate(rules: seq<RuntimeRule>, events: seq<Event>, base: QueryOptions)
    requires |events| <= |rules|
    ensures var o := EffectiveAfter(ApplyNew, rules, events, base);
            && (o.disableCache <==> base.disableCache || exists j :: TurnsOffCache(rules, events, j))
            && (o.disableOptimisticCache <==>
               base.disableOptimisticCache || exists j :: TurnsOffOptimistic(rules, events, j))
            && o.strategy == base.strategy
            && o.lookupStrategy == base.lookupStrategy
  {
    if events != [] {
      var last := |events| - 1;
      var front := events[..last];
      SwitchesAccumulate(rules, front, base);
      forall j ensures TurnsOffCache(rules, events, j) <==>
          TurnsOffCache(rules, front, j) || (j == last && TurnsOffCache(rules, events, last)) {
      }
      forall j ensures TurnsOffOptimistic(rules, events, j) <==>
          TurnsOffOptimistic(rules, front, j) || (j == last && TurnsOffOptimistic(rules, events, last)) {
      }
      assert TurnsOffCache(rules, events, last) <==>
          events[last] == OptionsChanged && OptionsOf(rules[last].action).disableCache;
      assert TurnsOffOptimistic(rules, events, last) <==>
          events[last] == OptionsChanged && OptionsOf(rules[last].action).disableOptimisticCache;
    }
  }

  /** A rewritten TTL is the one set last, or the caller's when no matched option rule sets one. */
  lemma {:induction false} LastTtlWins(rules: seq<RuntimeRule>, events: seq<Event>, base: QueryOptions)
    requires |events| <= |rules|
    ensures var o := EffectiveAfter(ApplyNew, rules, events, base);
            && (forall j :: LastTtl(rules, events, j) ==> o.rewriteTtl == OptionsOf(rules[j].action).rewriteTtl)
            && ((forall j :: !LastTtl(rules, events, j)) ==> o.rewriteTtl == base.rewriteTtl)
  {
    if events != [] {
      var last := |events| - 1;
      var front := events[..last];
      LastTtlWins(rules, front, base);
      if Changes(rules, events, last) && OptionsOf(rules[last].action).rewriteTtl.Some? {
        assert LastTtl(rules, events, last);
      } else {
        forall j ensures LastTtl(rules, events, j) <==> LastTtl(rules, front, j) {
          assert forall k :: Changes(rules, front, k) <==> Changes(rules, events, k) && k < last;
        }
      }
    }
  }

  /** The client subnet follows the same law. */
  lemma {:induction false} LastSubnetWins(rules: seq<RuntimeRule>, events: seq<Event>, base: QueryOptions)
    requires |events| <= |rules|
    ensures var o := EffectiveAfter(ApplyNew, rules, events, base);
            && (forall j :: LastSubnet(rules, events, j) ==> o.clientSubnet == OptionsOf(rules[j].action).clientSubnet)
            && ((forall j :: !LastSubnet(rules, events, j)) ==> o.clientSubnet == base.clientSubnet)
  {
    if events != [] {
      var last := |events| - 1;
      var front := events[..last];
      LastSubnetWins(rules, front, base);
      if Changes(rules, events, last) && OptionsOf(rules[last].action).clientSubnet.Some? {
        assert LastSubnet(rules, events, last);
      } else {
        forall j ensures LastSubnet(rules, events, j) <==> LastSubnet(rules, front, j) {
          assert forall k :: Changes(rules, front, k) <==> Changes(rules, events, k) && k < last;
        }
      }
    }
  }
}
