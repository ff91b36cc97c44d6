/**
 The legacy-mode interpreter of DNS rules: the matcher that picks one rule, and the retry
 loop that resumes after a rule whose address limit rejected the reply.
 */
module DnsLegacy {
  import opened Basics
  import opened DnsRule
  import opened DnsBuild
  import opened DnsExchange

  /** What the legacy mode applies: everything but the optimistic-cache switch. */
  function ApplyLegacy(o: QueryOptions, r: RouteOptions): QueryOptions
  {
    var o := if r.strategy != AsIs then o.(strategy := r.strategy) else o;
    var o := if r.disableCache then o.(disableCache := true) else o;
    var o := if r.rewriteTtl.Some? then o.(rewriteTtl := r.rewriteTtl) else o;
    if r.clientSubnet.Some? then o.(clientSubnet := r.clientSubnet) else o
  }

  /** `Unsupported` is the outcome of a strict matcher that meets an action this mode does not know. */
  datatype Match =
    | Selected(index: nat, transport: Transport, options: QueryOptions)
    | Ended(index: nat)
    | NoRule(transport: Transport, options: QueryOptions)
    | Unsupported(index: nat)

  datatype Matcher = Matcher(env: Env, apply: Apply, strict: bool, rules: seq<RuntimeRule>, allowFakeIp: bool,
      addressQuery: bool)

  function MatchFrom(m: Matcher, i: nat, o: QueryOptions): (r: Match)
    requires i <= |m.rules|
    ensures r.Selected? || r.Ended? || r.Unsupported? ==> i <= r.index < |m.rules|
    decreases |m.rules| - i
  {
    if i == |m.rules| then NoRule(m.env.fallback, o)
    else
      var rule := m.rules[i];
      if m.env.addressLimited(rule) && !m.addressQuery then MatchFrom(m, i + 1, o)
      else if !m.env.preMatches(rule) then MatchFrom(m, i + 1, o)
      else
        match rule.action
        case RouteTo(server, own) =>
          if server !in m.env.table then MatchFrom(m, i + 1, o)
          else if m.env.table[server].kind == FakeIp && !m.allowFakeIp then MatchFrom(m, i + 1, o)
          else Selected(i, m.env.table[server], RouteQueryOptions(m.apply, o, own, m.env.table[server]))
        case ChangeOptions(own) => MatchFrom(m, i + 1, m.apply(o, own))
        case RejectQuery(_) => Ended(i)
        case Answer(_) => Ended(i)
        case NilAction => MatchFrom(m, i + 1, o)
        case _ => if m.strict then Unsupported(i) else MatchFrom(m, i + 1, o)
  }

  method MatchDns(m: Matcher, ruleIndex: int, options: QueryOptions) returns (r: Match)
    requires -1 <= ruleIndex < |m.rules|
    requires m.apply == ApplyLegacy && !m.strict
    ensures r == MatchFrom(m, ruleIndex + 1, options)
  {
    var o := options;
    var i := ruleIndex + 1;
    while i < |m.rules|
      invariant 0 <= i <= |m.rules|
      invariant MatchFrom(m, ruleIndex + 1, options) == MatchFrom(m, i, o)
    {
      var rule := m.rules[i];
      if !(m.env.addressLimited(rule) && !m.addressQuery) && m.env.preMatches(rule) {
        match rule.action
        case RouteTo(server, own) =>
          if server in m.env.table {
            var transport := m.env.table[server];
            var isFakeIp := transport.kind == FakeIp;
            if !isFakeIp || m.allowFakeIp {
              if own.strategy != AsIs {
                o := o.(strategy := own.strategy);
              }
              if isFakeIp || own.disableCache {
                o := o.(disableCache := true);
              }
              if own.rewriteTtl.Some? {
                o := o.(rewriteTtl := own.rewriteTtl);
              }
              if own.clientSubnet.Some? {
                o := o.(clientSubnet := own.clientSubnet);
              }
              return Selected(i, transport, o);
            }
          }
        case ChangeOptions(own) =>
          if own.strategy != AsIs {
            o := o.(strategy := own.strategy);
          }
          if own.disableCache {
            o := o.(disableCache := true);
          }
          if own.rewriteTtl.Some? {
            o := o.(rewriteTtl := own.rewriteTtl);
          }
          if own.clientSubnet.Some? {
            o := o.(clientSubnet := own.clientSubnet);
          }
        case RejectQuery(_) =>
          return Ended(i);
        case Answer(_) =>
          return Ended(i);
        case _ =>
      }
      i := i + 1;
    }
    return NoRule(m.env.fallback, o);
  }

  // ----- the retry loop -----

  /** An exchange retries after a rejected reply, a lookup after any error. */
  datatype Retry = OnRejection | OnError

  predicate Retries(retry: Retry, r: Reply)
  {
    if retry == OnRejection then r.Rejected? else !r.Answered?
  }

  /** The vetting rule of a match, when the matched rule has an address limit. */
  function CheckOf(m: Matcher, s: Match): Option<nat>
    requires s.Selected? ==> s.index < |m.rules|
  {
    if s.Selected? && m.env.addressLimited(m.rules[s.index]) then Some(s.index) else None
  }

  datatype LegacyTrace = LegacyTrace(queries: seq<Query>, ending: LegacyEnding)

  datatype LegacyEnding = Replied(reply: Reply) | EndedBy(index: nat) | Stuck(index: nat)

  /** All attempts of a query, from rule `start` on; each attempt starts over with the caller's options. */
  function Attempts(m: Matcher, retry: Retry, start: nat, options: QueryOptions, history: seq<Query>): LegacyTrace
    requires start <= |m.rules|
    decreases |m.rules| - start
  {
    var s := MatchFrom(m, start, options);
    if s.Ended? then LegacyTrace([], EndedBy(s.index))
    else if s.Unsupported? then LegacyTrace([], Stuck(s.index))
    else
      var q := Query(s.transport, WithDefaultStrategy(s.options, m.env.strategy), CheckOf(m, s));
      var r := m.env.upstream(history, q);
      if q.check.Some? && Retries(retry, r) then
        var rest := Attempts(m, retry, s.index + 1, options, history + [q]);
        LegacyTrace([q] + rest.queries, rest.ending)
      else LegacyTrace([q], Replied(r))
  }

  function AfterQueries(queries: seq<Query>, t: LegacyTrace): LegacyTrace
  {
    LegacyTrace(queries + t.queries, t.ending)
  }

  /** One turn of the retry loop, after `queries` were sent. */
  lemma NextAttempt(m: Matcher, retry: Retry, start: nat, options: QueryOptions, history: seq<Query>,
      queries: seq<Query>)
    requires start <= |m.rules|
    ensures var s := MatchFrom(m, start, options);
            var whole := AfterQueries(queries, Attempts(m, retry, start, options, history + queries));
            if s.Ended? then whole == LegacyTrace(queries, EndedBy(s.index))
            else if s.Unsupported? then whole == LegacyTrace(queries, Stuck(s.index))
            else
              var q := Query(s.transport, WithDefaultStrategy(s.options, m.env.strategy), CheckOf(m, s));
              var r := m.env.upstream(history + queries, q);
              if q.check.Some? && Retries(retry, r) then
                s.index < |m.rules|
                    && whole == AfterQueries(queries + [q],
                    Attempts(m, retry, s.index + 1, options, history + (queries + [q])))
              else whole == LegacyTrace(queries + [q], Replied(r))
  {
    var s := MatchFrom(m, start, options);
    if s.Selected? {
      var q := Query(s.transport, WithDefaultStrategy(s.options, m.env.strategy), CheckOf(m, s));
      assert history + queries + [q] == history + (queries + [q]);
      var rest := Attempts(m, retry, s.index + 1, options, history + queries + [q]);
      assert queries + ([q] + rest.queries) == queries + [q] + rest.queries;
    }
  }

  method RunAttempts(m: Matcher, retry: Retry, options: QueryOptions, history: seq<Query>) returns (t: LegacyTrace)
    requires m.apply == ApplyLegacy && !m.strict
    ensures t == Attempts(m, retry, 0, options, history)
  {
    var ruleIndex := -1;
    var queries: seq<Query> := [];
    assert history + queries == history;
    while true
      invariant -1 <= ruleIndex < |m.rules|
      invariant Attempts(m, retry, 0, options, history) == AfterQueries(queries,
                  Attempts(m, retry, ruleIndex + 1, options, history + queries))
      decreases |m.rules| - ruleIndex
    {
      NextAttempt(m, retry, ruleIndex + 1, options, history, queries);
      var s := MatchDns(m, ruleIndex, options);
      if s.Ended? {
        return LegacyTrace(queries, EndedBy(s.index));
      }
      if s.Unsupported? {
        return LegacyTrace(queries, Stuck(s.index));
      }
      var q := Query(s.transport, WithDefaultStrategy(s.options, m.env.strategy), CheckOf(m, s));
      var r := m.env.upstream(history + queries, q);
      queries := queries + [q];
      if !(q.check.Some? && Retries(retry, r)) {
        return LegacyTrace(queries, Replied(r));
      }
      ruleIndex := s.index;
    }
  }

  // ----- dropping the optimistic-cache switch loses nothing -----

  /** The matcher of the code and the strict one that applies all five fields. */
  function CodeMatcher(env: Env, rules: seq<RuntimeRule>, allowFakeIp: bool, addressQuery: bool): Matcher
  {
    Matcher(env, ApplyLegacy, false, rules, allowFakeIp, addressQuery)
  }

  function ReferenceMatcher(env: Env, rules: seq<RuntimeRule>, allowFakeIp: bool, addressQuery: bool): Matcher
  {
    Matcher(env, ApplyAll, true, rules, allowFakeIp, addressQuery)
  }

  lemma {:induction false} LegacyMatchIsFaithful(env: Env, rules: seq<RuntimeRule>, allowFakeIp: bool,
      addressQuery: bool, i: nat, o: QueryOptions)
    requires i <= |rules| && RunsInLegacyMode(rules)
    ensures var s := MatchFrom(ReferenceMatcher(env, rules, allowFakeIp, addressQuery), i, o);
            s == MatchFrom(CodeMatcher(env, rules, allowFakeIp, addressQuery), i, o) && !s.Unsupported?
    decreases |rules| - i
  {
    if i < |rules| {
      var a := rules[i].action;
      assert !OptionsOf(a).disableOptimisticCache;
      assert ApplyLegacy(o, OptionsOf(a)) == ApplyAll(o, OptionsOf(a));
      LegacyMatchIsFaithful(env, rules, allowFakeIp, addressQuery, i + 1, o);
      LegacyMatchIsFaithful(env, rules, allowFakeIp, addressQuery, i + 1, ApplyAll(o, OptionsOf(a)));
    }
  }

  /**
   In a list accepted for legacy mode the code sends what the strict five-field reference sends, and never meets an
   action it does not know.
   */
  lemma {:induction false} LegacyAppliesAllFields(env: Env, rules: seq<RuntimeRule>, allowFakeIp: bool,
      addressQuery: bool, retry: Retry, start: nat, o: QueryOptions, history: seq<Query>)
    requires start <= |rules| && RunsInLegacyMode(rules)
    ensures var t := Attempts(ReferenceMatcher(env, rules, allowFakeIp, addressQuery), retry, start, o, history);
            t == Attempts(CodeMatcher(env, rules, allowFakeIp, addressQuery), retry, start, o, history)
                && !t.ending.Stuck?
    decreases |rules| - start
  {
    var reference := ReferenceMatcher(env, rules, allowFakeIp, addressQuery);
    LegacyMatchIsFaithful(env, rules, allowFakeIp, addressQuery, start, o);
    var s := MatchFrom(reference, start, o);
    if s.Selected? {
      var q := Query(s.transport, WithDefaultStrategy(s.options, env.strategy), CheckOf(reference, s));
      LegacyAppliesAllFields(env, rules, allowFakeIp, addressQuery, retry, s.index + 1, o, history + [q]);
    }
  }

  // ----- fakeip servers are only selected when allowed -----

  lemma {:induction false} MatchAvoidsFakeIp(m: Matcher, i: nat, o: QueryOptions)
    requires i <= |m.rules| && !m.allowFakeIp && m.env.fallback.kind != FakeIp
    ensures var s := MatchFrom(m, i, o);
            s.Selected? || s.NoRule? ==> s.transport.kind != FakeIp
    decreases |m.rules| - i
  {
    if i < |m.rules| {
      MatchAvoidsFakeIp(m, i + 1, o);
      if m.rules[i].action.ChangeOptions? {
        MatchAvoidsFakeIp(m, i + 1, m.apply(o, m.rules[i].action.options));
      }
    }
  }

  lemma {:induction false} AttemptsAvoidFakeIp(m: Matcher, retry: Retry, start: nat, o: QueryOptions,
      history: seq<Query>)
    requires start <= |m.rules| && !m.allowFakeIp && m.env.fallback.kind != FakeIp
    ensures forall q :: q in Attempts(m, retry, start, o, history).queries ==> q.transport.kind != FakeIp
    decreases |m.rules| - start
  {
    MatchAvoidsFakeIp(m, start, o);
    var s := MatchFrom(m, start, o);
    if s.Selected? {
      var q := Query(s.transport, WithDefaultStrategy(s.options, m.env.strategy), CheckOf(m, s));
      AttemptsAvoidFakeIp(m, retry, s.index + 1, o, history + [q]);
    }
  }

  /** Only the last attempt may go unvetted, and the vetting rules move strictly forward from `lo`. */
  ghost predicate MovesForward(qs: seq<Query>, lo: nat, hi: nat)
  {
    && (forall k :: 0 <= k < |qs| - 1 ==> qs[k].check.Some?)
    && (forall k :: 0 <= k < |qs| && qs[k].check.Some? ==> lo <= qs[k].check.value < hi)
    && (forall j, k :: 0 <= j < k < |qs| && qs[k].check.Some? && qs[j].check.Some? ==>
       qs[j].check.value < qs[k].check.value)
  }

  lemma OneMoreAttempt(q: Query, rest: seq<Query>, lo: nat, hi: nat)
    requires q.check.Some? && lo <= q.check.value < hi
    requires MovesForward(rest, q.check.value + 1, hi)
    ensures MovesForward([q] + rest, lo, hi)
  {
    var qs := [q] + rest;
    assert forall k :: 0 < k < |qs| ==> qs[k] == rest[k - 1];
  }

  /** Each retry resumes strictly after the rule whose address limit turned the reply down. */
  lemma {:induction false} RetriesMoveForward(m: Matcher, retry: Retry, start: nat, o: QueryOptions,
      history: seq<Query>)
    requires start <= |m.rules|
    ensures MovesForward(Attempts(m, retry, start, o, history).queries, start, |m.rules|)
    decreases |m.rules| - start
  {
    var s := MatchFrom(m, start, o);
    if s.Selected? {
      var q := Query(s.transport, WithDefaultStrategy(s.options, m.env.strategy), CheckOf(m, s));
      RetriesMoveForward(m, retry, s.index + 1, o, history + [q]);
      if q.check.Some? {
        OneMoreAttempt(q, Attempts(m, retry, s.index + 1, o, history + [q]).queries, start, |m.rules|);
      }
    }
  }
}
