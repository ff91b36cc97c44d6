/**
 The DNS router: it builds its rules once, remembers the mode they were accepted for, and
 answers exchanges and lookups with the interpreter of that mode.
 */
module DnsRouter {
  import opened Basics
  import opened DnsRule
  import opened DnsMode
  import opened DnsBuild
  import opened DnsExchange
  import opened DnsLegacy
  import opened DnsTrace
  import opened DnsUpdate

  datatype ExchangeResult =
    | FormatError
    | RouterClosed
    | Direct(query: Query, reply: Reply)
    | ByRules(trace: Trace)
    | ByLegacyRules(legacy: LegacyTrace)

  datatype QueryType = A | AAAA

  /** The addresses of one lookup, or that it failed. */
  datatype Found = Found(addresses: seq<Address>) | NotFound

  datatype LookupResult = LookupClosed | LookupDirect(query: Query,
      reply: Reply) | LookupByRules(found: Found) | LookupByLegacyRules(legacy: LegacyTrace)

  predicate OfType(a: Address, t: QueryType)
  {
    if t == A then a.V4? else a.V6?
  }

  /** Keeps the addresses of the queried family, in their order. */
  function FilterByType(addresses: seq<Address>, t: QueryType): (r: seq<Address>)
    ensures forall a :: a in r <==> a in addresses && OfType(a, t)
    ensures forall a :: multiset(r)[a] == if OfType(a, t) then multiset(addresses)[a] else 0
  {
    if addresses == [] then []
    else
      assert addresses == [addresses[0]] + addresses[1..];
      if OfType(addresses[0], t) then [addresses[0]] + FilterByType(addresses[1..], t)
      else FilterByType(addresses[1..], t)
  }

  /** Which strategy a lookup follows: the lookup's own, the query's, the router's. */
  function LookupStrategy(o: QueryOptions, default: Strategy): Strategy
  {
    if o.lookupStrategy != AsIs then o.lookupStrategy else if o.strategy != AsIs then o.strategy else default
  }

  /** The outcome of one family's run. */
  function FoundBy(t: Trace, qType: QueryType): Found
  {
    match t.ending
    case Responded(r, _) => if r.rcode == 0 then Found(FilterByType(r.addresses, qType)) else NotFound
    case Fixed(r) => if r.rcode == 0 then Found(FilterByType(r.addresses, qType)) else NotFound
    case Routed(_, r) => if r.Answered? && r.response.rcode == 0 then Found(FilterByType(r.response.addresses, qType))
        else NotFound
    case _ => NotFound
  }

  function AddressesOf(f: Found): seq<Address>
  {
    if f.Found? then f.addresses else []
  }

  function SortAddresses(four: seq<Address>, six: seq<Address>, strategy: Strategy): seq<Address>
  {
    if strategy == PreferIPv6 then six + four else four + six
  }

  /** The answer of a lookup out of its families' answers. */
  function MergeFamilies(strategy: Strategy, four: Found, six: Found): Found
  {
    if strategy == IPv4Only then four
    else if strategy == IPv6Only then six
    else if AddressesOf(four) == [] && AddressesOf(six) == [] then NotFound
    else Found(SortAddresses(AddressesOf(four), AddressesOf(six), strategy))
  }

  lemma SecondPartLast(first: seq<Address>, second: seq<Address>, late: Address -> bool)
    requires forall k :: 0 <= k < |first| ==> !late(first[k])
    requires forall k :: 0 <= k < |second| ==> late(second[k])
    ensures forall i, j :: 0 <= i < j < |first + second| && late((first + second)[i]) ==> late((first + second)[j])
  {
    forall i, j | 0 <= i < j < |first + second| && late((first + second)[i]) ensures late((first + second)[j]) {
      assert (first + second)[j] == second[j - |first|];
    }
  }

  /**
   A strategy for one family yields only that family; otherwise the preferred family comes first and nothing is lost.
   */
  lemma MergedFamiliesInOrder(strategy: Strategy, four: Found, six: Found)
    requires (forall k :: 0 <= k < |AddressesOf(four)| ==> AddressesOf(four)[k].V4?)
             && (forall k :: 0 <= k < |AddressesOf(six)| ==> AddressesOf(six)[k].V6?)
    ensures var r := AddressesOf(MergeFamilies(strategy, four, six));
            && (strategy == IPv4Only ==> r == AddressesOf(four))
            && (strategy == IPv6Only ==> r == AddressesOf(six))
            && (strategy == PreferIPv6 ==> forall i, j :: 0 <= i < j < |r| && r[i].V4? ==> r[j].V4?)
            && (strategy == AsIs || strategy == PreferIPv4 ==> forall i, j :: 0 <= i < j < |r| && r[i].V6? ==> r[j].V6?)
            && (strategy != IPv4Only && strategy != IPv6Only ==>
               multiset(r) == multiset(AddressesOf(four)) + multiset(AddressesOf(six)))
  {
    var r := AddressesOf(MergeFamilies(strategy, four, six));
    var f, s := AddressesOf(four), AddressesOf(six);
    if strategy == PreferIPv6 {
      assert r == s + f;
      SecondPartLast(s, f, (a: Address) => a.V4?);
    } else if strategy != IPv4Only && strategy != IPv6Only {
      assert r == f + s;
      SecondPartLast(f, s, (a: Address) => a.V6?);
    }
  }

  /** The reference run of one family. */
  ghost function FamilyRun(env: Env, rules: seq<RuntimeRule>, options: QueryOptions, history: seq<Query>): Trace
  {
    Run(env, ApplyAll, rules, 0, State(options, None, history), false)
  }

  function LookupOptions(options: QueryOptions, default: Strategy): QueryOptions
  {
    var strategy := LookupStrategy(options, default);
    if strategy != AsIs then options.(strategy := strategy) else options
  }

  ghost predicate NoFakeIp(queries: seq<Query>)
  {
    forall q :: q in queries ==> q.transport.kind != FakeIp
  }

  // ----- a lookup never reaches a fakeip server -----

  lemma {:induction false} EvaluatesAvoidFakeIp(w: Walk, events: seq<Event>)
    requires EventsFit(w, events) && NoFakeIpEvaluate(w.rules, w.env.table)
    ensures NoFakeIp(QueriesOf(events))
    decreases |events|
  {
    if events != [] {
      var last := |events| - 1;
      var front := events[..last];
      forall k | 0 <= k < |front|
        ensures EventFits(w, w.rules[k], EffectiveAfter(w.apply, w.rules, front[..k], w.base),
                  LatestEvaluation(front[..k]), front[k])
      {
        assert front[..k] == events[..k];
      }
      EvaluatesAvoidFakeIp(w, front);
      assert EventFits(w, w.rules[last], EffectiveAfter(w.apply, w.rules, events[..last], w.base),
          LatestEvaluation(events[..last]), events[last]);
    }
  }

  lemma EndingAvoidsFakeIp(w: Walk, at: nat, o: QueryOptions, latest: Option<Evaluation>, ending: Ending)
    requires at <= |w.rules| && EndingFits(w, at, o, latest, ending) && !w.allowFakeIp && w.env.fallback.kind != FakeIp
    ensures ending.Routed? ==> ending.query.transport.kind != FakeIp
  {
  }

  lemma SentAvoidsFakeIp(before: seq<Query>, queries: seq<Query>, last: seq<Query>, after: seq<Query>)
    requires after == before + queries + last && NoFakeIp(queries) && NoFakeIp(last)
    ensures before <= after && NoFakeIp(after[|before|..])
  {
    assert after[|before|..] == queries + last;
  }

  lemma TraceAvoidsFakeIp(w: Walk, t: Trace)
    requires TraceFits(w, t) && !w.allowFakeIp && w.env.fallback.kind != FakeIp
             && NoFakeIpEvaluate(w.rules, w.env.table)
    ensures w.history <= t.history && NoFakeIp(t.history[|w.history|..])
  {
    EvaluatesAvoidFakeIp(w, t.events);
    EndingAvoidsFakeIp(w, |t.events|, EffectiveAfter(w.apply, w.rules, t.events, w.base), LatestEvaluation(t.events),
        t.ending);
    SentAvoidsFakeIp(w.history, QueriesOf(t.events), if t.ending.Routed? then [t.ending.query] else [], t.history);
  }

  /**
   A run that may not use fakeip sends no query to a fakeip server: routes skip it, evaluate
   rules were validated against it, and the default server never is one.
   */
  lemma RunAvoidsFakeIp(w: Walk)
    requires !w.allowFakeIp && w.env.fallback.kind != FakeIp && NoFakeIpEvaluate(w.rules, w.env.table)
    ensures w.history <= Whole(w).history && NoFakeIp(Whole(w).history[|w.history|..])
  {
    WholeRunFits(w);
    TraceAvoidsFakeIp(w, Whole(w));
  }

  /** One family's run in the code: the reference run, which only adds to the history and avoids fakeip. */
  lemma FamilyRunSends(env: Env, rules: seq<RuntimeRule>, options: QueryOptions, history: seq<Query>)
    requires RunsInNewMode(rules)
    ensures Run(env, ApplyNew, rules, 0, State(options, None, history), false) == FamilyRun(env, rules, options,
              history)
    ensures history <= FamilyRun(env, rules, options, history).history
    ensures env.fallback.kind != FakeIp && NoFakeIpEvaluate(rules, env.table) ==>
              NoFakeIp(FamilyRun(env, rules, options, history).history[|history|..])
  {
    NewModeAppliesAllFields(env, rules, 0, State(options, None, history), false);
    var w := Walk(env, ApplyAll, rules, options, history, false);
    WholeRunFits(w);
    if env.fallback.kind != FakeIp && NoFakeIpEvaluate(rules, env.table) {
      RunAvoidsFakeIp(w);
    }
  }

  lemma FoundIsOfType(t: Trace, qType: QueryType)
    ensures forall a :: a in AddressesOf(FoundBy(t, qType)) ==> OfType(a, qType)
  {
  }

  class Router {
    var rawRules: seq<Rule>
    var rules: seq<RuntimeRule>
    var legacyDnsMode: bool
    var started: bool
    var closing: bool
    const defaultStrategy: Strategy
    /** The transport table the running rules were built against. */
    ghost var builtWith: TransportTable

    /** A started router runs rules that fit its mode. */
    ghost predicate Valid()
      reads this
    {
      && (!closing && !started ==> rules == [] && !legacyDnsMode)
      && (started && !closing ==>
            && (if legacyDnsMode then RunsInLegacyMode(rules) else RunsInNewMode(rules))
            && NoFakeIpEvaluate(rules, builtWith)
            && RejectsAreAnswerable(rules))
    }

    /** The transports are the ones any running rules were built with, and the default one hands out real addresses. */
    ghost predicate SeesRealDefault(env: Env)
      reads this
    {
      (started ==> env.table == builtWith) && env.fallback.kind != FakeIp
    }

    function CurrentPhase(): Phase
      reads this
    {
      if closing then Closing else if started then Running(legacyDnsMode) else Waiting
    }

    constructor (defaultStrategy: Strategy)
      ensures Valid() && !started && !closing && rawRules == [] && this.defaultStrategy == defaultStrategy
    {
      this.defaultStrategy := defaultStrategy;
      rawRules, rules := [], [];
      legacyDnsMode, started, closing := false, false, false;
      builtWith := map[];
    }

    /** Takes over the configuration and checks that it would build; nothing runs yet. */
    method Initialize(configured: seq<Rule>, sets: RuleSets, table: TransportTable) returns (e: Option<Error>)
      requires Valid() && !started
      modifies `rawRules
      ensures Valid() && rawRules == configured
      ensures e.None? <==> BuildRules(configured, sets, table).Ok?
      ensures e.None? ==> WouldBuild(rawRules, sets)
    {
      rawRules := configured;
      var b := BuildRules(configured, sets, table);
      e := if b.Ok? then None else Some(b.error);
    }

    /** Builds and starts the rules for good and fixes the mode; a router already closing drops them. */
    method Start(sets: RuleSets, table: TransportTable, starts: RuntimeRule -> bool) returns (e: Option<Error>)
      requires Valid() && !started
      modifies `rules, `legacyDnsMode, `started, `builtWith
      ensures Valid()
      ensures e.None? <==>
                var b := BuildRules(rawRules, sets, table);
                b.Ok? && forall i :: 0 <= i < |b.value.rules| ==> starts(b.value.rules[i])
      ensures started <==> e.None? && !closing
      ensures started ==>
                && rules == BuildRules(rawRules, sets, table).value.rules
                && legacyDnsMode == BuildRules(rawRules, sets, table).value.legacy
                && builtWith == table
                && ModeHolds(rawRules, sets, legacyDnsMode)
      ensures !started ==> rules == old(rules) && legacyDnsMode == old(legacyDnsMode) && builtWith == old(builtWith)
    {
      var b := BuildRules(rawRules, sets, table);
      if b.Err? {
        return Some(b.error);
      }
      for i := 0 to |b.value.rules|
        invariant forall k :: 0 <= k < i ==> starts(b.value.rules[k])
      {
        if !starts(b.value.rules[i]) {
          return Some(RuleStartFailed(i));
        }
      }
      if closing {
        return None;
      }
      AcceptedRulesFitTheirMode(rawRules, sets, table);
      rules := b.value.rules;
      legacyDnsMode := b.value.legacy;
      started := true;
      builtWith := table;
      return None;
    }

    method Close()
      requires Valid()
      modifies `closing, `rules
      ensures Valid() && closing && rules == (if old(closing) then old(rules) else [])
    {
      if closing {
        return;
      }
      closing := true;
      rules := [];
    }

    /** Says whether a rule set may change its metadata. */
    method ValidateRuleSetMetadataUpdate(sets: RuleSets, u: Update) returns (e: Option<Error>)
      requires Valid()
      ensures e == CheckUpdate(rawRules, CurrentPhase(), sets, u)
      ensures started && !closing && rawRules != [] && sets.Some? ==>
                (e.None? <==> ModeHolds(rawRules, Updated(sets, u), legacyDnsMode))
    {
      if |rawRules| == 0 {
        return None;
      }
      if sets.None? {
        return Some(RouterNotFound);
      }
      if closing {
        return None;
      }
      AcceptsExactlyWhatKeepsTheMode(rawRules, sets, legacyDnsMode, u);
      var candidate := ResolveMode(sets, rawRules, map[u.tag := u.metadata]);
      if candidate.Err? {
        return Some(candidate.error);
      }
      if !started {
        if !candidate.value.legacy {
          return ValidateNewMode(rawRules);
        }
        return None;
      }
      if legacyDnsMode {
        if !candidate.value.legacy && candidate.value.flags.disabled {
          var invalid := ValidateNewMode(rawRules);
          if invalid.Some? {
            return invalid;
          }
          return Some(AddressFilterNeedsOtherMode);
        }
        return None;
      }
      if candidate.value.legacy {
        return Some(AddressFilterNeedsOtherMode);
      }
      return None;
    }

    /**
     Answers a message.  Whatever the mode, the run is the one of the reference that applies
     all five option fields, and a legacy run never meets an action it does not know.
     */
    method Exchange(env: Env, questions: nat, addressQuery: bool, chosen: Option<Transport>, options: QueryOptions,
        history: seq<Query>) returns (r: ExchangeResult)
      requires Valid() && env.strategy == defaultStrategy
      ensures questions != 1 ==> r == FormatError
      ensures questions == 1 && closing ==> r == RouterClosed
      ensures questions == 1 && !closing && chosen.Some? ==>
                r.Direct? && r.query == Query(chosen.value, WithDefaultStrategy(options, defaultStrategy), None)
                    && r.reply == env.upstream(history, r.query)
      ensures questions == 1 && !closing && chosen.None? && !legacyDnsMode ==>
                r == ByRules(Run(env, ApplyAll, rules, 0, State(options, None, history), true))
      ensures questions == 1 && !closing && chosen.None? && legacyDnsMode ==>
                && r == ByLegacyRules(Attempts(ReferenceMatcher(env, rules, true, addressQuery), OnRejection, 0,
                   options, history))
                && !r.legacy.ending.Stuck?
    {
      if questions != 1 {
        return FormatError;
      }
      if closing {
        return RouterClosed;
      }
      if chosen.Some? {
        var q := Query(chosen.value, WithDefaultStrategy(options, defaultStrategy), None);
        return Direct(q, env.upstream(history, q));
      }
      if !legacyDnsMode {
        var t := ExchangeWithRules(env, rules, options, true, history);
        NewModeAppliesAllFields(env, rules, 0, State(options, None, history), true);
        return ByRules(t);
      }
      var t := RunAttempts(CodeMatcher(env, rules, true, addressQuery), OnRejection, options, history);
      LegacyAppliesAllFields(env, rules, true, addressQuery, OnRejection, 0, options, history);
      return ByLegacyRules(t);
    }

    /** One family of a new-mode lookup; matching depends on the query type, so it brings its own surroundings. */
    method LookupType(env: Env, qType: QueryType, options: QueryOptions, history: seq<Query>)
      returns (f: Found, sent: seq<Query>)
      requires Valid() && !closing && !legacyDnsMode
      ensures var t := FamilyRun(env, rules, options, history);
              f == FoundBy(t, qType) && t.history == history + sent
      ensures forall a :: a in AddressesOf(f) ==> OfType(a, qType)
      ensures SeesRealDefault(env) ==> NoFakeIp(sent)
    {
      var t := ExchangeWithRules(env, rules, options, false, history);
      FamilyRunSends(env, rules, options, history);
      sent := t.history[|history|..];
      f := FoundBy(t, qType);
      FoundIsOfType(t, qType);
    }

    /** The family or families a new-mode lookup asks for, and their merged answer. */
    method LookupWithRules(env4: Env, env6: Env, options: QueryOptions, history4: seq<Query>, history6: seq<Query>)
      returns (f: Found, sent: seq<Query>)
      requires Valid() && !closing && !legacyDnsMode
      ensures SeesRealDefault(env4) && SeesRealDefault(env6) ==> NoFakeIp(sent)
      ensures var o := LookupOptions(options, defaultStrategy);
              f == MergeFamilies(LookupStrategy(options, defaultStrategy),
                                 FoundBy(FamilyRun(env4, rules, o, history4), A),
                                     FoundBy(FamilyRun(env6, rules, o, history6), AAAA))
    {
      var strategy := LookupStrategy(options, defaultStrategy);
      var lookupOptions := LookupOptions(options, defaultStrategy);
      if strategy == IPv4Only {
        f, sent := LookupType(env4, A, lookupOptions, history4);
        return;
      }
      if strategy == IPv6Only {
        f, sent := LookupType(env6, AAAA, lookupOptions, history6);
        return;
      }
      var four, sent4 := LookupType(env4, A, lookupOptions, history4);
      var six, sent6 := LookupType(env6, AAAA, lookupOptions, history6);
      sent := sent4 + sent6;
      if AddressesOf(four) == [] && AddressesOf(six) == [] {
        f := NotFound;
      } else {
        f := Found(SortAddresses(AddressesOf(four), AddressesOf(six), strategy));
      }
    }

    /** Resolves a domain; unless the caller chose the server, no query goes to a fakeip server in either mode. */
    method Lookup(env4: Env, env6: Env, chosen: Option<Transport>, options: QueryOptions, history4: seq<Query>,
        history6: seq<Query>) returns (r: LookupResult, sent: seq<Query>)
      requires Valid()
      requires env4.strategy == defaultStrategy
      ensures closing ==> r == LookupClosed && sent == []
      ensures !closing && chosen.Some? ==> r.LookupDirect? && r.query.transport == chosen.value && sent == [r.query]
      ensures chosen.None? && SeesRealDefault(env4) && SeesRealDefault(env6) ==> NoFakeIp(sent)
      ensures !closing && chosen.None? && !legacyDnsMode ==>
                var o := LookupOptions(options, defaultStrategy);
                r == LookupByRules(MergeFamilies(LookupStrategy(options, defaultStrategy),
                                                 FoundBy(FamilyRun(env4, rules, o, history4), A),
                                                     FoundBy(FamilyRun(env6, rules, o, history6), AAAA)))
      ensures !closing && chosen.None? && legacyDnsMode ==>
                && r == LookupByLegacyRules(Attempts(ReferenceMatcher(env4, rules, false, true), OnError, 0, options,
                   history4))
                && sent == r.legacy.queries
    {
      if closing {
        return LookupClosed, [];
      }
      if chosen.Some? {
        var q := Query(chosen.value, WithDefaultStrategy(options, defaultStrategy), None);
        return LookupDirect(q, env4.upstream(history4, q)), [q];
      }
      if !legacyDnsMode {
        var found;
        found, sent := LookupWithRules(env4, env6, options, history4, history6);
        return LookupByRules(found), sent;
      }
      var t := RunAttempts(CodeMatcher(env4, rules, false, true), OnError, options, history4);
      LegacyAppliesAllFields(env4, rules, false, true, OnError, 0, options, history4);
      if env4.fallback.kind != FakeIp {
        AttemptsAvoidFakeIp(CodeMatcher(env4, rules, false, true), OnError, 0, options, history4);
      }
      return LookupByLegacyRules(t), t.queries;
    }
  }
}
