/**
 Building the running rule list out of the configured one: the order of the checks,
 and what every accepted list guarantees to the interpreter that will run it.
 */
module DnsBuild {
  import opened Basics
  import opened DnsRule
  import opened DnsMode

  datatype TransportKind = FakeIp | Local | Plain

  datatype Transport = Transport(tag: string, kind: TransportKind)

  type TransportTable = map<string, Transport>

  function ServerOf(rule: Rule): string
  {
    if rule.UnknownType? then "" else rule.action.server
  }

  /** An evaluate action may not name a fakeip server; the first offending rule is reported. */
  function ValidateEvaluate(rules: seq<Rule>, table: TransportTable, index: nat): (r: Option<Error>)
    requires index <= |rules|
    decreases |rules| - index
  {
    if index == |rules| then None
    else
      var rule := rules[index];
      if ActionKindOf(rule) == Evaluate && ServerOf(rule) != "" && ServerOf(rule) in table
          && table[ServerOf(rule)].kind == FakeIp
      then Some(EvaluateUsesFakeIp(index))
      else ValidateEvaluate(rules, table, index + 1)
  }

  ghost predicate EvaluatesFakeIp(rule: Rule, table: TransportTable)
  {
    && ActionKindOf(rule) == Evaluate
    && ServerOf(rule) != ""
    && ServerOf(rule) in table
    && table[ServerOf(rule)].kind == FakeIp
  }

  lemma {:induction false} ValidateEvaluateExact(rules: seq<Rule>, table: TransportTable, index: nat)
    requires index <= |rules|
    ensures ValidateEvaluate(rules, table, index).None? <==> forall i :: index <= i < |rules| ==>
              !EvaluatesFakeIp(rules[i], table)
    decreases |rules| - index
  {
    if index < |rules| {
      ValidateEvaluateExact(rules, table, index + 1);
    }
  }

  predicate ConditionsConfigured(rule: Rule)
    decreases rule
  {
    match rule
    case Default(c, _, a) => c != NO_CONDITIONS || a != NO_ACTION
    case Logical(_, rules, _, _) => rules != [] && forall i :: 0 <= i < |rules| ==> ConditionsConfigured(rules[i])
    case UnknownType => false
  }

  /** Builds one rule; `top` holds for the rules of the list and not for the branches of a logical rule. */
  function BuildRule(rule: Rule, top: bool, legacy: bool): (r: Result<RuntimeRule>)
    ensures r.Ok? ==> !rule.UnknownType? && r.value == RuntimeRule(rule, NewAction(rule.action))
    decreases rule, 1
  {
    if rule.UnknownType? then Err(UnknownRuleType)
    else if !ConditionsConfigured(rule) then Err(MissingConditions)
    else if !top && rule.action.kind == Evaluate then Err(NestedEvaluate)
    else if rule.action.kind == Reject && rule.action.reject == RejectReply then Err(ReplyUnsupported)
    else if rule.action.kind in {Unset, Route, Evaluate} && rule.action.server == "" && top then Err(MissingServer)
    else
      match rule
      case Default(c, _, a) =>
        if !c.other.wellFormed || c.ipVersion !in {0, 4, 6} then Err(MalformedRule)
        else if c.ruleSetAcceptEmpty && !legacy then Err(AcceptEmptyUnsupported)
        else Ok(RuntimeRule(rule, NewAction(a)))
      case Logical(mode, rules, _, a) =>
        if mode == UnknownMode then Err(MalformedRule)
        else
          match BuildBranches(rules, legacy)
          case Some(e) => Err(e)
          case None => Ok(RuntimeRule(rule, NewAction(a)))
  }

  function BuildBranches(rules: seq<Rule>, legacy: bool): Option<Error>
    decreases rules, 0
  {
    if rules == [] then None
    else if !NoNestedActions(rules[0], true) then Some(NestedAction)
    else
      match BuildRule(rules[0], false, legacy)
      case Err(e) => Some(e)
      case Ok(_) => BuildBranches(rules[1..], legacy)
  }

  function BuildList(rules: seq<Rule>, legacy: bool): (r: Result<seq<RuntimeRule>>)
    ensures r.Ok? ==> |r.value| == |rules|
  {
    if rules == [] then Ok([])
    else
      match BuildRule(rules[0], true, legacy)
      case Err(e) => Err(e)
      case Ok(first) =>
        match BuildList(rules[1..], legacy)
        case Err(e) => Err(e)
        case Ok(rest) => Ok([first] + rest)
  }

  datatype Build = Build(rules: seq<RuntimeRule>, legacy: bool, flags: Flags)

  /** All checks of the rule build, in their order. */
  function BuildRules(raw: seq<Rule>, sets: RuleSets, table: TransportTable): (r: Result<Build>)
  {
    if exists i :: 0 <= i < |raw| && !NoNestedActions(raw[i], false) then Err(NestedAction)
    else
      match ResolveMode(sets, raw, map[])
      case Err(e) => Err(e)
      case Ok(d) =>
        var newModeError := if d.legacy then None else ValidateNewMode(raw);
        if newModeError.Some? then Err(newModeError.value)
        else if ValidateEvaluate(raw, table, 0).Some? then Err(ValidateEvaluate(raw, table, 0).value)
        else
          match BuildList(raw, d.legacy)
          case Err(e) => Err(e)
          case Ok(rules) => Ok(Build(rules, d.legacy, d.flags))
  }

  // ----- what an accepted list guarantees -----

  /** The options an action carries, if its kind carries any. */
  function OptionsOf(a: RuntimeAction): RouteOptions
  {
    match a
    case RouteTo(_, o) => o
    case EvaluateWith(_, o) => o
    case ChangeOptions(o) => o
    case _ => NO_OPTIONS
  }

  /** No action carries a strategy, and consumers of a response come after an evaluate. */
  ghost predicate RunsInNewMode(rules: seq<RuntimeRule>)
  {
    && (forall i :: 0 <= i < |rules| ==> OptionsOf(rules[i].action).strategy == AsIs)
    && (forall i :: 0 <= i < |rules| && UsesResponse(rules[i].config) ==>
       exists j :: 0 <= j < i && rules[j].action.EvaluateWith?)
    && (forall i :: 0 <= i < |rules| && rules[i].action.RespondNow? ==> UsesResponse(rules[i].config))
  }

  /** No action evaluates, responds or turns off the optimistic cache. */
  ghost predicate RunsInLegacyMode(rules: seq<RuntimeRule>)
  {
    forall i :: 0 <= i < |rules| ==>
      && !rules[i].action.EvaluateWith?
      && !rules[i].action.RespondNow?
      && !OptionsOf(rules[i].action).disableOptimisticCache
  }

  ghost predicate NoFakeIpEvaluate(rules: seq<RuntimeRule>, table: TransportTable)
  {
    forall i :: 0 <= i < |rules| && rules[i].action.EvaluateWith? && rules[i].action.server in table ==>
      table[rules[i].action.server].kind != FakeIp
  }

  ghost predicate RejectsAreAnswerable(rules: seq<RuntimeRule>)
  {
    forall i :: 0 <= i < |rules| && rules[i].action.RejectQuery? ==> rules[i].action.reject != RejectReply
  }

  /** The running list mirrors the configured list rule by rule. */
  lemma {:induction false} BuildListMirrors(rules: seq<Rule>, legacy: bool)
    requires BuildList(rules, legacy).Ok?
    ensures forall i :: 0 <= i < |rules| ==>
      && BuildList(rules, legacy).value[i].config == rules[i]
      && !rules[i].UnknownType?
      && BuildList(rules, legacy).value[i].action == NewAction(rules[i].action)
      && (rules[i].action.kind in {Unset, Route, Evaluate} ==> rules[i].action.server != "")
      && (rules[i].action.kind == Reject ==> rules[i].action.reject != RejectReply)
  {
    if rules != [] {
      BuildListMirrors(rules[1..], legacy);
      var built := BuildList(rules, legacy).value;
      forall i | 0 < i < |rules|
        ensures built[i] == BuildList(rules[1..], legacy).value[i - 1] && rules[i] == rules[1..][i - 1]
      {
      }
    }
  }

  ghost predicate Mirrors(raw: seq<Rule>, rules: seq<RuntimeRule>)
  {
    && |rules| == |raw|
    && forall i :: 0 <= i < |raw| ==> !raw[i].UnknownType? && rules[i] == RuntimeRule(raw[i], NewAction(raw[i].action))
  }

  /** The decision restricted to the rules of the list, which are the nodes whose actions run. */
  lemma DecisionBindsTopRules(sets: RuleSets, raw: seq<Rule>, overrides: map<string, RuleSetMetadata>)
    requires ResolveMode(sets, raw, overrides).Ok?
    ensures ResolveMode(sets, raw, overrides).value.legacy ==> forall i :: 0 <= i < |raw| ==>
              !NodeDisables(sets, overrides, raw[i])
    ensures !ResolveMode(sets, raw, overrides).value.legacy ==> forall i :: 0 <= i < |raw| ==> !NodeHasStrategy(raw[i])
  {
    ResolveModeExact(sets, raw, overrides);
    forall i | 0 <= i < |raw| ensures NodeIn(raw[i], raw) {
      assert NodeOf(raw[i], raw[i]);
    }
  }

  lemma LegacyListIsClean(raw: seq<Rule>, sets: RuleSets, rules: seq<RuntimeRule>)
    requires Mirrors(raw, rules)
    requires forall i :: 0 <= i < |raw| ==> !NodeDisables(sets, map[], raw[i])
    ensures RunsInLegacyMode(rules)
  {
    forall i | 0 <= i < |rules|
      ensures !rules[i].action.EvaluateWith? && !rules[i].action.RespondNow?
              && !OptionsOf(rules[i].action).disableOptimisticCache
    {
      assert !NodeDisables(sets, map[], raw[i]);
    }
  }

  lemma NewModeListIsClean(raw: seq<Rule>, rules: seq<RuntimeRule>)
    requires Mirrors(raw, rules)
    requires forall i :: 0 <= i < |raw| ==> !NodeHasStrategy(raw[i])
    requires EvaluateComesFirst(raw)
    ensures RunsInNewMode(rules)
  {
    forall i | 0 <= i < |rules|
      ensures OptionsOf(rules[i].action).strategy == AsIs
    {
      assert !NodeHasStrategy(raw[i]);
    }
    forall i | 0 <= i < |rules| && rules[i].action.RespondNow?
      ensures UsesResponse(rules[i].config)
    {
      RespondUsesResponse(raw[i]);
    }
    forall i | 0 <= i < |rules| && UsesResponse(rules[i].config)
      ensures exists j :: 0 <= j < i && rules[j].action.EvaluateWith?
    {
      var j :| 0 <= j < i && ActionKindOf(raw[j]) == Evaluate;
      assert rules[j].action.EvaluateWith?;
    }
  }

  lemma RespondUsesResponse(rule: Rule)
    requires !rule.UnknownType? && rule.action.kind == Respond
    ensures UsesResponse(rule)
  {
    assert NodeOf(rule, rule) && NodeUsesResponse(rule);
  }

  /** The static analysis is sound for the interpreter it picks: every accepted list runs safely in its mode. */
  lemma AcceptedRulesFitTheirMode(raw: seq<Rule>, sets: RuleSets, table: TransportTable)
    requires BuildRules(raw, sets, table).Ok?
    ensures var b := BuildRules(raw, sets, table).value;
            && |b.rules| == |raw|
            && (b.legacy ==> RunsInLegacyMode(b.rules))
            && (!b.legacy ==> RunsInNewMode(b.rules))
            && NoFakeIpEvaluate(b.rules, table)
            && RejectsAreAnswerable(b.rules)
  {
    var b := BuildRules(raw, sets, table).value;
    BuildListMirrors(raw, b.legacy);
    DecisionBindsTopRules(sets, raw, map[]);
    if b.legacy {
      LegacyListIsClean(raw, sets, b.rules);
    } else {
      ValidateNewModeExact(raw);
      NewModeListIsClean(raw, b.rules);
    }
    ValidateEvaluateExact(raw, table, 0);
    EvaluatesAreReal(raw, b.rules, table);
  }

  lemma EvaluatesAreReal(raw: seq<Rule>, rules: seq<RuntimeRule>, table: TransportTable)
    requires Mirrors(raw, rules) && (forall i :: 0 <= i < |raw| ==> !EvaluatesFakeIp(raw[i], table))
    requires forall i :: 0 <= i < |raw| && raw[i].action.kind == Evaluate ==> raw[i].action.server != ""
    ensures NoFakeIpEvaluate(rules, table)
  {
    forall i | 0 <= i < |rules| && rules[i].action.EvaluateWith? && rules[i].action.server in table
      ensures table[rules[i].action.server].kind != FakeIp
    {
      assert !EvaluatesFakeIp(raw[i], table);
    }
  }
}
