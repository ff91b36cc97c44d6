/**
 The static analysis that decides whether a DNS rule list runs in legacy mode or in
 the new mode, the validators that reject mixes, and what both promise about every
 node of the rule tree.
 */
module DnsMode {
  import opened Basics
  import opened DnsRule

  datatype RuleSetMetadata = RuleSetMetadata(containsIpCidr: bool, containsQueryType: bool)

  /** The rule sets the router service knows; `None` when there is no router service. */
  type RuleSets = Option<map<string, RuleSetMetadata>>

  datatype Flags = Flags(disabled: bool, needed: bool, neededFromStrategy: bool)

  const NO_FLAGS := Flags(false, false, false)

  function Merge(f: Flags, g: Flags): Flags
  {
    Flags(f.disabled || g.disabled, f.needed || g.needed, f.neededFromStrategy || g.neededFromStrategy)
  }

  // ----- what one node asks for -----

  predicate HasResponseFields(c: Conditions)
  {
    c.responseRcode.Some? || c.responseAnswer != [] || c.responseNs != [] || c.responseExtra != []
  }

  predicate AddressFilterNeedsLegacy(c: Conditions)
  {
    c.ruleSetAcceptEmpty || (!c.matchResponse && (c.ipAcceptAny || c.ipCidr != [] || c.ipIsPrivate))
  }

  predicate ConditionsDisableLegacy(c: Conditions, kind: ActionKind)
  {
    c.matchResponse || HasResponseFields(c) || kind == Evaluate || kind == Respond || c.ipVersion > 0
        || c.queryTypes != []
  }

  /** Whether the action turns off the optimistic cache, which only the new mode can honour. */
  predicate ActionDisablesLegacy(a: ActionConfig)
  {
    match a.kind
    case Unset | Route | Evaluate => a.route.disableOptimisticCache
    case SetOptions => a.options.disableOptimisticCache
    case _ => false
  }

  /** Whether the action sets a strategy, which only the legacy mode can honour. */
  predicate ActionHasStrategy(a: ActionConfig)
  {
    match a.kind
    case Unset | Route | Evaluate => a.route.strategy != AsIs
    case SetOptions => a.options.strategy != AsIs
    case _ => false
  }

  function LookupMetadata(sets: RuleSets, tag: string, overrides: map<string, RuleSetMetadata>): Result<RuleSetMetadata>
    requires sets.Some?
  {
    if tag in overrides then Ok(overrides[tag])
    else if tag in sets.value then Ok(sets.value[tag])
    else Err(RuleSetNotFound(tag))
  }

  // ----- the analysis -----

  /** Folds the metadata of the referenced rule sets into the flags of a default rule. */
  function RuleSetFlags(sets: RuleSets, tags: seq<string>, matchSource: bool, overrides: map<string, RuleSetMetadata>,
      flags: Flags): Result<Flags>
    requires sets.Some?
  {
    if tags == [] then Ok(flags)
    else
      match LookupMetadata(sets, tags[0], overrides)
      case Err(e) => Err(e)
      case Ok(m) =>
        RuleSetFlags(sets, tags[1..], matchSource, overrides,
                     flags.(disabled := flags.disabled || m.containsQueryType,
                            needed := flags.needed || (!matchSource && m.containsIpCidr)))
  }

  function DefaultRuleFlags(sets: RuleSets, c: Conditions, a: ActionConfig, overrides: map<string,
      RuleSetMetadata>): Result<Flags>
  {
    var fromStrategy := ActionHasStrategy(a);
    var flags := Flags(ConditionsDisableLegacy(c, a.kind) || ActionDisablesLegacy(a),
                       AddressFilterNeedsLegacy(c) || fromStrategy,
                       fromStrategy);
    if c.ruleSets == [] then Ok(flags)
    else if sets.None? then Err(RouterNotFound)
    else RuleSetFlags(sets, c.ruleSets, c.ruleSetMatchSource, overrides, flags)
  }

  function LogicalOwnFlags(a: ActionConfig): Flags
  {
    Flags(a.kind == Evaluate || a.kind == Respond
        || ActionDisablesLegacy(a), ActionHasStrategy(a), ActionHasStrategy(a))
  }

  function RuleFlags(sets: RuleSets, rule: Rule, overrides: map<string, RuleSetMetadata>): Result<Flags>
    decreases rule, 1
  {
    match rule
    case Default(c, _, a) => DefaultRuleFlags(sets, c, a, overrides)
    case Logical(_, rules, _, a) =>
      (match RulesFlags(sets, rules, overrides)
       case Err(e) => Err(e)
       case Ok(f) => Ok(Merge(LogicalOwnFlags(a), f)))
    case UnknownType => Ok(NO_FLAGS)
  }

  function RulesFlags(sets: RuleSets, rules: seq<Rule>, overrides: map<string, RuleSetMetadata>): Result<Flags>
    decreases rules, 0
  {
    if rules == [] then Ok(NO_FLAGS)
    else
      match RuleFlags(sets, rules[0], overrides)
      case Err(e) => Err(e)
      case Ok(f) =>
        match RulesFlags(sets, rules[1..], overrides)
        case Err(e) => Err(e)
        case Ok(g) => Ok(Merge(f, g))
  }

  datatype Decision = Decision(legacy: bool, flags: Flags)

  function ResolveMode(sets: RuleSets, rules: seq<Rule>, overrides: map<string, RuleSetMetadata>): Result<Decision>
  {
    match RulesFlags(sets, rules, overrides)
    case Err(e) => Err(e)
    case Ok(f) =>
      if f.disabled && f.neededFromStrategy then Err(StrategyNeedsLegacyMode)
      else if f.disabled then Ok(Decision(false, f))
      else Ok(Decision(f.needed, f))
  }

  // ----- what the flags mean, node by node -----

  /** `n` is a node of the tree `r`, the root included. */
  ghost predicate NodeOf(n: Rule, r: Rule)
    decreases r
  {
    n == r || (r.Logical? && exists i :: 0 <= i < |r.rules| && NodeOf(n, r.rules[i]))
  }

  ghost predicate NodeIn(n: Rule, rules: seq<Rule>)
  {
    exists i :: 0 <= i < |rules| && NodeOf(n, rules[i])
  }

  /** The metadata a tag stands for once the overrides are taken into account. */
  ghost predicate Known(sets: RuleSets, overrides: map<string, RuleSetMetadata>, tag: string)
  {
    sets.Some? && (tag in overrides || tag in sets.value)
  }

  ghost function MetadataOf(sets: RuleSets, overrides: map<string, RuleSetMetadata>, tag: string): RuleSetMetadata
    requires Known(sets, overrides, tag)
  {
    if tag in overrides then overrides[tag] else sets.value[tag]
  }

  ghost predicate Resolvable(sets: RuleSets, overrides: map<string, RuleSetMetadata>, n: Rule)
  {
    n.Default? ==> forall t :: t in n.when.ruleSets ==> Known(sets, overrides, t)
  }

  ghost predicate NodeDisables(sets: RuleSets, overrides: map<string, RuleSetMetadata>, n: Rule)
  {
    match n
    case UnknownType => false
    case Logical(_, _, _, a) => a.kind == Evaluate || a.kind == Respond || ActionDisablesLegacy(a)
    case Default(c, _, a) =>
      || ConditionsDisableLegacy(c, a.kind)
      || ActionDisablesLegacy(a)
      || exists t :: t in c.ruleSets && Known(sets, overrides, t) && MetadataOf(sets, overrides, t).containsQueryType
  }

  ghost predicate NodeNeeds(sets: RuleSets, overrides: map<string, RuleSetMetadata>, n: Rule)
  {
    match n
    case UnknownType => false
    case Logical(_, _, _, a) => ActionHasStrategy(a)
    case Default(c, _, a) =>
      || AddressFilterNeedsLegacy(c)
      || ActionHasStrategy(a)
      || (&& !c.ruleSetMatchSource
          && exists t :: t in c.ruleSets && Known(sets, overrides, t) && MetadataOf(sets, overrides, t).containsIpCidr)
  }

  ghost predicate NodeHasStrategy(n: Rule)
  {
    !n.UnknownType? && ActionHasStrategy(n.action)
  }

  /** The flags say exactly what some node of the tree asks for. */
  ghost predicate FlagsSay(sets: RuleSets, overrides: map<string, RuleSetMetadata>, rules: seq<Rule>, f: Flags)
  {
    && (f.disabled <==> exists n :: NodeIn(n, rules) && NodeDisables(sets, overrides, n))
    && (f.needed <==> exists n :: NodeIn(n, rules) && NodeNeeds(sets, overrides, n))
    && (f.neededFromStrategy <==> exists n :: NodeIn(n, rules) && NodeHasStrategy(n))
  }

  ghost predicate RuleFlagsSay(sets: RuleSets, overrides: map<string, RuleSetMetadata>, r: Rule, f: Flags)
  {
    && (f.disabled <==> exists n :: NodeOf(n, r) && NodeDisables(sets, overrides, n))
    && (f.needed <==> exists n :: NodeOf(n, r) && NodeNeeds(sets, overrides, n))
    && (f.neededFromStrategy <==> exists n :: NodeOf(n, r) && NodeHasStrategy(n))
  }

  lemma {:induction false} RuleSetFlagsExact(sets: RuleSets, tags: seq<string>, matchSource: bool,
      overrides: map<string, RuleSetMetadata>, flags: Flags)
    requires sets.Some?
    ensures var r := RuleSetFlags(sets, tags, matchSource, overrides, flags);
            && (r.Ok? <==> forall t :: t in tags ==> Known(sets, overrides, t))
            && (r.Ok? ==>
                  && (r.value.disabled <==>
                        || flags.disabled
                        || exists t ::
                             t in tags && Known(sets, overrides, t) && MetadataOf(sets, overrides, t).containsQueryType)
                  && (r.value.needed <==>
                        || flags.needed
                        || (&& !matchSource
                            && exists t ::
                              t in tags && Known(sets, overrides, t) && MetadataOf(sets, overrides, t).containsIpCidr))
                  && r.value.neededFromStrategy == flags.neededFromStrategy)
  {
    if tags != [] {
      assert forall t :: t in tags <==> t == tags[0] || t in tags[1..];
      if Known(sets, overrides, tags[0]) {
        var m := MetadataOf(sets, overrides, tags[0]);
        RuleSetFlagsExact(sets, tags[1..], matchSource, overrides,
                          flags.(disabled := flags.disabled || m.containsQueryType, needed := flags.needed
                              || (!matchSource && m.containsIpCidr)));
      }
    }
  }

  lemma NodesOfCons(rules: seq<Rule>)
    requires rules != []
    ensures forall n :: NodeIn(n, rules) <==> NodeOf(n, rules[0]) || NodeIn(n, rules[1..])
  {
    forall n ensures NodeIn(n, rules) <==> NodeOf(n, rules[0]) || NodeIn(n, rules[1..]) {
      if NodeIn(n, rules) {
        var i :| 0 <= i < |rules| && NodeOf(n, rules[i]);
        assert i > 0 ==> rules[1..][i - 1] == rules[i];
      }
      if NodeIn(n, rules[1..]) {
        var i :| 0 <= i < |rules[1..]| && NodeOf(n, rules[1..][i]);
        assert rules[i + 1] == rules[1..][i];
      }
    }
  }

  lemma NodesOfLogical(r: Rule)
    requires r.Logical?
    ensures forall n :: NodeOf(n, r) <==> n == r || NodeIn(n, r.rules)
  {
  }

  lemma DefaultFlagsExact(sets: RuleSets, rule: Rule, overrides: map<string, RuleSetMetadata>)
    requires rule.Default?
    ensures var r := RuleFlags(sets, rule, overrides);
            && (r.Ok? <==> Resolvable(sets, overrides, rule))
            && (r.Ok? ==>
               r.value == Flags(NodeDisables(sets, overrides, rule), NodeNeeds(sets, overrides, rule),
               NodeHasStrategy(rule)))
  {
    var c, a := rule.when, rule.action;
    if c.ruleSets != [] {
      assert c.ruleSets[0] in c.ruleSets;
    }
    if sets.Some? {
      var strategy := ActionHasStrategy(a);
      RuleSetFlagsExact(sets, c.ruleSets, c.ruleSetMatchSource, overrides,
                        Flags(ConditionsDisableLegacy(c, a.kind)
                            || ActionDisablesLegacy(a), AddressFilterNeedsLegacy(c) || strategy, strategy));
    }
  }

  /** The fold over the tree reports exactly what its nodes ask for, and fails exactly on an unknown rule set. */
  lemma {:induction false} RuleFlagsExact(sets: RuleSets, rule: Rule, overrides: map<string, RuleSetMetadata>)
    ensures var r := RuleFlags(sets, rule, overrides);
            && (r.Ok? <==> forall n :: NodeOf(n, rule) ==> Resolvable(sets, overrides, n))
            && (r.Ok? ==> RuleFlagsSay(sets, overrides, rule, r.value))
    decreases rule, 1
  {
    assert NodeOf(rule, rule);
    match rule
    case UnknownType =>
    case Default(_, _, _) => DefaultFlagsExact(sets, rule, overrides);
    case Logical(_, rules, _, _) =>
      FlagsExact(sets, rules, overrides);
      NodesOfLogical(rule);
  }

  lemma {:induction false} FlagsExact(sets: RuleSets, rules: seq<Rule>, overrides: map<string, RuleSetMetadata>)
    ensures var r := RulesFlags(sets, rules, overrides);
            && (r.Ok? <==> forall n :: NodeIn(n, rules) ==> Resolvable(sets, overrides, n))
            && (r.Ok? ==> FlagsSay(sets, overrides, rules, r.value))
    decreases rules, 0
  {
    if rules != [] {
      RuleFlagsExact(sets, rules[0], overrides);
      FlagsExact(sets, rules[1..], overrides);
      NodesOfCons(rules);
    }
  }

  /** A strategy anywhere in the tree also asks for legacy mode. */
  lemma StrategyImpliesNeeded(sets: RuleSets, rules: seq<Rule>, overrides: map<string, RuleSetMetadata>)
    requires RulesFlags(sets, rules, overrides).Ok?
    ensures RulesFlags(sets, rules, overrides).value.neededFromStrategy ==>
              RulesFlags(sets, rules, overrides).value.needed
  {
    FlagsExact(sets, rules, overrides);
  }

  /** The mode decided, in terms of the nodes alone: both directions of the choice and of the rejection. */
  lemma ResolveModeExact(sets: RuleSets, rules: seq<Rule>, overrides: map<string, RuleSetMetadata>)
    ensures var d := ResolveMode(sets, rules, overrides);
            var resolvable := forall n :: NodeIn(n, rules) ==> Resolvable(sets, overrides, n);
            var disables := exists n :: NodeIn(n, rules) && NodeDisables(sets, overrides, n);
            var needs := exists n :: NodeIn(n, rules) && NodeNeeds(sets, overrides, n);
            var strategy := exists n :: NodeIn(n, rules) && NodeHasStrategy(n);
            && (d.Ok? <==> resolvable && !(disables && strategy))
            && (d.Ok? ==> (d.value.legacy <==> needs && !disables))
            && (d.Ok? && d.value.legacy ==> !disables)
            && (d.Ok? && !d.value.legacy ==> !strategy)
  {
    FlagsExact(sets, rules, overrides);
  }

  // ----- the validators -----

  predicate ActionConfigured(rule: Rule)
  {
    !rule.UnknownType? && rule.action != NO_ACTION
  }

  predicate NoNestedActions(rule: Rule, nested: bool)
    decreases rule
  {
    && !(nested && ActionConfigured(rule))
    && (rule.Logical? ==> forall i :: 0 <= i < |rule.rules| ==> NoNestedActions(rule.rules[i], true))
  }

  function ValidateDefault(c: Conditions, kind: ActionKind): Result<bool>
  {
    if (HasResponseFields(c) || c.ipCidr != [] || c.ipIsPrivate || c.ipAcceptAny) && !c.matchResponse then
      Err(ResponseFieldsNeedMatchResponse)
    else if c.ruleSetAcceptEmpty then Err(AcceptEmptyUnsupported)
    else Ok(c.matchResponse || kind == Respond)
  }

  /** Whether the tree needs an evaluated response, or why it cannot run in the new mode. */
  function ValidateTree(rule: Rule): Result<bool>
    decreases rule, 1
  {
    match rule
    case Default(c, _, a) => ValidateDefault(c, a.kind)
    case Logical(_, rules, _, a) =>
      (match ValidateTrees(rules)
       case Err(e) => Err(e)
       case Ok(needs) => Ok(a.kind == Respond || needs))
    case UnknownType => Ok(false)
  }

  function ValidateTrees(rules: seq<Rule>): Result<bool>
    decreases rules, 0
  {
    if rules == [] then Ok(false)
    else
      match ValidateTree(rules[0])
      case Err(e) => Err(e)
      case Ok(b) =>
        match ValidateTrees(rules[1..])
        case Err(e) => Err(e)
        case Ok(c) => Ok(b || c)
  }

  /** The ordering check over the whole list, from `index` on. */
  function ValidateOrder(rules: seq<Rule>, index: nat, seenEvaluate: bool): Option<Error>
    requires index <= |rules|
    decreases |rules| - index
  {
    if index == |rules| then None
    else
      match ValidateTree(rules[index])
      case Err(e) => Some(e)
      case Ok(needs) =>
        if needs && !seenEvaluate then Some(EvaluateMissing(index))
        else ValidateOrder(rules, index + 1, seenEvaluate || ActionKindOf(rules[index]) == Evaluate)
  }

  function ValidateNewMode(rules: seq<Rule>): Option<Error>
  {
    ValidateOrder(rules, 0, false)
  }

  ghost predicate WellFormedForNewMode(n: Rule)
  {
    n.Default? ==>
      && (HasResponseFields(n.when) || n.when.ipCidr != [] || n.when.ipIsPrivate || n.when.ipAcceptAny ==>
         n.when.matchResponse)
      && !n.when.ruleSetAcceptEmpty
  }

  ghost predicate NodeUsesResponse(n: Rule)
  {
    match n
    case Default(c, _, a) => c.matchResponse || a.kind == Respond
    case Logical(_, _, _, a) => a.kind == Respond
    case UnknownType => false
  }

  /** The rule consumes an evaluated response somewhere in its tree. */
  ghost predicate UsesResponse(r: Rule)
  {
    exists n :: NodeOf(n, r) && NodeUsesResponse(n)
  }

  lemma {:induction false} ValidateTreeExact(rule: Rule)
    ensures ValidateTree(rule).Ok? <==> forall n :: NodeOf(n, rule) ==> WellFormedForNewMode(n)
    ensures ValidateTree(rule).Ok? ==> (ValidateTree(rule).value <==> UsesResponse(rule))
    decreases rule, 1
  {
    match rule
    case UnknownType =>
    case Default(c, _, a) => assert NodeOf(rule, rule);
    case Logical(_, rules, _, a) =>
      ValidateTreesExact(rules);
      NodesOfLogical(rule);
      assert NodeOf(rule, rule);
  }

  lemma {:induction false} ValidateTreesExact(rules: seq<Rule>)
    ensures ValidateTrees(rules).Ok? <==> forall n :: NodeIn(n, rules) ==> WellFormedForNewMode(n)
    ensures ValidateTrees(rules).Ok? ==>
              (ValidateTrees(rules).value <==> exists n :: NodeIn(n, rules) && NodeUsesResponse(n))
    decreases rules, 0
  {
    if rules != [] {
      ValidateTreeExact(rules[0]);
      ValidateTreesExact(rules[1..]);
      NodesOfCons(rules);
    }
  }

  /** Every rule that consumes a response has an evaluate rule before it. */
  ghost predicate EvaluateComesFirst(rules: seq<Rule>)
  {
    forall i :: 0 <= i < |rules| && UsesResponse(rules[i]) ==>
        exists j :: 0 <= j < i && ActionKindOf(rules[j]) == Evaluate
  }

  lemma {:induction false} ValidateOrderExact(rules: seq<Rule>, index: nat, seen: bool)
    requires index <= |rules|
    requires seen <==> exists j :: 0 <= j < index && ActionKindOf(rules[j]) == Evaluate
    ensures ValidateOrder(rules, index, seen).None? <==>
            && (forall i, n :: index <= i < |rules| && NodeOf(n, rules[i]) ==> WellFormedForNewMode(n))
            && (forall i :: index <= i < |rules| && UsesResponse(rules[i]) ==>
               exists j :: 0 <= j < i && ActionKindOf(rules[j]) == Evaluate)
    decreases |rules| - index
  {
    if index < |rules| {
      ValidateTreeExact(rules[index]);
      var seen' := seen || ActionKindOf(rules[index]) == Evaluate;
      ValidateOrderExact(rules, index + 1, seen');
    }
  }

  /** The new-mode validator accepts exactly the well-formed lists in which evaluate comes first. */
  lemma ValidateNewModeExact(rules: seq<Rule>)
    ensures ValidateNewMode(rules).None? <==>
              (forall n :: NodeIn(n, rules) ==> WellFormedForNewMode(n)) && EvaluateComesFirst(rules)
  {
    ValidateOrderExact(rules, 0, false);
    if forall n :: NodeIn(n, rules) ==> WellFormedForNewMode(n) {
      forall i, n | 0 <= i < |rules| && NodeOf(n, rules[i]) ensures WellFormedForNewMode(n) {
        assert NodeIn(n, rules);
      }
    }
  }
}
