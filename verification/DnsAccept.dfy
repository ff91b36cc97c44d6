/**
 Which rule lists the builder accepts, said of the nodes of the rule trees alone.
 */
module DnsAccept {
  import opened DnsRule
  import opened DnsMode
  import opened DnsBuild

  ghost predicate NodeConfigured(n: Rule)
  {
    match n
    case Default(c, _, a) => c != NO_CONDITIONS || a != NO_ACTION
    case Logical(_, rules, _, _) => rules != []
    case UnknownType => false
  }

  /** What the builder asks of a node for itself. */
  ghost predicate NodeBuilds(n: Rule, legacy: bool)
  {
    && NodeConfigured(n)
    && !(n.action.kind == Reject && n.action.reject == RejectReply)
    && (n.Default? ==>
       n.when.other.wellFormed && n.when.ipVersion in {0, 4, 6} && (n.when.ruleSetAcceptEmpty ==> legacy))
    && (n.Logical? ==> n.mode != UnknownMode)
  }

  /** A rule of the list, as opposed to a branch of a logical rule, names the server it sends to. */
  ghost predicate NamesServer(rule: Rule)
  {
    !rule.UnknownType? && (rule.action.kind in {Unset, Route, Evaluate} ==> rule.action.server != "")
  }

  /** Only the rules of the list carry actions. */
  ghost predicate BranchesCarryNoAction(rule: Rule)
  {
    rule.Logical? ==> forall n :: NodeIn(n, rule.rules) ==> !ActionConfigured(n)
  }

  ghost predicate TreeBuilds(rule: Rule, legacy: bool)
  {
    forall n :: NodeOf(n, rule) ==> NodeBuilds(n, legacy)
  }

  lemma {:induction false} ConfiguredExact(rule: Rule)
    ensures ConditionsConfigured(rule) <==> forall n :: NodeOf(n, rule) ==> NodeConfigured(n)
    decreases rule
  {
    assert NodeOf(rule, rule);
    if rule.Logical? {
      forall i | 0 <= i < |rule.rules|
        ensures ConditionsConfigured(rule.rules[i]) <==> forall n :: NodeOf(n, rule.rules[i]) ==> NodeConfigured(n)
      {
        ConfiguredExact(rule.rules[i]);
      }
    }
  }

  lemma {:induction false} NoNestedExact(rule: Rule)
    ensures NoNestedActions(rule, true) <==> forall n :: NodeOf(n, rule) ==> !ActionConfigured(n)
    decreases rule
  {
    assert NodeOf(rule, rule);
    if rule.Logical? {
      forall i | 0 <= i < |rule.rules|
        ensures NoNestedActions(rule.rules[i], true) <==> forall n :: NodeOf(n, rule.rules[i]) ==> !ActionConfigured(n)
      {
        NoNestedExact(rule.rules[i]);
      }
    }
  }

  lemma TopNestingExact(rule: Rule)
    ensures NoNestedActions(rule, false) <==> BranchesCarryNoAction(rule)
  {
    if rule.Logical? {
      forall i | 0 <= i < |rule.rules|
        ensures NoNestedActions(rule.rules[i], true) <==> forall n :: NodeOf(n, rule.rules[i]) ==> !ActionConfigured(n)
      {
        NoNestedExact(rule.rules[i]);
      }
    }
  }

  /** A rule builds exactly when every node of its tree does and no branch carries an action. */
  lemma {:induction false} BuildRuleExact(rule: Rule, top: bool, legacy: bool)
    requires top || !ActionConfigured(rule)
    ensures BuildRule(rule, top, legacy).Ok? <==>
              TreeBuilds(rule, legacy) && BranchesCarryNoAction(rule) && (top ==> NamesServer(rule))
    decreases rule, 1
  {
    ConfiguredExact(rule);
    assert NodeOf(rule, rule);
    if rule.Logical? {
      NodesOfLogical(rule);
      BuildBranchesExact(rule.rules, legacy);
    }
  }

  lemma {:induction false} BuildBranchesExact(rules: seq<Rule>, legacy: bool)
    ensures BuildBranches(rules, legacy).None? <==> forall n :: NodeIn(n, rules) ==>
              NodeBuilds(n, legacy) && !ActionConfigured(n)
    decreases rules, 0
  {
    if rules != [] {
      NodesOfCons(rules);
      NoNestedExact(rules[0]);
      assert NodeOf(rules[0], rules[0]);
      if NoNestedActions(rules[0], true) {
        BuildRuleExact(rules[0], false, legacy);
        if rules[0].Logical? {
          NodesOfLogical(rules[0]);
        }
      }
      BuildBranchesExact(rules[1..], legacy);
    }
  }

  lemma {:induction false} BuildListExact(rules: seq<Rule>, legacy: bool)
    ensures BuildList(rules, legacy).Ok? <==>
              forall i :: 0 <= i < |rules| ==>
                  TreeBuilds(rules[i], legacy) && BranchesCarryNoAction(rules[i]) && NamesServer(rules[i])
    decreases |rules|
  {
    if rules != [] {
      BuildRuleExact(rules[0], true, legacy);
      BuildListExact(rules[1..], legacy);
      assert forall i :: 0 < i < |rules| ==> rules[1..][i - 1] == rules[i];
    }
  }

  /** Every rule of the list builds and names its server. */
  ghost predicate ListBuilds(raw: seq<Rule>, legacy: bool)
  {
    forall i :: 0 <= i < |raw| ==> TreeBuilds(raw[i], legacy) && BranchesCarryNoAction(raw[i]) && NamesServer(raw[i])
  }

  /** The order of the checks does not matter for which lists pass them. */
  lemma BuildAfterMode(raw: seq<Rule>, sets: RuleSets, table: TransportTable)
    ensures var d := ResolveMode(sets, raw, map[]);
            var b := BuildRules(raw, sets, table);
            && (b.Ok? <==>
               d.Ok? && (d.value.legacy || ValidateNewMode(raw).None?) && ValidateEvaluate(raw, table, 0).None?
               && ListBuilds(raw, d.value.legacy))
            && (b.Ok? ==> b.value.legacy == d.value.legacy)
  {
    forall i | 0 <= i < |raw| ensures NoNestedActions(raw[i], false) <==> BranchesCarryNoAction(raw[i]) {
      TopNestingExact(raw[i]);
    }
    var d := ResolveMode(sets, raw, map[]);
    if d.Ok? {
      BuildListExact(raw, d.value.legacy);
    }
  }

  /**
   The rule lists that are accepted, and the mode each runs in: every rule builds, every rule set is
   known, no evaluate names a fakeip server; a strategy and a node that rules out legacy mode do not
   meet; and a list that does not run in legacy mode is well-formed for the new one.
   */
  lemma AcceptedExactly(raw: seq<Rule>, sets: RuleSets, table: TransportTable)
    ensures var disables := exists n :: NodeIn(n, raw) && NodeDisables(sets, map[], n);
            var needs := exists n :: NodeIn(n, raw) && NodeNeeds(sets, map[], n);
            var strategy := exists n :: NodeIn(n, raw) && NodeHasStrategy(n);
            var legacy := needs && !disables;
            var b := BuildRules(raw, sets, table);
            && (b.Ok? <==>
                  && ListBuilds(raw, legacy)
                  && (forall n :: NodeIn(n, raw) ==> Resolvable(sets, map[], n))
                  && !(disables && strategy)
                  && (legacy || ((forall n :: NodeIn(n, raw) ==> WellFormedForNewMode(n)) && EvaluateComesFirst(raw)))
                  && (forall i :: 0 <= i < |raw| ==> !EvaluatesFakeIp(raw[i], table)))
            && (b.Ok? ==> (b.value.legacy <==> legacy))
  {
    ResolveModeExact(sets, raw, map[]);
    ValidateNewModeExact(raw);
    ValidateEvaluateExact(raw, table, 0);
    BuildAfterMode(raw, sets, table);
  }
}
