/**
 Rule-set metadata updates: which ones a router accepts in each phase, and what stays true
 over any run of them.
 */
module DnsUpdate {
  import opened Basics
  import opened DnsRule
  import opened DnsMode
  import opened DnsBuild

  datatype Phase = Waiting | Running(legacy: bool) | Closing

  datatype Update = Update(tag: string, metadata: RuleSetMetadata)

  /** The answer to an update before it is applied: `None` accepts it. */
  function CheckUpdate(raw: seq<Rule>, phase: Phase, sets: RuleSets, u: Update): Option<Error>
  {
    if raw == [] then None
    else if sets.None? then Some(RouterNotFound)
    else if phase.Closing? then None
    else
      match ResolveMode(sets, raw, map[u.tag := u.metadata])
      case Err(e) => Some(e)
      case Ok(d) =>
        if phase.Waiting? then (if d.legacy then None else ValidateNewMode(raw))
        else if phase.legacy then
          if !d.legacy && d.flags.disabled then
            (if ValidateNewMode(raw).Some? then ValidateNewMode(raw) else Some(AddressFilterNeedsOtherMode))
          else None
        else if d.legacy then Some(AddressFilterNeedsOtherMode)
        else None
  }

  function Updated(sets: RuleSets, u: Update): RuleSets
  {
    if sets.Some? then Some(sets.value[u.tag := u.metadata]) else sets
  }

  /** The rule sets after a run of updates, each applied only when accepted. */
  function AfterUpdates(raw: seq<Rule>, phase: Phase, sets: RuleSets, updates: seq<Update>): RuleSets
    decreases |updates|
  {
    if updates == [] then sets
    else
      var next := if CheckUpdate(raw, phase, sets, updates[0]).None? then Updated(sets, updates[0]) else sets;
      AfterUpdates(raw, phase, next, updates[1..])
  }

  // ----- overrides are updates seen in advance -----

  function Overridden(sets: RuleSets, overrides: map<string, RuleSetMetadata>): RuleSets
  {
    if sets.Some? then Some(sets.value + overrides) else sets
  }

  lemma {:induction false} OverrideInTags(sets: RuleSets, tags: seq<string>, matchSource: bool, overrides: map<string,
      RuleSetMetadata>, flags: Flags)
    requires sets.Some?
    ensures RuleSetFlags(sets, tags, matchSource, overrides, flags) == RuleSetFlags(Overridden(sets, overrides), tags,
              matchSource, map[], flags)
    decreases |tags|
  {
    if tags != [] {
      var m := LookupMetadata(sets, tags[0], overrides);
      assert m == LookupMetadata(Overridden(sets, overrides), tags[0], map[]);
      if m.Ok? {
        OverrideInTags(sets, tags[1..], matchSource, overrides,
                       flags.(disabled := flags.disabled || m.value.containsQueryType, needed := flags.needed
                           || (!matchSource && m.value.containsIpCidr)));
      }
    }
  }

  lemma {:induction false} OverrideInRule(sets: RuleSets, rule: Rule, overrides: map<string, RuleSetMetadata>)
    requires sets.Some?
    ensures RuleFlags(sets, rule, overrides) == RuleFlags(Overridden(sets, overrides), rule, map[])
    decreases rule, 1
  {
    match rule
    case UnknownType =>
    case Default(c, _, a) =>
      var strategy := ActionHasStrategy(a);
      OverrideInTags(sets, c.ruleSets, c.ruleSetMatchSource, overrides,
                     Flags(ConditionsDisableLegacy(c, a.kind) || ActionDisablesLegacy(a), AddressFilterNeedsLegacy(c)
                         || strategy, strategy));
    case Logical(_, rules, _, a) =>
      OverridesAreUpdates(sets, rules, overrides);
  }

  /** Analysing with overrides is analysing after they are applied. */
  lemma {:induction false} OverridesAreUpdates(sets: RuleSets, rules: seq<Rule>, overrides: map<string,
      RuleSetMetadata>)
    requires sets.Some?
    ensures RulesFlags(sets, rules, overrides) == RulesFlags(Overridden(sets, overrides), rules, map[])
    decreases rules, 0
  {
    if rules != [] {
      OverrideInRule(sets, rules[0], overrides);
      OverridesAreUpdates(sets, rules[1..], overrides);
    }
  }

  /** The same for the single update a router is asked about. */
  lemma OverrideIsUpdate(sets: RuleSets, rules: seq<Rule>, u: Update)
    requires sets.Some?
    ensures RulesFlags(sets, rules, map[u.tag := u.metadata]) == RulesFlags(Updated(sets, u), rules, map[])
  {
    OverridesAreUpdates(sets, rules, map[u.tag := u.metadata]);
    assert sets.value + map[u.tag := u.metadata] == sets.value[u.tag := u.metadata];
  }

  // ----- what a running router keeps -----

  /** In legacy mode no rule is flagged as disabling it; in the new mode the analysis does not ask for legacy. */
  ghost predicate ModeHolds(raw: seq<Rule>, sets: RuleSets, legacy: bool)
  {
    if legacy then RulesFlags(sets, raw, map[]).Ok? && !RulesFlags(sets, raw, map[]).value.disabled
    else ResolveMode(sets, raw, map[]).Ok? && !ResolveMode(sets, raw, map[]).value.legacy
  }

  /** A running router accepts exactly the updates that keep its mode right. */
  lemma AcceptsExactlyWhatKeepsTheMode(raw: seq<Rule>, sets: RuleSets, legacy: bool, u: Update)
    requires raw != [] && sets.Some?
    ensures CheckUpdate(raw, Running(legacy), sets, u).None? <==> ModeHolds(raw, Updated(sets, u), legacy)
  {
    OverrideIsUpdate(sets, raw, u);
  }

  lemma NoRulesNoMode(sets: RuleSets, legacy: bool)
    ensures ModeHolds([], sets, legacy)
  {
  }

  /** Over any run of updates the mode stays right. */
  lemma {:induction false} ModeHoldsOverAnyRun(raw: seq<Rule>, sets: RuleSets, legacy: bool, updates: seq<Update>)
    requires ModeHolds(raw, sets, legacy)
    ensures ModeHolds(raw, AfterUpdates(raw, Running(legacy), sets, updates), legacy)
    decreases |updates|
  {
    if updates != [] {
      var u := updates[0];
      var accepted := CheckUpdate(raw, Running(legacy), sets, u).None?;
      var next := if accepted then Updated(sets, u) else sets;
      if raw == [] {
        NoRulesNoMode(next, legacy);
      } else if accepted && sets.Some? {
        AcceptsExactlyWhatKeepsTheMode(raw, sets, legacy, u);
      }
      ModeHoldsOverAnyRun(raw, next, legacy, updates[1..]);
    }
  }

  /** The same, said of the nodes of the rule tree, from the build on. */
  lemma RunningRulesStayInTheirMode(raw: seq<Rule>, sets: RuleSets, table: TransportTable, updates: seq<Update>)
    requires BuildRules(raw, sets, table).Ok?
    ensures var legacy := BuildRules(raw, sets, table).value.legacy;
            var now := AfterUpdates(raw, Running(legacy), sets, updates);
            && (legacy ==> forall n :: NodeIn(n, raw) ==> !NodeDisables(now, map[], n))
            && (!legacy ==>
               !((exists n :: NodeIn(n, raw) && NodeNeeds(now, map[], n))
               && (forall n :: NodeIn(n, raw) ==> !NodeDisables(now, map[], n))))
            && (forall n :: NodeIn(n, raw) ==> Resolvable(now, map[], n))
  {
    var legacy := BuildRules(raw, sets, table).value.legacy;
    var now := AfterUpdates(raw, Running(legacy), sets, updates);
    ModeHoldsOverAnyRun(raw, sets, legacy, updates);
    FlagsExact(now, raw, map[]);
  }

  // ----- before the start -----

  /** What the build checks that depends on rule sets. */
  ghost predicate WouldBuild(raw: seq<Rule>, sets: RuleSets)
  {
    ResolveMode(sets, raw, map[]).Ok? && (ResolveMode(sets, raw, map[]).value.legacy || ValidateNewMode(raw).None?)
  }

  /** Updates accepted while waiting never make the mode analysis of the later start fail. */
  lemma {:induction false} WaitingUpdatesKeepBuildable(raw: seq<Rule>, sets: RuleSets, updates: seq<Update>)
    requires WouldBuild(raw, sets)
    ensures WouldBuild(raw, AfterUpdates(raw, Waiting, sets, updates))
    decreases |updates|
  {
    if updates != [] {
      var u := updates[0];
      var next := if CheckUpdate(raw, Waiting, sets, u).None? then Updated(sets, u) else sets;
      if sets.Some? {
        OverrideIsUpdate(sets, raw, u);
      }
      WaitingUpdatesKeepBuildable(raw, next, updates[1..]);
    }
  }

  // ----- updates checked against the same state and then all applied -----

  /** The metadata the updates leave, the last one of a tag deciding. */
  function Overrides(us: seq<Update>): (o: map<string, RuleSetMetadata>)
    ensures forall t :: t in o ==> exists i :: 0 <= i < |us| && us[i] == Update(t, o[t])
    ensures forall i :: 0 <= i < |us| ==> us[i].tag in o
  {
    if us == [] then map[]
    else
      var front := Overrides(us[..|us| - 1]);
      assert forall t :: t in front ==>
          exists i :: 0 <= i < |us| - 1 && us[..|us| - 1][i] == us[i] == Update(t, front[t]);
      front[us[|us| - 1].tag := us[|us| - 1].metadata]
  }

  ghost predicate AllAccepted(raw: seq<Rule>, sets: RuleSets, legacy: bool, us: seq<Update>)
  {
    forall i :: 0 <= i < |us| ==> CheckUpdate(raw, Running(legacy), sets, us[i]).None?
  }

  /** What a tag stands for after all updates it stands for after one of them. */
  lemma OneUpdateExplains(sets: RuleSets, us: seq<Update>, t: string) returns (i: nat)
    requires sets.Some? && us != [] && Known(Overridden(sets, Overrides(us)), map[], t)
    ensures i < |us| && Known(Updated(sets, us[i]), map[], t)
    ensures MetadataOf(Updated(sets, us[i]), map[], t) == MetadataOf(Overridden(sets, Overrides(us)), map[], t)
  {
    if t in Overrides(us) {
      i :| 0 <= i < |us| && us[i] == Update(t, Overrides(us)[t]);
    } else {
      i := 0;
      assert us[0].tag in Overrides(us);
    }
  }

  /** So a node that disables legacy mode after all updates does so after one of them. */
  lemma NodeDisabledByOne(sets: RuleSets, us: seq<Update>, n: Rule) returns (i: nat)
    requires sets.Some? && us != [] && NodeDisables(Overridden(sets, Overrides(us)), map[], n)
    ensures i < |us| && NodeDisables(Updated(sets, us[i]), map[], n)
  {
    var now := Overridden(sets, Overrides(us));
    i := 0;
    if n.Default? && !ConditionsDisableLegacy(n.when, n.action.kind) && !ActionDisablesLegacy(n.action) {
      var t :| t in n.when.ruleSets && Known(now, map[], t) && MetadataOf(now, map[], t).containsQueryType;
      i := OneUpdateExplains(sets, us, t);
    }
  }

  lemma AllAcceptedIsResolvable(raw: seq<Rule>, sets: RuleSets, legacy: bool, us: seq<Update>)
    requires raw != [] && sets.Some? && ModeHolds(raw, sets, legacy)
    ensures RulesFlags(Overridden(sets, Overrides(us)), raw, map[]).Ok?
  {
    var now := Overridden(sets, Overrides(us));
    FlagsExact(sets, raw, map[]);
    FlagsExact(now, raw, map[]);
    forall n | NodeIn(n, raw) ensures Resolvable(now, map[], n) {
      assert Resolvable(sets, map[], n);
      if n.Default? {
        forall t | t in n.when.ruleSets ensures Known(now, map[], t) {
          assert Known(sets, map[], t);
        }
      }
    }
  }

  lemma LegacySurvivesTogether(raw: seq<Rule>, sets: RuleSets, us: seq<Update>)
    requires raw != [] && sets.Some? && ModeHolds(raw, sets, true) && AllAccepted(raw, sets, true, us)
    ensures ModeHolds(raw, Overridden(sets, Overrides(us)), true)
  {
    var now := Overridden(sets, Overrides(us));
    AllAcceptedIsResolvable(raw, sets, true, us);
    FlagsExact(now, raw, map[]);
    if us == [] {
      assert sets.value + map[] == sets.value;
    } else {
      forall n | NodeIn(n, raw) ensures !NodeDisables(now, map[], n) {
        if NodeDisables(now, map[], n) {
          var i := NodeDisabledByOne(sets, us, n);
          AcceptsExactlyWhatKeepsTheMode(raw, sets, true, us[i]);
          FlagsExact(Updated(sets, us[i]), raw, map[]);
          assert false;
        }
      }
    }
  }

  // ----- the modes, said of rule-set tags -----

  ghost predicate DisablesByItself(n: Rule)
  {
    match n
    case UnknownType => false
    case Logical(_, _, _, a) => a.kind == Evaluate || a.kind == Respond || ActionDisablesLegacy(a)
    case Default(c, _, a) => ConditionsDisableLegacy(c, a.kind) || ActionDisablesLegacy(a)
  }

  ghost predicate NeedsByItself(n: Rule)
  {
    match n
    case UnknownType => false
    case Logical(_, _, _, a) => ActionHasStrategy(a)
    case Default(c, _, a) => AddressFilterNeedsLegacy(c) || ActionHasStrategy(a)
  }

  /** Some rule refers to the rule set `t`. */
  ghost predicate Referenced(raw: seq<Rule>, t: string)
  {
    exists n :: NodeIn(n, raw) && n.Default? && t in n.when.ruleSets
  }

  /** Some rule matches the addresses of the rule set `t` against the answer. */
  ghost predicate ReferencedForAnswer(raw: seq<Rule>, t: string)
  {
    exists n :: NodeIn(n, raw) && n.Default? && t in n.when.ruleSets && !n.when.ruleSetMatchSource
  }

  ghost predicate HasQueryType(sets: RuleSets, t: string)
  {
    sets.Some? && t in sets.value && sets.value[t].containsQueryType
  }

  ghost predicate HasAddresses(sets: RuleSets, t: string)
  {
    sets.Some? && t in sets.value && sets.value[t].containsIpCidr
  }

  ghost predicate Disabled(raw: seq<Rule>, sets: RuleSets)
  {
    (exists n :: NodeIn(n, raw) && DisablesByItself(n)) || (exists t :: Referenced(raw, t) && HasQueryType(sets, t))
  }

  ghost predicate Needed(raw: seq<Rule>, sets: RuleSets)
  {
    (exists n :: NodeIn(n, raw) && NeedsByItself(n))
        || (exists t :: ReferencedForAnswer(raw, t) && HasAddresses(sets, t))
  }

  lemma DisabledByTags(raw: seq<Rule>, sets: RuleSets)
    ensures Disabled(raw, sets) <==> exists n :: NodeIn(n, raw) && NodeDisables(sets, map[], n)
  {
    if exists t :: Referenced(raw, t) && HasQueryType(sets, t) {
      var t :| Referenced(raw, t) && HasQueryType(sets, t);
      var n :| NodeIn(n, raw) && n.Default? && t in n.when.ruleSets;
      assert Known(sets, map[], t) && MetadataOf(sets, map[], t).containsQueryType;
      assert NodeDisables(sets, map[], n);
    }
    if exists n :: NodeIn(n, raw) && NodeDisables(sets, map[], n) {
      var n :| NodeIn(n, raw) && NodeDisables(sets, map[], n);
      if !DisablesByItself(n) {
        var t :| t in n.when.ruleSets && Known(sets, map[], t) && MetadataOf(sets, map[], t).containsQueryType;
        assert Referenced(raw, t) && HasQueryType(sets, t);
      }
    }
    forall n | NodeIn(n, raw) && DisablesByItself(n) ensures NodeDisables(sets, map[], n) {
    }
  }

  lemma NeededByTags(raw: seq<Rule>, sets: RuleSets)
    ensures Needed(raw, sets) <==> exists n :: NodeIn(n, raw) && NodeNeeds(sets, map[], n)
  {
    if exists t :: ReferencedForAnswer(raw, t) && HasAddresses(sets, t) {
      var t :| ReferencedForAnswer(raw, t) && HasAddresses(sets, t);
      var n :| NodeIn(n, raw) && n.Default? && t in n.when.ruleSets && !n.when.ruleSetMatchSource;
      assert Known(sets, map[], t) && MetadataOf(sets, map[], t).containsIpCidr;
      assert NodeNeeds(sets, map[], n);
    }
    if exists n :: NodeIn(n, raw) && NodeNeeds(sets, map[], n) {
      var n :| NodeIn(n, raw) && NodeNeeds(sets, map[], n);
      if !NeedsByItself(n) {
        var t :| t in n.when.ruleSets && Known(sets, map[], t) && MetadataOf(sets, map[], t).containsIpCidr;
        assert ReferencedForAnswer(raw, t) && HasAddresses(sets, t);
      }
    }
    forall n | NodeIn(n, raw) && NeedsByItself(n) ensures NodeNeeds(sets, map[], n) {
    }
  }

  /**
   The new mode is right exactly when no rule has a strategy and what needs legacy is outweighed by something that
   disables it.
   */
  lemma NewModeByTags(raw: seq<Rule>, sets: RuleSets)
    requires RulesFlags(sets, raw, map[]).Ok?
    ensures ModeHolds(raw, sets, false) <==>
              (forall n :: NodeIn(n, raw) ==> !NodeHasStrategy(n)) && (Needed(raw, sets) ==> Disabled(raw, sets))
  {
    ResolveModeExact(sets, raw, map[]);
    FlagsExact(sets, raw, map[]);
    DisabledByTags(raw, sets);
    NeededByTags(raw, sets);
    forall n | NodeIn(n, raw) && NodeHasStrategy(n) ensures NeedsByItself(n) {
    }
  }

  // ----- what is lost together -----

  /** Every rule set that disabled legacy mode loses its query types to an update, and no update brings any. */
  ghost predicate QueryTypesCleared(raw: seq<Rule>, sets: RuleSets, o: map<string, RuleSetMetadata>)
  {
    && (forall t :: Referenced(raw, t) && HasQueryType(sets, t) ==> t in o)
    && (forall t :: Referenced(raw, t) && t in o ==> !o[t].containsQueryType)
  }

  /** After the updates a rule needs legacy mode, for itself or through a rule set with addresses. */
  ghost predicate NeededAfter(raw: seq<Rule>, sets: RuleSets, o: map<string, RuleSetMetadata>)
  {
    || (exists n :: NodeIn(n, raw) && NeedsByItself(n))
    || (exists t :: ReferencedForAnswer(raw, t) && if t in o then o[t].containsIpCidr else HasAddresses(sets, t))
  }

  /**
   How accepted updates can together lose the new mode: only rule sets disabled legacy mode and
   some did, the updates take the query types from all of them, and a rule needs legacy mode.
   */
  ghost predicate LosesNewMode(raw: seq<Rule>, sets: RuleSets, us: seq<Update>)
  {
    && (exists t :: Referenced(raw, t) && HasQueryType(sets, t))
    && (forall n :: NodeIn(n, raw) ==> !DisablesByItself(n))
    && QueryTypesCleared(raw, sets, Overrides(us))
    && NeededAfter(raw, sets, Overrides(us))
  }

  lemma AfterByTags(raw: seq<Rule>, sets: RuleSets, o: map<string, RuleSetMetadata>)
    requires sets.Some?
    ensures Needed(raw, Overridden(sets, o)) <==> NeededAfter(raw, sets, o)
    ensures !Disabled(raw, Overridden(sets, o)) <==>
              (forall n :: NodeIn(n, raw) ==> !DisablesByItself(n)) && QueryTypesCleared(raw, sets, o)
  {
    var now := Overridden(sets, o);
    assert forall t :: HasAddresses(now, t) <==> if t in o then o[t].containsIpCidr else HasAddresses(sets, t);
    assert forall t :: HasQueryType(now, t) <==> if t in o then o[t].containsQueryType else HasQueryType(sets, t);
    if forall t :: Referenced(raw, t) ==> !HasQueryType(now, t) {
      forall t | Referenced(raw, t) && HasQueryType(sets, t) ensures t in o {
        assert !HasQueryType(now, t);
      }
      forall t | Referenced(raw, t) && t in o ensures !o[t].containsQueryType {
        assert !HasQueryType(now, t);
      }
    }
  }

  lemma AcceptedByTags(raw: seq<Rule>, sets: RuleSets, u: Update)
    requires raw != [] && sets.Some? && CheckUpdate(raw, Running(false), sets, u).None?
    ensures Needed(raw, Updated(sets, u)) ==> Disabled(raw, Updated(sets, u))
  {
    AcceptsExactlyWhatKeepsTheMode(raw, sets, false, u);
    NewModeByTags(raw, Updated(sets, u));
  }

  /** Every entry of `o` is one of the updates. */
  ghost predicate TakenFrom(o: map<string, RuleSetMetadata>, us: seq<Update>)
  {
    forall t :: t in o ==> exists i :: 0 <= i < |us| && us[i] == Update(t, o[t])
  }

  /** Each update for itself leaves the new mode right. */
  ghost predicate EachKeeps(raw: seq<Rule>, sets: RuleSets, us: seq<Update>)
  {
    forall i :: 0 <= i < |us| ==> Needed(raw, Updated(sets, us[i])) ==> Disabled(raw, Updated(sets, us[i]))
  }

  lemma AllAcceptedKeep(raw: seq<Rule>, sets: RuleSets, us: seq<Update>)
    requires raw != [] && sets.Some? && AllAccepted(raw, sets, false, us)
    ensures EachKeeps(raw, sets, us)
  {
    forall i | 0 <= i < |us| ensures Needed(raw, Updated(sets, us[i])) ==> Disabled(raw, Updated(sets, us[i])) {
      AcceptedByTags(raw, sets, us[i]);
    }
  }

  /** Where nothing disabled legacy mode, updates that were each accepted never lose the new mode together. */
  lemma SafeWhereNothingDisabled(raw: seq<Rule>, sets: RuleSets, us: seq<Update>, o: map<string, RuleSetMetadata>)
    requires sets.Some? && EachKeeps(raw, sets, us) && TakenFrom(o, us)
    requires !Disabled(raw, sets) && !Needed(raw, sets)
    ensures Needed(raw, Overridden(sets, o)) ==> Disabled(raw, Overridden(sets, o))
  {
    var now := Overridden(sets, o);
    if Needed(raw, now) {
      var t :| ReferencedForAnswer(raw, t) && HasAddresses(now, t);
      assert t in o;
      var i :| 0 <= i < |us| && us[i] == Update(t, o[t]);
      BroughtByOne(raw, sets, us[i], now);
    }
  }

  lemma BroughtByOne(raw: seq<Rule>, sets: RuleSets, u: Update, now: RuleSets)
    requires sets.Some? && now.Some? && u.tag in now.value && now.value[u.tag] == u.metadata
    requires Needed(raw, Updated(sets, u)) ==> Disabled(raw, Updated(sets, u))
    requires !Disabled(raw, sets) && ReferencedForAnswer(raw, u.tag) && u.metadata.containsIpCidr
    ensures Disabled(raw, now)
  {
    var alone := Updated(sets, u);
    assert HasAddresses(alone, u.tag);
    var d :| Referenced(raw, d) && HasQueryType(alone, d);
    assert HasQueryType(now, d);
  }

  lemma LossByTags(raw: seq<Rule>, sets: RuleSets, us: seq<Update>)
    requires sets.Some? && EachKeeps(raw, sets, us) && (Needed(raw, sets) ==> Disabled(raw, sets))
    ensures var now := Overridden(sets, Overrides(us));
            Needed(raw, now) && !Disabled(raw, now) <==> LosesNewMode(raw, sets, us)
  {
    AfterByTags(raw, sets, Overrides(us));
    if !Disabled(raw, sets) {
      SafeWhereNothingDisabled(raw, sets, us, Overrides(us));
    }
  }

  /**
   Updates that were each accepted against the same state and then all applied: legacy mode always
   survives them, and the new mode is lost exactly as `LosesNewMode` says.
   */
  lemma TogetherExactly(raw: seq<Rule>, sets: RuleSets, legacy: bool, us: seq<Update>)
    requires raw != [] && sets.Some? && ModeHolds(raw, sets, legacy) && AllAccepted(raw, sets, legacy, us)
    ensures ModeHolds(raw, Overridden(sets, Overrides(us)), legacy) <==> legacy || !LosesNewMode(raw, sets, us)
  {
    var now := Overridden(sets, Overrides(us));
    AllAcceptedIsResolvable(raw, sets, legacy, us);
    if legacy {
      LegacySurvivesTogether(raw, sets, us);
    } else {
      NewModeByTags(raw, sets);
      NewModeByTags(raw, now);
      AllAcceptedKeep(raw, sets, us);
      LossByTags(raw, sets, us);
    }
  }

  /** Losing it takes updates of two rule sets, one of which takes away query types. */
  lemma LossTakesTwo(raw: seq<Rule>, sets: RuleSets, us: seq<Update>) returns (i: nat, j: nat)
    requires raw != [] && sets.Some? && AllAccepted(raw, sets, false, us) && LosesNewMode(raw, sets, us)
    ensures i < |us| && j < |us| && us[i].tag != us[j].tag
    ensures HasQueryType(sets, us[i].tag) && !us[i].metadata.containsQueryType
  {
    var o := Overrides(us);
    var t :| Referenced(raw, t) && HasQueryType(sets, t);
    i :| 0 <= i < |us| && us[i] == Update(t, o[t]);
    AcceptedByTags(raw, sets, us[i]);
    var d := OtherTag(raw, sets, us[i], o);
    j :| 0 <= j < |us| && us[j] == Update(d, o[d]);
  }

  /** If one update does not lose the mode alone, another one takes part. */
  lemma OtherTag(raw: seq<Rule>, sets: RuleSets, u: Update, o: map<string, RuleSetMetadata>) returns (d: string)
    requires sets.Some? && u.tag in o && o[u.tag] == u.metadata
    requires Needed(raw, Updated(sets, u)) ==> Disabled(raw, Updated(sets, u))
    requires (forall n :: NodeIn(n, raw) ==> !DisablesByItself(n)) && QueryTypesCleared(raw, sets, o)
             && NeededAfter(raw, sets, o)
    ensures d in o && d != u.tag
  {
    var alone := Updated(sets, u);
    if Disabled(raw, alone) {
      d :| Referenced(raw, d) && HasQueryType(alone, d);
      assert HasQueryType(sets, d);
    } else {
      d :| ReferencedForAnswer(raw, d) && if d in o then o[d].containsIpCidr else HasAddresses(sets, d);
      assert !HasAddresses(alone, d);
    }
  }

  const TWO_SETS := [Default(NO_CONDITIONS.(ruleSets := ["a", "b"]), false, NO_ACTION.(kind := Route, server := "s"))]

  /**
   And it can fail: a rule list that builds and runs in the new mode, with two updates that are each
   accepted and that together leave the router in the wrong mode.
   */
  lemma CheckedTogetherCanBreakTheMode(table: TransportTable)
    ensures exists sets, u, v ::
              && BuildRules(TWO_SETS, sets, table).Ok? && !BuildRules(TWO_SETS, sets, table).value.legacy
              && CheckUpdate(TWO_SETS, Running(false), sets, u).None?
              && CheckUpdate(TWO_SETS, Running(false), sets, v).None?
              && !ModeHolds(TWO_SETS, Updated(Updated(sets, u), v), false)
  {
    var plain := RuleSetMetadata(false, false);
    var query := RuleSetMetadata(false, true);
    var cidr := RuleSetMetadata(true, false);
    var sets: RuleSets := Some(map["a" := query, "b" := plain]);
    var u := Update("b", cidr);
    var v := Update("a", plain);
    TwoSetsFlags(sets, map[]);
    TwoSetsFlags(sets, map[u.tag := u.metadata]);
    TwoSetsFlags(sets, map[v.tag := v.metadata]);
    TwoSetsFlags(Updated(Updated(sets, u), v), map[]);
    TwoSetsBuild(sets, table);
    assert !ModeHolds(TWO_SETS, Updated(Updated(sets, u), v), false);
  }

  lemma TwoSetsBuild(sets: RuleSets, table: TransportTable)
    requires ResolveMode(sets, TWO_SETS, map[]).Ok? && !ResolveMode(sets, TWO_SETS, map[]).value.legacy
    ensures BuildRules(TWO_SETS, sets, table).Ok? && !BuildRules(TWO_SETS, sets, table).value.legacy
  {
    var rule := TWO_SETS[0];
    assert TWO_SETS[1..] == [];
    assert NoNestedActions(rule, false);
    assert ValidateTree(rule).Ok? && !ValidateTree(rule).value;
    assert ValidateOrder(TWO_SETS, 1, false).None?;
    assert ValidateNewMode(TWO_SETS).None?;
    assert ValidateEvaluate(TWO_SETS, table, 0).None?;
    assert NO_CONDITIONS.(ruleSets := ["a", "b"]).ruleSets[0] == "a";
    assert rule.when != NO_CONDITIONS;
    assert BuildRule(rule, true, false).Ok?;
    assert BuildList(TWO_SETS, false).Ok?;
  }

  lemma TwoSetsFlags(sets: RuleSets, overrides: map<string, RuleSetMetadata>)
    requires sets.Some? && "a" in sets.value && "b" in sets.value
    ensures var a := if "a" in overrides then overrides["a"] else sets.value["a"];
            var b := if "b" in overrides then overrides["b"] else sets.value["b"];
            RulesFlags(sets, TWO_SETS,
                overrides) == Ok(Flags(a.containsQueryType || b.containsQueryType, a.containsIpCidr
                || b.containsIpCidr, false))
  {
    var tags := ["a", "b"];
    var m := LookupMetadata(sets, "a", overrides).value;
    var first := NO_FLAGS.(disabled := m.containsQueryType, needed := m.containsIpCidr);
    assert tags[1..] == ["b"] && ["b"][1..] == [];
    assert RuleSetFlags(sets, tags, false, overrides, NO_FLAGS) == RuleSetFlags(sets, ["b"], false, overrides, first);
    var n := LookupMetadata(sets, "b", overrides).value;
    var second := first.(disabled := first.disabled || n.containsQueryType, needed := first.needed || n.containsIpCidr);
    assert RuleSetFlags(sets, ["b"], false, overrides, first) == RuleSetFlags(sets, [], false, overrides, second);
    assert RuleFlags(sets, TWO_SETS[0], overrides) == Ok(second);
    assert TWO_SETS[1..] == [];
  }
}
