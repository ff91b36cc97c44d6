/**
 Rule selection of the connection router: one loop that runs both as pre-match, before a
 connection is accepted, and as full match, with sniffing.
 */
module RouteMatch {
  import opened Basics

  datatype IP = IPv4(bits4: nat) | IPv6(bits6: nat)

  datatype Endpoint = Endpoint(addr: Option<IP>, fqdn: string, port: nat)

  predicate IsValid(e: Endpoint)
  {
    e.addr.Some? || e.fqdn != ""
  }

  predicate IsDomain(e: Endpoint)
  {
    e.addr.None? && e.fqdn != ""
  }

  datatype Network = TCP | UDP | ICMP

  /** The connection metadata the loop reads and writes; `rest` stands for what only matching looks at. */
  datatype Metadata = Metadata(
    network: Network,
    source: Endpoint,
    destination: Endpoint,
    originDestination: Endpoint,
    routeOriginalDestination: Endpoint,
    domain: string,
    ipVersion: nat,
    fakeIp: bool,
    processInfo: Option<nat>,
    sourceMac: Option<nat>,
    sourceHostname: string,
    destinationAddresses: seq<IP>,
    dial: DialSettings,
    sniffed: nat,
    rest: nat)

  /** How the connection is to be dialled; zero, empty and absent mean "not set". */
  datatype DialSettings = DialSettings(network: NetworkSettings, transfer: TransferSettings)

  datatype NetworkSettings = NetworkSettings(
    strategy: Option<nat>,
    types: seq<nat>,
    fallbackTypes: seq<nat>,
    fallbackDelay: nat)

  datatype TransferSettings = TransferSettings(
    udpDisableDomainUnmapping: bool,
    udpConnect: bool,
    udpTimeout: nat,
    tlsFragment: bool,
    tlsFragmentFallbackDelay: nat,
    tlsRecordFragment: bool)

  datatype RouteOptions = RouteOptions(overrideAddress: Endpoint, overridePort: nat, dial: DialSettings)

  datatype Action =
    | Route(outbound: string, options: RouteOptions)
    | SetOptions(options: RouteOptions)
    | Bypass(outbound: string)
    | DirectDial
    | Reject
    | HijackDns
    | Sniff(sniffers: nat)
    | Resolve(query: nat)

  datatype Rule = Rule(id: nat, action: Action)

  datatype Sniffed = SniffDone(sniffed: nat, domain: string, destination: Endpoint) | SniffFailed

  /**
   The surroundings: services that may be absent, and deterministic but arbitrary matching, resolving and sniffing.
   */
  datatype Env = Env(
    findProcess: Option<Metadata -> Option<nat>>,
    lookupMac: Option<IP -> Option<nat>>,
    lookupHostname: IP -> Option<string>,
    isFakeIp: IP -> bool,
    fakeIpDomain: IP -> Option<string>,
    reverseMapping: Option<IP> -> Option<string>,
    matches: (Rule, Metadata) -> bool,
    resolve: (Metadata, nat) -> Option<seq<IP>>,
    sniff: (Metadata, nat) -> Sniffed)

  // ----- before the loop -----

  function FindOwner(env: Env, m: Metadata): (r: Metadata)
    ensures r.network == m.network
  {
    if env.findProcess.Some? && m.processInfo.None? && (env.findProcess.value)(m).Some?
    then m.(processInfo := (env.findProcess.value)(m)) else m
  }

  function FindNeighbor(env: Env, m: Metadata): (r: Metadata)
    ensures r.network == m.network
  {
    if env.lookupMac.Some? && m.sourceMac.None? && m.source.addr.Some? then
      var ip := m.source.addr.value;
      var mac := (env.lookupMac.value)(ip);
      var host := env.lookupHostname(ip);
      var m := if mac.Some? then m.(sourceMac := mac) else m;
      if host.Some? then m.(sourceHostname := host.value) else m
    else m
  }

  /** Undoes fakeip addressing or recovers a domain; `None` when a fakeip record is missing. */
  function FindDomain(env: Env, m: Metadata): (r: Option<Metadata>)
    ensures r.Some? ==> r.value.network == m.network
  {
    if m.destination.addr.Some? && env.isFakeIp(m.destination.addr.value) then
      match env.fakeIpDomain(m.destination.addr.value)
      case None => None
      case Some(domain) =>
        if domain != "" then
          Some(m.(originDestination := m.destination, destination := Endpoint(None, domain, m.destination.port),
              fakeIp := true))
        else Some(m)
    else if m.domain == "" && env.reverseMapping(m.destination.addr).Some? then
      Some(m.(domain := env.reverseMapping(m.destination.addr).value))
    else Some(m)
  }

  function Prepare(env: Env, m: Metadata): (r: Option<Metadata>)
    ensures r.Some? ==> r.value.network == m.network
  {
    match FindDomain(env, FindNeighbor(env, FindOwner(env, m)))
    case None => None
    case Some(m) =>
      if m.destination.addr.None? then Some(m)
      else Some(m.(ipVersion := if m.destination.addr.value.IPv4? then 4 else 6))
  }

  // ----- the loop -----

  /** The destination after an override: address and port are replaced independently. */
  function Overridden(d: Endpoint, o: RouteOptions): Endpoint
  {
    Endpoint(
      if IsValid(o.overrideAddress) then o.overrideAddress.addr else d.addr,
      if IsValid(o.overrideAddress) then o.overrideAddress.fqdn else d.fqdn,
      if o.overridePort > 0 then o.overridePort else d.port)
  }

  /** Settings of a rule take precedence over those already there. */
  function MergeNetwork(d: NetworkSettings, o: NetworkSettings): NetworkSettings
  {
    NetworkSettings(
      if o.strategy.Some? then o.strategy else d.strategy,
      if |o.types| > 0 then o.types else d.types,
      if |o.fallbackTypes| > 0 then o.fallbackTypes else d.fallbackTypes,
      if o.fallbackDelay != 0 then o.fallbackDelay else d.fallbackDelay)
  }

  function MergeTransfer(d: TransferSettings, o: TransferSettings): TransferSettings
  {
    TransferSettings(
      d.udpDisableDomainUnmapping || o.udpDisableDomainUnmapping,
      d.udpConnect || o.udpConnect,
      if o.udpTimeout > 0 then o.udpTimeout else d.udpTimeout,
      d.tlsFragment || o.tlsFragment,
      if o.tlsFragment then o.tlsFragmentFallbackDelay else d.tlsFragmentFallbackDelay,
      d.tlsRecordFragment || o.tlsRecordFragment)
  }

  function MergeDial(d: DialSettings, o: DialSettings): DialSettings
  {
    DialSettings(MergeNetwork(d.network, o.network), MergeTransfer(d.transfer, o.transfer))
  }

  predicate HasOverride(o: RouteOptions)
  {
    IsValid(o.overrideAddress) || o.overridePort > 0
  }

  function ApplyOptions(m: Metadata, o: RouteOptions): (r: Metadata)
    ensures r.network == m.network
  {
    m.(routeOriginalDestination := if HasOverride(o) && !IsValid(m.routeOriginalDestination) then m.destination
        else m.routeOriginalDestination,
       destination := Overridden(m.destination, o),
       destinationAddresses := if IsValid(o.overrideAddress) then [] else m.destinationAddresses,
       dial := MergeDial(m.dial, o.dial))
  }

  /** Sniffing may learn a domain and redirect to it, leave everything as it was, or fail the connection. */
  function ApplySniff(env: Env, m: Metadata, sniffers: nat): Option<Metadata>
  {
    match env.sniff(m, sniffers)
    case SniffFailed => None
    case SniffDone(s, domain, destination) => Some(m.(sniffed := s, domain := domain, destination := destination))
  }

  function ApplyResolve(env: Env, m: Metadata, query: nat): Option<Metadata>
  {
    if !IsDomain(m.destination) then Some(m)
    else
      match env.resolve(m, query)
      case None => None
      case Some(addresses) => Some(m.(destinationAddresses := addresses))
  }

  datatype Mode = PreMatch(supportBypass: bool) | FullMatch

  datatype MatchResult = Selected(index: nat, metadata: Metadata) | NoRule(metadata: Metadata) | Fatal

  datatype Step = Stop(metadata: Metadata) | Go(metadata: Metadata) | Abort

  /** What a matching rule does to the walk. */
  function StepRule(env: Env, mode: Mode, a: Action, m: Metadata): Step
  {
    match a
    case Route(_, o) => Stop(ApplyOptions(m, o))
    case SetOptions(o) => Go(ApplyOptions(m, o))
    case Sniff(sniffers) =>
      if mode.FullMatch? then
        (match ApplySniff(env, m, sniffers) case None => Abort case Some(m') => Go(m'))
      else if m.network != ICMP then Stop(m) else Go(m)
    case Resolve(query) => (match ApplyResolve(env, m, query) case None => Abort case Some(m') => Go(m'))
    case Reject => Stop(m)
    case HijackDns => Stop(m)
    case Bypass(outbound) => if !(mode.PreMatch? && mode.supportBypass) && outbound == "" then Go(m) else Stop(m)
    case DirectDial => Go(m)
  }

  function MatchFrom(env: Env, mode: Mode, rules: seq<Rule>, i: nat, m: Metadata): (r: MatchResult)
    requires i <= |rules|
    ensures r.Selected? ==> i <= r.index < |rules|
    decreases |rules| - i
  {
    if i == |rules| then NoRule(m)
    else if !env.matches(rules[i], m) then MatchFrom(env, mode, rules, i + 1, m)
    else
      match StepRule(env, mode, rules[i].action, m)
      case Stop(m') => Selected(i, m')
      case Go(m') => MatchFrom(env, mode, rules, i + 1, m')
      case Abort => Fatal
  }

  function MatchAll(env: Env, mode: Mode, rules: seq<Rule>, m: Metadata): (r: MatchResult)
  {
    match Prepare(env, m)
    case None => Fatal
    case Some(m') => MatchFrom(env, mode, rules, 0, m')
  }

  /** The context a match works on, changed in place. */
  class Context {
    var data: Metadata

    constructor (data: Metadata)
      ensures this.data == data
    {
      this.data := data;
    }
  }

  /** Applies the options of a matching route or option rule to the context. */
  method OverrideContext(context: Context, o: RouteOptions)
    modifies context
    ensures context.data == ApplyOptions(old(context.data), o)
  {
    OverrideDestination(context, o);
    var network := OverrideNetwork(context.data.dial.network, o.dial.network);
    var transfer := OverrideTransfer(context.data.dial.transfer, o.dial.transfer);
    context.data := context.data.(dial := DialSettings(network, transfer));
  }

  method OverrideDestination(context: Context, o: RouteOptions)
    modifies context
    ensures context.data == ApplyOptions(old(context.data), o).(dial := old(context.data.dial))
  {
    if (IsValid(o.overrideAddress) || o.overridePort > 0) && !IsValid(context.data.routeOriginalDestination) {
      context.data := context.data.(routeOriginalDestination := context.data.destination);
    }
    var destination := context.data.destination;
    if IsValid(o.overrideAddress) {
      destination := Endpoint(o.overrideAddress.addr, o.overrideAddress.fqdn, destination.port);
      context.data := context.data.(destinationAddresses := []);
    }
    if o.overridePort > 0 {
      destination := Endpoint(destination.addr, destination.fqdn, o.overridePort);
    }
    context.data := context.data.(destination := destination);
  }

  method OverrideNetwork(network: NetworkSettings, o: NetworkSettings) returns (n: NetworkSettings)
    ensures n == MergeNetwork(network, o)
  {
    n := network;
    if o.strategy.Some? {
      n := n.(strategy := o.strategy);
    }
    if |o.types| > 0 {
      n := n.(types := o.types);
    }
    if |o.fallbackTypes| > 0 {
      n := n.(fallbackTypes := o.fallbackTypes);
    }
    if o.fallbackDelay != 0 {
      n := n.(fallbackDelay := o.fallbackDelay);
    }
  }

  method OverrideTransfer(transfer: TransferSettings, o: TransferSettings) returns (t: TransferSettings)
    ensures t == MergeTransfer(transfer, o)
  {
    t := transfer;
    if o.udpDisableDomainUnmapping {
      t := t.(udpDisableDomainUnmapping := true);
    }
    if o.udpConnect {
      t := t.(udpConnect := true);
    }
    if o.udpTimeout > 0 {
      t := t.(udpTimeout := o.udpTimeout);
    }
    if o.tlsFragment {
      t := t.(tlsFragment := true, tlsFragmentFallbackDelay := o.tlsFragmentFallbackDelay);
    }
    if o.tlsRecordFragment {
      t := t.(tlsRecordFragment := true);
    }
  }

  /** Runs the match on a context; the rule selected comes back as its index. */
  method MatchRule(env: Env, rules: seq<Rule>, context: Context, preMatch: bool, supportBypass: bool)
    returns (selected: Option<nat>, fatal: bool)
    requires !preMatch ==> !supportBypass
    modifies context
    ensures var mode := if preMatch then PreMatch(supportBypass) else FullMatch;
            var r := MatchAll(env, mode, rules, old(context.data));
            && (fatal <==> r.Fatal?)
            && (!fatal ==> r == if selected.Some? then Selected(selected.value, context.data) else NoRule(context.data))
  {
    var prepared := Prepare(env, context.data);
    if prepared.None? {
      return None, true;
    }
    context.data := prepared.value;
    ghost var mode := if preMatch then PreMatch(supportBypass) else FullMatch;
    for i := 0 to |rules|
      invariant MatchFrom(env, mode, rules, 0, prepared.value) == MatchFrom(env, mode, rules, i, context.data)
    {
      if !env.matches(rules[i], context.data) {
        continue;
      }
      match rules[i].action {
        case Route(_, o) => OverrideContext(context, o);
        case SetOptions(o) => OverrideContext(context, o);
        case Sniff(sniffers) =>
          if !preMatch {
            var sniffed := ApplySniff(env, context.data, sniffers);
            if sniffed.None? {
              return None, true;
            }
            context.data := sniffed.value;
          } else if context.data.network != ICMP {
            return Some(i), false;
          }
        case Resolve(query) =>
          var resolved := ApplyResolve(env, context.data, query);
          if resolved.None? {
            return None, true;
          }
          context.data := resolved.value;
        case _ =>
      }
      if rules[i].action.Route? || rules[i].action.Reject? || rules[i].action.HijackDns? {
        return Some(i), false;
      }
      if rules[i].action.Bypass? && (supportBypass || rules[i].action.outbound != "") {
        return Some(i), false;
      }
    }
    return None, false;
  }

  // ----- pre-match against full match -----

  /** The two selections only a pre-match can make. */
  predicate OnlyPreMatchSelects(a: Action)
  {
    a.Sniff? || (a.Bypass? && a.outbound == "")
  }

  lemma {:induction false} FullMatchSelectsFinalRules(env: Env, rules: seq<Rule>, i: nat, m: Metadata)
    requires i <= |rules|
    ensures var r := MatchFrom(env, FullMatch, rules, i, m);
            r.Selected? ==> !OnlyPreMatchSelects(rules[r.index].action)
    decreases |rules| - i
  {
    if i < |rules| {
      if !env.matches(rules[i], m) {
        FullMatchSelectsFinalRules(env, rules, i + 1, m);
      } else {
        var step := StepRule(env, FullMatch, rules[i].action, m);
        if step.Go? {
          FullMatchSelectsFinalRules(env, rules, i + 1, step.metadata);
        }
      }
    }
  }

  lemma StepsAgree(env: Env, supportBypass: bool, a: Action, m: Metadata)
    requires m.network != ICMP
    ensures var pre, full := StepRule(env, PreMatch(supportBypass), a, m), StepRule(env, FullMatch, a, m);
            && (pre.Go? ==> full == pre && pre.metadata.network == m.network)
            && (pre.Stop? && OnlyPreMatchSelects(a) ==> pre.metadata == m && (a.Bypass? ==> full == Go(m)))
            && (!OnlyPreMatchSelects(a) ==> full == pre)
            && (pre.Abort? ==> full == pre)
  {
  }

  /**
   From the same rule and metadata, the full match either gives the same result or picks up
   exactly where the pre-match stopped: at the sniff rule, or after the empty bypass.
   */
  lemma {:induction false} PreMatchIsAPrefix(env: Env, supportBypass: bool, rules: seq<Rule>, i: nat, m: Metadata)
    requires i <= |rules| && m.network != ICMP
    ensures var pre := MatchFrom(env, PreMatch(supportBypass), rules, i, m);
            var full := MatchFrom(env, FullMatch, rules, i, m);
            if pre.Selected? && OnlyPreMatchSelects(rules[pre.index].action) then
              && env.matches(rules[pre.index], pre.metadata)
              && full == MatchFrom(env, FullMatch, rules, if rules[pre.index].action.Sniff? then pre.index
                 else pre.index + 1, pre.metadata)
            else full == pre
    decreases |rules| - i
  {
    if i < |rules| {
      if !env.matches(rules[i], m) {
        PreMatchIsAPrefix(env, supportBypass, rules, i + 1, m);
      } else {
        StepsAgree(env, supportBypass, rules[i].action, m);
        var step := StepRule(env, PreMatch(supportBypass), rules[i].action, m);
        if step.Go? {
          PreMatchIsAPrefix(env, supportBypass, rules, i + 1, step.metadata);
        }
      }
    }
  }

  /**
   For TCP and UDP the full match selects the same rule with the same metadata, or the same
   absence of one, exactly when the pre-match did not stop at a sniff rule or an empty bypass.
   */
  lemma PreMatchAgreesExactlyWhenFinal(env: Env, supportBypass: bool, rules: seq<Rule>, m: Metadata)
    requires m.network != ICMP
    ensures var pre := MatchAll(env, PreMatch(supportBypass), rules, m);
            MatchAll(env, FullMatch, rules, m) == pre <==>
                !(pre.Selected? && OnlyPreMatchSelects(rules[pre.index].action))
  {
    var prepared := Prepare(env, m);
    if prepared.Some? {
      PreMatchIsAPrefix(env, supportBypass, rules, 0, prepared.value);
      FullMatchSelectsFinalRules(env, rules, 0, prepared.value);
    }
  }

  // ----- what a walk does to the settings -----

  /** A matching route or option rule: the metadata it met and the options it applied. */
  datatype Change = Change(before: Metadata, options: RouteOptions)

  /** The changes of a walk, in order. */
  ghost function Changes(env: Env, mode: Mode, rules: seq<Rule>, i: nat, m: Metadata): seq<Change>
    requires i <= |rules|
    decreases |rules| - i
  {
    if i == |rules| then []
    else if !env.matches(rules[i], m) then Changes(env, mode, rules, i + 1, m)
    else
      var a := rules[i].action;
      var here := if a.Route? || a.SetOptions? then [Change(m, a.options)] else [];
      match StepRule(env, mode, a, m)
      case Go(m') => here + Changes(env, mode, rules, i + 1, m')
      case _ => here
  }

  /** What each change asks of one setting, if anything. */
  ghost function Asked<T>(cs: seq<Change>, ask: RouteOptions -> Option<T>): (r: seq<Option<T>>)
    ensures |r| == |cs| && forall k :: 0 <= k < |cs| ==> r[k] == ask(cs[k].options)
  {
    seq(|cs|, k requires 0 <= k < |cs| => ask(cs[k].options))
  }

  ghost predicate IsLast<T>(asked: seq<Option<T>>, j: int)
  {
    0 <= j < |asked| && asked[j].Some? && forall k :: j < k < |asked| ==> asked[k].None?
  }

  /** A setting ends up as asked for last, and as it was when nobody asks. */
  ghost predicate EndsAsAsked<T>(asked: seq<Option<T>>, before: T, after: T)
  {
    && (forall j :: IsLast(asked, j) ==> after == asked[j].value)
    && ((forall k :: 0 <= k < |asked| ==> asked[k].None?) ==> after == before)
  }

  ghost function LastAsked<T>(before: T, asked: seq<Option<T>>): T
    decreases |asked|
  {
    if asked == [] then before else LastAsked(if asked[0].Some? then asked[0].value else before, asked[1..])
  }

  lemma {:induction false} LastAskedIsLast<T>(before: T, asked: seq<Option<T>>)
    ensures EndsAsAsked(asked, before, LastAsked(before, asked))
    decreases |asked|
  {
    if asked != [] {
      var rest := asked[1..];
      LastAskedIsLast(if asked[0].Some? then asked[0].value else before, rest);
      forall j | IsLast(asked, j) && j > 0 ensures IsLast(rest, j - 1) && rest[j - 1] == asked[j] {
        forall k | j - 1 < k < |rest| ensures rest[k].None? {
          assert asked[k + 1].None?;
        }
      }
      if IsLast(asked, 0) || forall k :: 0 <= k < |asked| ==> asked[k].None? {
        forall k | 0 <= k < |rest| ensures rest[k].None? {
          assert asked[k + 1].None?;
        }
      }
    }
  }

  ghost function AllMerged(d: DialSettings, cs: seq<Change>): DialSettings
    decreases |cs|
  {
    if cs == [] then d else AllMerged(MergeDial(d, cs[0].options.dial), cs[1..])
  }

  /** The dial settings after a walk are those before it, merged with every change in turn. */
  lemma {:induction false} DialIsMerged(env: Env, mode: Mode, rules: seq<Rule>, i: nat, m: Metadata)
    requires i <= |rules|
    ensures var r := MatchFrom(env, mode, rules, i, m);
            !r.Fatal? ==> r.metadata.dial == AllMerged(m.dial, Changes(env, mode, rules, i, m))
    decreases |rules| - i
  {
    if i < |rules| {
      if !env.matches(rules[i], m) {
        DialIsMerged(env, mode, rules, i + 1, m);
      } else {
        var step := StepRule(env, mode, rules[i].action, m);
        if step.Go? {
          DialIsMerged(env, mode, rules, i + 1, step.metadata);
          var rest := Changes(env, mode, rules, i + 1, step.metadata);
          if rules[i].action.SetOptions? {
            assert ([Change(m, rules[i].action.options)] + rest)[1..] == rest;
          } else {
            assert [] + rest == rest;
          }
        } else if rules[i].action.Route? {
          assert [Change(m, rules[i].action.options)][1..] == [];
        }
      }
    }
  }

  /** A field that a merge overwrites exactly when the options set it. */
  ghost predicate Overwritten<T>(get: DialSettings -> T, ask: RouteOptions -> Option<T>)
  {
    forall d: DialSettings, o: RouteOptions :: get(MergeDial(d, o.dial)) == if ask(o).Some? then ask(o).value
        else get(d)
  }

  lemma {:induction false} FieldIsLastAsked<T>(d: DialSettings, cs: seq<Change>, get: DialSettings -> T,
      ask: RouteOptions -> Option<T>)
    requires Overwritten(get, ask)
    ensures get(AllMerged(d, cs)) == LastAsked(get(d), Asked(cs, ask))
    decreases |cs|
  {
    if cs != [] {
      FieldIsLastAsked(MergeDial(d, cs[0].options.dial), cs[1..], get, ask);
      assert Asked(cs, ask)[1..] == Asked(cs[1..], ask);
    }
  }

  lemma FieldSettles<T>(d: DialSettings, cs: seq<Change>, get: DialSettings -> T, ask: RouteOptions -> Option<T>)
    requires Overwritten(get, ask)
    ensures EndsAsAsked(Asked(cs, ask), get(d), get(AllMerged(d, cs)))
  {
    FieldIsLastAsked(d, cs, get, ask);
    LastAskedIsLast(get(d), Asked(cs, ask));
  }

  // What each setting of an option rule asks for, if anything.

  function AskStrategy(o: RouteOptions): Option<Option<nat>> { if o.dial.network.strategy.Some?
      then Some(o.dial.network.strategy) else None }

  function AskTypes(o: RouteOptions): Option<seq<nat>> { if |o.dial.network.types| > 0 then Some(o.dial.network.types)
      else None }

  function AskFallbackTypes(o: RouteOptions): Option<seq<nat>> { if |o.dial.network.fallbackTypes| > 0
      then Some(o.dial.network.fallbackTypes) else None }

  function AskFallbackDelay(o: RouteOptions): Option<nat> { if o.dial.network.fallbackDelay != 0
      then Some(o.dial.network.fallbackDelay) else None }

  function AskNoUnmapping(o: RouteOptions): Option<bool> { if o.dial.transfer.udpDisableDomainUnmapping
      then Some(true) else None }

  function AskConnect(o: RouteOptions): Option<bool> { if o.dial.transfer.udpConnect then Some(true) else None }

  function AskTimeout(o: RouteOptions): Option<nat> { if o.dial.transfer.udpTimeout > 0
      then Some(o.dial.transfer.udpTimeout) else None }

  function AskFragment(o: RouteOptions): Option<bool> { if o.dial.transfer.tlsFragment then Some(true) else None }

  function AskFragmentDelay(o: RouteOptions): Option<nat> { if o.dial.transfer.tlsFragment
      then Some(o.dial.transfer.tlsFragmentFallbackDelay) else None }

  function AskRecordFragment(o: RouteOptions): Option<bool> { if o.dial.transfer.tlsRecordFragment then Some(true)
      else None }

  /** Each network setting is the one asked for last by a matching rule, else the connection's own. */
  ghost predicate NetworkSettled(cs: seq<Change>, before: NetworkSettings, after: NetworkSettings)
  {
    && EndsAsAsked(Asked(cs, AskStrategy), before.strategy, after.strategy)
    && EndsAsAsked(Asked(cs, AskTypes), before.types, after.types)
    && EndsAsAsked(Asked(cs, AskFallbackTypes), before.fallbackTypes, after.fallbackTypes)
    && EndsAsAsked(Asked(cs, AskFallbackDelay), before.fallbackDelay, after.fallbackDelay)
  }

  /** Likewise for UDP; a switch is never turned off. */
  ghost predicate UdpSettled(cs: seq<Change>, before: TransferSettings, after: TransferSettings)
  {
    && EndsAsAsked(Asked(cs, AskNoUnmapping), before.udpDisableDomainUnmapping, after.udpDisableDomainUnmapping)
    && EndsAsAsked(Asked(cs, AskConnect), before.udpConnect, after.udpConnect)
    && EndsAsAsked(Asked(cs, AskTimeout), before.udpTimeout, after.udpTimeout)
  }

  /** Likewise for TLS; the fragment delay follows the last rule that asks for fragments. */
  ghost predicate TlsSettled(cs: seq<Change>, before: TransferSettings, after: TransferSettings)
  {
    && EndsAsAsked(Asked(cs, AskFragment), before.tlsFragment, after.tlsFragment)
    && EndsAsAsked(Asked(cs, AskFragmentDelay), before.tlsFragmentFallbackDelay, after.tlsFragmentFallbackDelay)
    && EndsAsAsked(Asked(cs, AskRecordFragment), before.tlsRecordFragment, after.tlsRecordFragment)
  }

  lemma NetworkSettles(d: DialSettings, cs: seq<Change>)
    ensures NetworkSettled(cs, d.network, AllMerged(d, cs).network)
  {
    FieldSettles(d, cs, (d: DialSettings) => d.network.strategy, AskStrategy);
    FieldSettles(d, cs, (d: DialSettings) => d.network.types, AskTypes);
    FieldSettles(d, cs, (d: DialSettings) => d.network.fallbackTypes, AskFallbackTypes);
    FieldSettles(d, cs, (d: DialSettings) => d.network.fallbackDelay, AskFallbackDelay);
  }

  lemma UdpSettles(d: DialSettings, cs: seq<Change>)
    ensures UdpSettled(cs, d.transfer, AllMerged(d, cs).transfer)
  {
    FieldSettles(d, cs, (d: DialSettings) => d.transfer.udpDisableDomainUnmapping, AskNoUnmapping);
    FieldSettles(d, cs, (d: DialSettings) => d.transfer.udpConnect, AskConnect);
    FieldSettles(d, cs, (d: DialSettings) => d.transfer.udpTimeout, AskTimeout);
  }

  lemma TlsSettles(d: DialSettings, cs: seq<Change>)
    ensures TlsSettled(cs, d.transfer, AllMerged(d, cs).transfer)
  {
    FieldSettles(d, cs, (d: DialSettings) => d.transfer.tlsFragment, AskFragment);
    FieldSettles(d, cs, (d: DialSettings) => d.transfer.tlsFragmentFallbackDelay, AskFragmentDelay);
    FieldSettles(d, cs, (d: DialSettings) => d.transfer.tlsRecordFragment, AskRecordFragment);
  }

  /** Over any walk in either mode, every dial setting ends up as the last matching rule that asks for it has it. */
  lemma LastOptionsWin(env: Env, mode: Mode, rules: seq<Rule>, i: nat, m: Metadata)
    requires i <= |rules|
    ensures var r := MatchFrom(env, mode, rules, i, m);
            var cs := Changes(env, mode, rules, i, m);
            !r.Fatal? ==>
              && NetworkSettled(cs, m.dial.network, r.metadata.dial.network)
              && UdpSettled(cs, m.dial.transfer, r.metadata.dial.transfer)
              && TlsSettled(cs, m.dial.transfer, r.metadata.dial.transfer)
  {
    var cs := Changes(env, mode, rules, i, m);
    DialIsMerged(env, mode, rules, i, m);
    NetworkSettles(m.dial, cs);
    UdpSettles(m.dial, cs);
    TlsSettles(m.dial, cs);
  }

  // ----- the destination -----

  /** The first change that records an original destination: it overrides, and a valid destination is in force. */
  ghost predicate IsFirstRecorded(cs: seq<Change>, j: int)
  {
    && 0 <= j < |cs| && Records(cs[j])
    && forall k :: 0 <= k < j ==> !Records(cs[k])
  }

  ghost predicate Records(c: Change)
  {
    HasOverride(c.options) && IsValid(c.before.destination)
  }

  /** What a walk makes of the original destination. */
  ghost predicate OriginalKept(cs: seq<Change>, before: Endpoint, after: Endpoint)
  {
    && (IsValid(before) ==> after == before)
    && (!IsValid(before) ==> forall j :: IsFirstRecorded(cs, j) ==> after == cs[j].before.destination)
    && (!IsValid(before) && (forall k :: 0 <= k < |cs| ==> !Records(cs[k])) ==> !IsValid(after))
    && ((forall k :: 0 <= k < |cs| ==> !HasOverride(cs[k].options)) ==> after == before)
  }

  ghost function OriginalAfter(original: Endpoint, cs: seq<Change>): Endpoint
    decreases |cs|
  {
    if cs == [] then original
    else OriginalAfter(if HasOverride(cs[0].options) && !IsValid(original) then cs[0].before.destination
        else original, cs[1..])
  }

  lemma {:induction false} OriginalIsFolded(env: Env, mode: Mode, rules: seq<Rule>, i: nat, m: Metadata)
    requires i <= |rules|
    ensures var r := MatchFrom(env, mode, rules, i, m);
            !r.Fatal? ==>
                r.metadata.routeOriginalDestination == OriginalAfter(m.routeOriginalDestination,
                Changes(env, mode, rules, i, m))
    decreases |rules| - i
  {
    if i < |rules| {
      if !env.matches(rules[i], m) {
        OriginalIsFolded(env, mode, rules, i + 1, m);
      } else {
        var step := StepRule(env, mode, rules[i].action, m);
        if step.Go? {
          OriginalIsFolded(env, mode, rules, i + 1, step.metadata);
          var rest := Changes(env, mode, rules, i + 1, step.metadata);
          if rules[i].action.SetOptions? {
            assert ([Change(m, rules[i].action.options)] + rest)[1..] == rest;
          } else {
            assert [] + rest == rest;
          }
        } else if rules[i].action.Route? {
          assert [Change(m, rules[i].action.options)][1..] == [];
        }
      }
    }
  }

  lemma {:induction false} FoldKeepsOriginal(original: Endpoint, cs: seq<Change>)
    ensures OriginalKept(cs, original, OriginalAfter(original, cs))
    decreases |cs|
  {
    if cs != [] {
      var c, rest := cs[0], cs[1..];
      var next := if HasOverride(c.options) && !IsValid(original) then c.before.destination else original;
      FoldKeepsOriginal(next, rest);
      forall j | IsFirstRecorded(cs, j) && j > 0 ensures !Records(c) && IsFirstRecorded(rest, j - 1) {
        assert !Records(cs[0]);
        forall k | 0 <= k < j - 1 ensures !Records(rest[k]) {
          assert !Records(cs[k + 1]);
        }
      }
      if forall k :: 0 <= k < |cs| ==> !Records(cs[k]) {
        assert !Records(cs[0]);
        forall k | 0 <= k < |rest| ensures !Records(rest[k]) {
          assert !Records(cs[k + 1]);
        }
      }
      if forall k :: 0 <= k < |cs| ==> !HasOverride(cs[k].options) {
        assert !HasOverride(cs[0].options);
        forall k | 0 <= k < |rest| ensures !HasOverride(rest[k].options) {
          assert !HasOverride(cs[k + 1].options);
        }
      }
    }
  }

  /**
   Over any walk in either mode: a valid original destination stays; otherwise it becomes the
   destination in force before the first override that met a valid one, and stays invalid, and as it
   was without any override, when there is none.
   */
  lemma OriginalDestinationIsTheFirst(env: Env, mode: Mode, rules: seq<Rule>, i: nat, m: Metadata)
    requires i <= |rules|
    ensures var r := MatchFrom(env, mode, rules, i, m);
            !r.Fatal? ==>
                OriginalKept(Changes(env, mode, rules, i, m), m.routeOriginalDestination,
                r.metadata.routeOriginalDestination)
  {
    OriginalIsFolded(env, mode, rules, i, m);
    FoldKeepsOriginal(m.routeOriginalDestination, Changes(env, mode, rules, i, m));
  }

  function AskAddress(o: RouteOptions): Option<(Option<IP>, string)>
  {
    if IsValid(o.overrideAddress) then Some((o.overrideAddress.addr, o.overrideAddress.fqdn)) else None
  }

  function AskPort(o: RouteOptions): Option<nat>
  {
    if o.overridePort > 0 then Some(o.overridePort) else None
  }

  /** Address and port of the destination, settled independently. */
  ghost predicate DestinationSettled(cs: seq<Change>, before: Endpoint, after: Endpoint)
  {
    && EndsAsAsked(Asked(cs, AskAddress), (before.addr, before.fqdn), (after.addr, after.fqdn))
    && EndsAsAsked(Asked(cs, AskPort), before.port, after.port)
  }

  ghost function AllOverridden(d: Endpoint, cs: seq<Change>): Endpoint
    decreases |cs|
  {
    if cs == [] then d else AllOverridden(Overridden(d, cs[0].options), cs[1..])
  }

  lemma {:induction false} DestinationIsFolded(env: Env, supportBypass: bool, rules: seq<Rule>, i: nat, m: Metadata)
    requires i <= |rules|
    ensures var r := MatchFrom(env, PreMatch(supportBypass), rules, i, m);
            !r.Fatal? ==>
                r.metadata.destination == AllOverridden(m.destination,
                Changes(env, PreMatch(supportBypass), rules, i, m))
    decreases |rules| - i
  {
    if i < |rules| {
      if !env.matches(rules[i], m) {
        DestinationIsFolded(env, supportBypass, rules, i + 1, m);
      } else {
        var step := StepRule(env, PreMatch(supportBypass), rules[i].action, m);
        if step.Go? {
          DestinationIsFolded(env, supportBypass, rules, i + 1, step.metadata);
          var rest := Changes(env, PreMatch(supportBypass), rules, i + 1, step.metadata);
          if rules[i].action.SetOptions? {
            assert ([Change(m, rules[i].action.options)] + rest)[1..] == rest;
          } else {
            assert [] + rest == rest;
          }
        } else if rules[i].action.Route? {
          assert [Change(m, rules[i].action.options)][1..] == [];
        }
      }
    }
  }

  lemma {:induction false} AddressIsLastAsked(d: Endpoint, cs: seq<Change>)
    ensures var after := AllOverridden(d, cs);
            (after.addr, after.fqdn) == LastAsked((d.addr, d.fqdn), Asked(cs, AskAddress))
                && after.port == LastAsked(d.port, Asked(cs, AskPort))
    decreases |cs|
  {
    if cs != [] {
      AddressIsLastAsked(Overridden(d, cs[0].options), cs[1..]);
      assert Asked(cs, AskAddress)[1..] == Asked(cs[1..], AskAddress);
      assert Asked(cs, AskPort)[1..] == Asked(cs[1..], AskPort);
    }
  }

  /** In a pre-match, which does not sniff, address and port are those of the last matching rule that overrides them. */
  lemma LastOverrideWins(env: Env, supportBypass: bool, rules: seq<Rule>, i: nat, m: Metadata)
    requires i <= |rules|
    ensures var r := MatchFrom(env, PreMatch(supportBypass), rules, i, m);
            !r.Fatal? ==>
                DestinationSettled(Changes(env, PreMatch(supportBypass), rules, i, m), m.destination,
                r.metadata.destination)
  {
    DestinationIsFolded(env, supportBypass, rules, i, m);
    var cs := Changes(env, PreMatch(supportBypass), rules, i, m);
    AddressIsLastAsked(m.destination, cs);
    LastAskedIsLast((m.destination.addr, m.destination.fqdn), Asked(cs, AskAddress));
    LastAskedIsLast(m.destination.port, Asked(cs, AskPort));
  }
}
