/**
 The shape of DNS rules: the configured rule tree, the actions it can carry, and
 the options one DNS query is sent with.
 */
module DnsRule {
  import opened Basics

  datatype Result<+T> = Ok(value: T) | Err(error: Error)

  datatype Error =
    | RouterNotFound
    | RuleSetNotFound(tag: string)
    | StrategyNeedsLegacyMode
    | AddressFilterNeedsOtherMode
    | ResponseFieldsNeedMatchResponse
    | AcceptEmptyUnsupported
    | EvaluateMissing(index: nat)
    | EvaluateUsesFakeIp(index: nat)
    | NestedAction
    | MissingConditions
    | MissingServer
    | NestedEvaluate
    | ReplyUnsupported
    | MalformedRule
    | UnknownRuleType
    | RuleStartFailed(index: nat)

  datatype Strategy = AsIs | PreferIPv4 | PreferIPv6 | IPv4Only | IPv6Only

  /** The five fields an action may set; `None` and `AsIs` mean "not configured". */
  datatype RouteOptions = RouteOptions(
    strategy: Strategy,
    disableCache: bool,
    disableOptimisticCache: bool,
    rewriteTtl: Option<nat>,
    clientSubnet: Option<string>)

  const NO_OPTIONS := RouteOptions(AsIs, false, false, None, None)

  /** The options of one query, without the caller-chosen transport. */
  datatype QueryOptions = QueryOptions(
    strategy: Strategy,
    lookupStrategy: Strategy,
    disableCache: bool,
    disableOptimisticCache: bool,
    rewriteTtl: Option<nat>,
    clientSubnet: Option<string>)

  datatype ActionKind = Unset | Route | Evaluate | Respond | SetOptions | Reject | Predefined

  datatype RejectMethod = RejectDefault | RejectDrop | RejectReply

  datatype Address = V4(a4: nat) | V6(a6: nat)

  datatype Response = Response(rcode: nat, addresses: seq<Address>, body: nat)

  /** The configured action: every kind keeps its own option block, as in the configuration. */
  datatype ActionConfig = ActionConfig(
    kind: ActionKind,
    server: string,
    route: RouteOptions,
    options: RouteOptions,
    reject: RejectMethod,
    predefined: Response)

  const NO_ACTION := ActionConfig(Unset, "", NO_OPTIONS, NO_OPTIONS, RejectDefault, Response(0, [], 0))

  /** Match items the mode analysis does not look at. */
  datatype OtherItems = OtherItems(present: bool, wellFormed: bool, id: nat)

  datatype Conditions = Conditions(
    ipVersion: nat,
    queryTypes: seq<nat>,
    ruleSets: seq<string>,
    ruleSetMatchSource: bool,
    ruleSetAcceptEmpty: bool,
    matchResponse: bool,
    ipCidr: seq<string>,
    ipIsPrivate: bool,
    ipAcceptAny: bool,
    responseRcode: Option<nat>,
    responseAnswer: seq<string>,
    responseNs: seq<string>,
    responseExtra: seq<string>,
    other: OtherItems)

  const NO_CONDITIONS := Conditions(0, [], [], false, false, false, [], false, false, None, [], [], [],
      OtherItems(false, true, 0))

  datatype LogicalMode = And | Or | UnknownMode

  datatype Rule =
    | Default(when: Conditions, invert: bool, action: ActionConfig)
    | Logical(mode: LogicalMode, rules: seq<Rule>, invert: bool, action: ActionConfig)
    | UnknownType

  /** The action kind of a rule; an absent kind means route, an unknown rule type has none. */
  function ActionKindOf(rule: Rule): (k: ActionKind)
    ensures k == Unset <==> rule.UnknownType?
  {
    match rule
    case UnknownType => Unset
    case _ => if rule.action.kind == Unset then Route else rule.action.kind
  }

  /** The action of a running rule; a rule without a configured kind has a nil action. */
  datatype RuntimeAction =
    | NilAction
    | RouteTo(server: string, options: RouteOptions)
    | EvaluateWith(server: string, options: RouteOptions)
    | RespondNow
    | ChangeOptions(options: RouteOptions)
    | RejectQuery(reject: RejectMethod)
    | Answer(response: Response)

  function NewAction(action: ActionConfig): RuntimeAction
  {
    match action.kind
    case Unset => NilAction
    case Route => RouteTo(action.server, action.route)
    case Evaluate => EvaluateWith(action.server, action.route)
    case Respond => RespondNow
    case SetOptions => ChangeOptions(action.options)
    case Reject => RejectQuery(action.reject)
    case Predefined => Answer(action.predefined)
  }

  datatype RuntimeRule = RuntimeRule(config: Rule, action: RuntimeAction)
}
