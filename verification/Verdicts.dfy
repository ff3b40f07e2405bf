/** The verdict on a call from the verdicts on what is inside it, one constructor at a time, and the
    schedulers an accepted call can hold. */
module Verdicts {
  import opened Common
  import opened Calls
  import opened CallTrace
  import opened Oracle
  import opened AdmissionTheorems

  /** What the walk reports from an empty budget, outside or inside a proxy-like wrapper. */
  function Verdict(rules: Rules, origin: Option<Origin>, call: RuntimeCall, proxyish: bool): Option<OracleError> {
    Scan(rules, Trace(rules, origin, call, proxyish), 0, 0).verdict
  }

  function BatchVerdict(rules: Rules, origin: Option<Origin>, calls: seq<RuntimeCall>, proxyish: bool)
    : Option<OracleError>
  {
    Scan(rules, Traces(rules, origin, calls, proxyish), 0, 0).verdict
  }

  /** The same rules with some nodes and some levels already spent. */
  function Spent(rules: Rules, nodes: nat, levels: nat): Rules
    requires nodes <= rules.maxCalls && levels <= rules.maxLevels
  {
    rules.(maxCalls := rules.maxCalls - nodes, maxLevels := rules.maxLevels - levels)
  }

  /** Only the two counters consult the limits, so a scan that has already counted is a scan from
      zero under smaller limits. */
  lemma {:induction false} ScanSpent(rules: Rules, events: seq<Event>, depth: int, used: nat, nodes: nat, levels: nat)
    requires nodes <= rules.maxCalls && levels <= rules.maxLevels
    ensures Scan(rules, events, depth + levels, used + nodes).verdict ==
            Scan(Spent(rules, nodes, levels), events, depth, used).verdict
    decreases |events|
  {
    if events != [] {
      var near := Step(Spent(rules, nodes, levels), events[0], depth, used);
      if near.verdict.None? {
        ScanSpent(rules, events[1..], near.depth, near.calls, nodes, levels);
      }
    }
  }

  /** The trace itself does not depend on the limits. */
  lemma {:induction false} TraceSpent(
    rules: Rules, origin: Option<Origin>, call: RuntimeCall, proxyish: bool, nodes: nat, levels: nat)
    requires nodes <= rules.maxCalls && levels <= rules.maxLevels
    ensures Trace(Spent(rules, nodes, levels), origin, call, proxyish) == Trace(rules, origin, call, proxyish)
    decreases call, 1
  {
    if call.IsBatch() {
      TracesSpent(rules, origin, call.calls, proxyish, nodes, levels);
    } else if call.IsWrapper() {
      TraceSpent(rules, EffectiveOrigin(call, origin), call.inner, proxyish || call.IsProxyish(), nodes, levels);
    }
  }

  lemma {:induction false} TracesSpent(
    rules: Rules, origin: Option<Origin>, calls: seq<RuntimeCall>, proxyish: bool, nodes: nat, levels: nat)
    requires nodes <= rules.maxCalls && levels <= rules.maxLevels
    ensures Traces(Spent(rules, nodes, levels), origin, calls, proxyish) == Traces(rules, origin, calls, proxyish)
    decreases calls, 0
  {
    if calls != [] {
      TraceSpent(rules, origin, calls[0], proxyish, nodes, levels);
      TracesSpent(rules, origin, calls[1..], proxyish, nodes, levels);
    }
  }

  /** The verdict on a container whose inside is judged, with one node and one level spent, by `inside`. */
  function Around(rules: Rules, inside: Option<OracleError>): Option<OracleError> {
    if rules.maxCalls == 0 then Some(TooManyCalls) else if rules.maxLevels == 0 then Some(TooDeep) else inside
  }

  /** What is left of the limits inside one container. */
  function Inside(rules: Rules): Rules {
    if rules.maxCalls == 0 || rules.maxLevels == 0 then rules else Spent(rules, 1, 1)
  }

  lemma BracketVerdict(rules: Rules, body: seq<Event>)
    requires rules.maxCalls > 0
    ensures ScanBracket(rules, body, 0, 1).verdict == Around(rules, Scan(Inside(rules), body, 0, 0).verdict)
  {
    if rules.maxLevels > 0 {
      ScanSpent(rules, body, 0, 0, 1, 1);
    }
  }

  lemma ContainerVerdict(rules: Rules, origin: Option<Origin>, call: RuntimeCall, proxyish: bool)
    requires (call.IsBatch() || call.IsWrapper()) && LocalCheck(rules, origin, call, proxyish).None?
    ensures Verdict(rules, origin, call, proxyish) ==
            Around(rules, Scan(Inside(rules), Below(rules, origin, call, proxyish), 0, 0).verdict)
  {
    ScanNode(rules, origin, call, proxyish, 0, 0);
    if rules.maxCalls > 0 {
      BracketVerdict(rules, Below(rules, origin, call, proxyish));
    }
  }

  // ---- the verdict, constructor by constructor -------------------------------------------

  /** The two facts the constructors below are instances of. */
  lemma WrapperVerdict(rules: Rules, origin: Option<Origin>, call: RuntimeCall, proxyish: bool)
    requires call.IsWrapper() && LocalCheck(rules, origin, call, proxyish).None?
    ensures Verdict(rules, origin, call, proxyish) ==
            Around(rules, Verdict(Inside(rules), EffectiveOrigin(call, origin), call.inner,
                                  proxyish || call.IsProxyish()))
  {
    ContainerVerdict(rules, origin, call, proxyish);
    if rules.maxCalls > 0 && rules.maxLevels > 0 {
      TraceSpent(rules, EffectiveOrigin(call, origin), call.inner, proxyish || call.IsProxyish(), 1, 1);
    }
  }

  lemma UnionVerdict(rules: Rules, origin: Option<Origin>, call: RuntimeCall, proxyish: bool)
    requires call.IsBatch()
    ensures Verdict(rules, origin, call, proxyish) ==
            Around(rules, BatchVerdict(Inside(rules), origin, call.calls, proxyish))
  {
    ContainerVerdict(rules, origin, call, proxyish);
    if rules.maxCalls > 0 && rules.maxLevels > 0 {
      TracesSpent(rules, origin, call.calls, proxyish, 1, 1);
    }
  }

  /** `Nobody` is never admitted, a privileged leaf never behind a proxy, and the rest by the table. */
  lemma LeafVerdict(rules: Rules, origin: Option<Origin>, domain: CallDomain, proxyish: bool)
    ensures Verdict(rules, origin, Leaf(domain), proxyish) ==
            if rules.maxCalls == 0 then Some(TooManyCalls)
            else if domain == Nobody then Some(NobodyCall)
            else if proxyish && rules.privileged(domain) then Some(PrivilegedWrapper)
            else if !rules.allowed(domain, origin) then Some(BadOrigin)
            else None
  {
    ScanNode(rules, origin, Leaf(domain), proxyish, 0, 0);
  }

  /** These are decided without looking inside. */
  lemma OpaqueVerdicts(rules: Rules, origin: Option<Origin>, inner: RuntimeCall, proxyish: bool)
    ensures var denied := if rules.maxCalls == 0 then Some(TooManyCalls) else Some(DispatchAsDenied);
            && Verdict(rules, origin, UtilityDispatchAs(inner), proxyish) == denied
            && Verdict(rules, origin, UtilityAsDerivative(inner), proxyish) == denied
    ensures Verdict(rules, origin, MultisigApproveAsMulti, proxyish) ==
            if rules.maxCalls == 0 then Some(TooManyCalls) else None
  {
    ScanNode(rules, origin, UtilityDispatchAs(inner), proxyish, 0, 0);
    ScanNode(rules, origin, UtilityAsDerivative(inner), proxyish, 0, 0);
    ScanNode(rules, origin, MultisigApproveAsMulti, proxyish, 0, 0);
  }

  /** A plain wrapper passes its origin and its surroundings on. */
  lemma WrapperVerdicts(rules: Rules, origin: Option<Origin>, inner: RuntimeCall, proxyish: bool)
    ensures var verdict := Around(rules, Verdict(Inside(rules), origin, inner, proxyish));
            && Verdict(rules, origin, UtilityWithWeight(inner), proxyish) == verdict
            && Verdict(rules, origin, Sudo(inner), proxyish) == verdict
  {
    WrapperVerdict(rules, origin, UtilityWithWeight(inner), proxyish);
    WrapperVerdict(rules, origin, Sudo(inner), proxyish);
  }

  /** Proxies and multisigs judge what is inside as proxied, wherever they stand. */
  lemma ProxyVerdicts(rules: Rules, origin: Option<Origin>, inner: RuntimeCall, proxyish: bool)
    ensures var verdict := Around(rules, Verdict(Inside(rules), origin, inner, true));
            && Verdict(rules, origin, Proxy(inner), proxyish) == verdict
            && Verdict(rules, origin, ProxyAnnounced(inner), proxyish) == verdict
            && Verdict(rules, origin, MultisigAsMulti(inner), proxyish) == verdict
            && Verdict(rules, origin, MultisigAsMultiThreshold1(inner), proxyish) == verdict
  {
    WrapperVerdict(rules, origin, Proxy(inner), proxyish);
    WrapperVerdict(rules, origin, ProxyAnnounced(inner), proxyish);
    WrapperVerdict(rules, origin, MultisigAsMulti(inner), proxyish);
    WrapperVerdict(rules, origin, MultisigAsMultiThreshold1(inner), proxyish);
  }

  /** A scheduler may capture one of two origins, which then takes the place of the caller's. */
  lemma SchedulerVerdict(rules: Rules, origin: Option<Origin>, captured: Origin, inner: RuntimeCall, proxyish: bool)
    ensures Verdict(rules, origin, Scheduler(captured, inner), proxyish) ==
            if rules.maxCalls == 0 then Some(TooManyCalls)
            else if captured != ConstitutionalValues && captured != OracleResolution then Some(SchedulerDenied)
            else Around(rules, Verdict(Inside(rules), Some(captured), inner, proxyish))
  {
    if captured == ConstitutionalValues || captured == OracleResolution {
      WrapperVerdict(rules, origin, Scheduler(captured, inner), proxyish);
    } else {
      ScanNode(rules, origin, Scheduler(captured, inner), proxyish, 0, 0);
    }
  }

  /** The three batches are one. */
  lemma BatchVerdicts(rules: Rules, origin: Option<Origin>, calls: seq<RuntimeCall>, proxyish: bool)
    ensures var verdict := Around(rules, BatchVerdict(Inside(rules), origin, calls, proxyish));
            && Verdict(rules, origin, UtilityBatch(calls), proxyish) == verdict
            && Verdict(rules, origin, UtilityBatchAll(calls), proxyish) == verdict
            && Verdict(rules, origin, UtilityForceBatch(calls), proxyish) == verdict
  {
    UnionVerdict(rules, origin, UtilityBatch(calls), proxyish);
    UnionVerdict(rules, origin, UtilityBatchAll(calls), proxyish);
    UnionVerdict(rules, origin, UtilityForceBatch(calls), proxyish);
  }

  lemma FirstSpends(rules: Rules, origin: Option<Origin>, first: RuntimeCall, proxyish: bool)
    ensures var end := Scan(rules, Trace(rules, origin, first, proxyish), 0, 0);
            end.verdict.None? ==> end.depth == 0 && end.calls == NodeCount(first) <= rules.maxCalls
  {
    AdmitsCall(rules, origin, first, proxyish, 0, 0);
  }

  lemma RestSpent(rules: Rules, origin: Option<Origin>, rest: seq<RuntimeCall>, proxyish: bool, nodes: nat)
    requires nodes <= rules.maxCalls
    ensures Scan(rules, Traces(rules, origin, rest, proxyish), 0, nodes).verdict ==
            BatchVerdict(Spent(rules, nodes, 0), origin, rest, proxyish)
  {
    TracesSpent(rules, origin, rest, proxyish, nodes, 0);
    ScanSpent(rules, Traces(rules, origin, rest, proxyish), 0, 0, nodes, 0);
  }

  /** Siblings in order: an error stops them, and an accepted one spends its nodes but no level. */
  lemma SiblingVerdicts(
    rules: Rules, origin: Option<Origin>, first: RuntimeCall, rest: seq<RuntimeCall>, proxyish: bool)
    ensures BatchVerdict(rules, origin, [], proxyish) == None
    ensures var verdict := Verdict(rules, origin, first, proxyish);
            verdict.None? ==> NodeCount(first) <= rules.maxCalls
    ensures var verdict := Verdict(rules, origin, first, proxyish);
            BatchVerdict(rules, origin, [first] + rest, proxyish) ==
            if verdict.Some? then verdict
            else BatchVerdict(Spent(rules, NodeCount(first), 0), origin, rest, proxyish)
  {
    var calls := [first] + rest;
    assert calls[1..] == rest;
    ScanCons(rules, origin, calls, proxyish, 0, 0);
    FirstSpends(rules, origin, first, proxyish);
    if Verdict(rules, origin, first, proxyish).None? {
      RestSpent(rules, origin, rest, proxyish, NodeCount(first));
    }
  }

  /** Every node counts once, whether or not the walk descends into it. */
  lemma NodesOf(call: RuntimeCall)
    ensures call.Leaf? || call.MultisigApproveAsMulti? ==> NodeCount(call) == 1
    ensures call.UtilityBatch? || call.UtilityBatchAll? || call.UtilityForceBatch? ==>
              NodeCount(call) == 1 + NodeCounts(call.calls)
    ensures (|| call.UtilityDispatchAs? || call.UtilityAsDerivative? || call.UtilityWithWeight? || call.Proxy?
             || call.ProxyAnnounced? || call.MultisigAsMulti? || call.MultisigAsMultiThreshold1?
             || call.Scheduler? || call.Sudo?) ==> NodeCount(call) == 1 + NodeCount(call.inner)
  {
  }

  /** A scheduler is admitted exactly when it captures one of the two origins and what is inside is
      admitted under it with one node and one level to spare. */
  lemma SchedulerAdmits(rules: Rules, origin: Option<Origin>, captured: Origin, inner: RuntimeCall)
    ensures Admits(rules, origin, Scheduler(captured, inner)) <==>
            && (captured == ConstitutionalValues || captured == OracleResolution)
            && rules.maxCalls > 0 && rules.maxLevels > 0
            && Admits(Spent(rules, 1, 1), Some(captured), inner)
  {
    SchedulerVerdict(rules, origin, captured, inner, false);
  }

  // ---- what occurs in an accepted call ---------------------------------------------------

  /** `part` occurs somewhere in `whole`, itself included. */
  predicate Occurs(part: RuntimeCall, whole: RuntimeCall)
    decreases whole, 1
  {
    part == whole ||
    match whole
    case Leaf(_) => false
    case MultisigApproveAsMulti => false
    case UtilityBatch(calls) => OccursIn(part, calls)
    case UtilityBatchAll(calls) => OccursIn(part, calls)
    case UtilityForceBatch(calls) => OccursIn(part, calls)
    case UtilityDispatchAs(inner) => Occurs(part, inner)
    case UtilityAsDerivative(inner) => Occurs(part, inner)
    case UtilityWithWeight(inner) => Occurs(part, inner)
    case Proxy(inner) => Occurs(part, inner)
    case ProxyAnnounced(inner) => Occurs(part, inner)
    case MultisigAsMulti(inner) => Occurs(part, inner)
    case MultisigAsMultiThreshold1(inner) => Occurs(part, inner)
    case Scheduler(_, inner) => Occurs(part, inner)
    case Sudo(inner) => Occurs(part, inner)
  }

  predicate OccursIn(part: RuntimeCall, calls: seq<RuntimeCall>)
    decreases calls, 0
  {
    calls != [] && (Occurs(part, calls[0]) || OccursIn(part, calls[1..]))
  }

  /** Nodes that no accepted call holds anywhere, whoever calls and whatever the tables say. */
  predicate Forbidden(part: RuntimeCall) {
    || part == Leaf(Nobody)
    || part.UtilityDispatchAs? || part.UtilityAsDerivative?
    || (part.Scheduler? && part.captured != ConstitutionalValues && part.captured != OracleResolution)
  }

  lemma {:induction false} AdmissibleHoldsNone(
    rules: Rules, call: RuntimeCall, proxyish: bool, origin: Option<Origin>, part: RuntimeCall)
    requires AdmissibleTree(rules, call, proxyish, origin) && Occurs(part, call)
    ensures !Forbidden(part)
    decreases call, 1
  {
    if part != call {
      if call.IsBatch() {
        AdmissiblesHoldNone(rules, call.calls, proxyish, origin, part);
      } else {
        AdmissibleHoldsNone(rules, call.inner, proxyish || call.IsProxyish(), EffectiveOrigin(call, origin), part);
      }
    }
  }

  lemma {:induction false} AdmissiblesHoldNone(
    rules: Rules, calls: seq<RuntimeCall>, proxyish: bool, origin: Option<Origin>, part: RuntimeCall)
    requires AdmissibleTrees(rules, calls, proxyish, origin) && OccursIn(part, calls)
    ensures !Forbidden(part)
    decreases calls, 0
  {
    if Occurs(part, calls[0]) {
      AdmissibleHoldsNone(rules, calls[0], proxyish, origin, part);
    } else {
      AdmissiblesHoldNone(rules, calls[1..], proxyish, origin, part);
    }
  }

  /** However deep and however wrapped: no `Nobody` leaf, no dispatch-as or derivative, and no scheduler
      that captures another origin than the two. */
  lemma AcceptedHoldsNone(rules: Rules, origin: Option<Origin>, call: RuntimeCall, part: RuntimeCall)
    requires Admits(rules, origin, call) && Occurs(part, call)
    ensures part != Leaf(Nobody) && !part.UtilityDispatchAs? && !part.UtilityAsDerivative?
    ensures part.Scheduler? ==> part.captured == ConstitutionalValues || part.captured == OracleResolution
  {
    AdmitsExactly(rules, origin, call);
    AdmissibleHoldsNone(rules, call, false, origin, part);
  }

  lemma AcceptedBatchHoldsNone(rules: Rules, origin: Option<Origin>, calls: seq<RuntimeCall>, part: RuntimeCall)
    requires AdmitsBatch(rules, origin, calls) && OccursIn(part, calls)
    ensures part != Leaf(Nobody) && !part.UtilityDispatchAs? && !part.UtilityAsDerivative?
    ensures part.Scheduler? ==> part.captured == ConstitutionalValues || part.captured == OracleResolution
  {
    AdmitsCalls(rules, origin, calls, false, 0, 0);
    AdmissiblesHoldNone(rules, calls, false, origin, part);
  }

  lemma {:induction false} ContainsNobodyIsOccurs(call: RuntimeCall)
    ensures ContainsNobody(call) <==> Occurs(Leaf(Nobody), call)
    decreases call, 1
  {
    if call.IsBatch() {
      AnyNobodyIsOccurs(call.calls);
    } else if call.HasInner() {
      ContainsNobodyIsOccurs(call.inner);
    }
  }

  lemma {:induction false} AnyNobodyIsOccurs(calls: seq<RuntimeCall>)
    ensures AnyNobody(calls) <==> OccursIn(Leaf(Nobody), calls)
    decreases calls, 0
  {
    if calls != [] {
      ContainsNobodyIsOccurs(calls[0]);
      AnyNobodyIsOccurs(calls[1..]);
    }
  }

  // ---- the shipped limits and tables -----------------------------------------------------

  /** Sixteen calls and four levels, shared by the calls of a batch and for one call alone. */
  lemma ProductionLimits(origin: Option<Origin>, call: RuntimeCall, calls: seq<RuntimeCall>)
    ensures Admits(PRODUCTION, origin, call) <==>
            NodeCount(call) <= 16 && ContainerDepth(call) <= 4 && AdmissibleTree(PRODUCTION, call, false, origin)
    ensures AdmitsBatch(PRODUCTION, origin, calls) <==>
            NodeCounts(calls) <= 16 && MaxDepth(calls) <= 4 && AdmissibleTrees(PRODUCTION, calls, false, origin)
  {
    AdmitsExactly(PRODUCTION, origin, call);
    AdmitsCalls(PRODUCTION, origin, calls, false, 0, 0);
  }

  /** Which domains each governance origin reaches, and which domains need one. */
  lemma OriginsReach(domain: CallDomain)
    ensures domain.AllowedFor(Some(FutarchyParam)) <==> domain == Public || domain == Param
    ensures domain.AllowedFor(Some(FutarchyTreasury)) <==> domain == Public || domain == Treasury
    ensures domain.AllowedFor(Some(FutarchyCode)) <==> domain == Public || domain == Code
    ensures domain.AllowedFor(Some(FutarchyMeta)) <==> domain == Public || domain == Meta
    ensures domain.AllowedFor(Some(ConstitutionalValues)) <==> domain == Public || domain == ConstitutionalValuesCall
    ensures domain.AllowedFor(Some(OracleResolution)) <==> domain == Public || domain == OracleResolutionCall
    ensures domain.AllowedFor(Some(GuardianHold)) <==> domain == Public || domain == GuardianHoldCall
    ensures domain.AllowedFor(Some(EmergencyPlaybook)) <==> domain == Public || domain == EmergencyPlaybookCall
    ensures domain.AllowedFor(None) <==> domain == Public || domain == ExternalClient
    ensures domain.IsPrivileged() <==> domain != Public && domain != Nobody && domain != ExternalClient
  {
  }

  /** No two governance origins reach a common domain that is not public, and what they reach apart
      from it is out of reach without an origin. */
  lemma OriginsAreDisjoint(domain: CallDomain, a: Origin, b: Origin)
    requires domain != Public && PRODUCTION.allowed(domain, Some(a)) && PRODUCTION.allowed(domain, Some(b))
    ensures a == b && PRODUCTION.privileged(domain) && !PRODUCTION.allowed(domain, None)
  {
    OriginsReach(domain);
  }
}
