/** The closed wrapper table of the nested-call filter, in two forms: a walk that
    threads one mutable budget through the call tree and stops at the first
    error, and a conjunction of three separate tree functions. */
module Calls {
  import opened Common

  datatype Origin =
    | FutarchyParam
    | FutarchyTreasury
    | FutarchyCode
    | FutarchyMeta
    | ConstitutionalValues
    | OracleResolution
    | GuardianHold
    | EmergencyPlaybook

  datatype CallDomain =
    | Public
    | Nobody
    | Param
    | Treasury
    | Code
    | Meta
    | ConstitutionalValuesCall
    | OracleResolutionCall
    | GuardianHoldCall
    | EmergencyPlaybookCall
    | InternalRoot
    | ExternalClient
  {
    /** Needs a governance origin. The client domain of the hosted service needs none. */
    predicate IsPrivileged() { !Public? && !Nobody? && !ExternalClient? }

    /** Each governance domain is reached by its own origin only, the client domain by none of them. */
    predicate AllowedFor(origin: Option<Origin>) {
      match this
      case Public => true
      case Nobody => false
      case InternalRoot => false
      case Param => origin == Some(FutarchyParam)
      case Treasury => origin == Some(FutarchyTreasury)
      case Code => origin == Some(FutarchyCode)
      case Meta => origin == Some(FutarchyMeta)
      case ConstitutionalValuesCall => origin == Some(ConstitutionalValues)
      case OracleResolutionCall => origin == Some(OracleResolution)
      case GuardianHoldCall => origin == Some(GuardianHold)
      case EmergencyPlaybookCall => origin == Some(EmergencyPlaybook)
      case ExternalClient => origin == None
    }
  }

  datatype RuntimeCall =
    | Leaf(domain: CallDomain)
    | UtilityBatch(calls: seq<RuntimeCall>)
    | UtilityBatchAll(calls: seq<RuntimeCall>)
    | UtilityForceBatch(calls: seq<RuntimeCall>)
    | UtilityDispatchAs(inner: RuntimeCall)
    | UtilityAsDerivative(inner: RuntimeCall)
    | UtilityWithWeight(inner: RuntimeCall)
    | Proxy(inner: RuntimeCall)
    | ProxyAnnounced(inner: RuntimeCall)
    | MultisigAsMulti(inner: RuntimeCall)
    | MultisigAsMultiThreshold1(inner: RuntimeCall)
    | MultisigApproveAsMulti
    | Scheduler(captured: Origin, inner: RuntimeCall)
    | Sudo(inner: RuntimeCall)
  {
    predicate IsBatch() { UtilityBatch? || UtilityBatchAll? || UtilityForceBatch? }

    predicate IsProxyish() {
      Proxy? || ProxyAnnounced? || MultisigAsMulti? || MultisigAsMultiThreshold1?
    }

    predicate IsDenied() { UtilityDispatchAs? || UtilityAsDerivative? }

    /** The single-child wrappers the filter descends into. */
    predicate IsWrapper() { UtilityWithWeight? || Sudo? || Scheduler? || IsProxyish() }

    /** Every constructor with one child, descended into or not. */
    predicate HasInner() { IsWrapper() || IsDenied() }
  }

  datatype OracleError =
    | NobodyCall
    | BadOrigin
    | PrivilegedWrapper
    | DispatchAsDenied
    | SchedulerDenied
    | TooDeep
    | TooManyCalls

  /** The two kernel limits and the two `CallDomain` methods. Most results hold whatever they are;
      `PRODUCTION` are the ones the runtime ships. */
  datatype Rules = Rules(
    maxCalls: u32,
    maxLevels: u32,
    privileged: CallDomain -> bool,
    allowed: (CallDomain, Option<Origin>) -> bool)

  const MAX_NESTED_CALLS: u32 := 16
  const MAX_NESTED_LEVELS: u32 := 4

  const PRODUCTION: Rules := Rules(
    MAX_NESTED_CALLS,
    MAX_NESTED_LEVELS,
    (domain: CallDomain) => domain.IsPrivileged(),
    (domain: CallDomain, origin: Option<Origin>) => domain.AllowedFor(origin))

  predicate ValuesOrigin(origin: Origin) {
    origin.ConstitutionalValues? || origin.OracleResolution?
  }

  /** The origin in force below a node: a scheduler overrides it. */
  function EffectiveOrigin(call: RuntimeCall, origin: Option<Origin>): Option<Origin> {
    if call.Scheduler? then Some(call.captured) else origin
  }

  // ---- the three separately computed properties ------------------------------

  function NodeCount(call: RuntimeCall): (n: nat)
    ensures n >= 1
    decreases call, 1
  {
    1 + if call.IsBatch() then NodeCounts(call.calls)
        else if call.HasInner() then NodeCount(call.inner)
        else 0
  }

  function NodeCounts(calls: seq<RuntimeCall>): (n: nat)
    ensures n >= |calls|
    decreases calls, 0
  {
    if calls == [] then 0 else NodeCount(calls[0]) + NodeCounts(calls[1..])
  }

  function Wrap32(n: nat): u32 { n % 0x1_0000_0000 }

  /** The same count in `u32` arithmetic that wraps, as a release build computes it. */
  function NodeCount32(call: RuntimeCall): u32
    decreases call, 1
  {
    Wrap32(1 + if call.IsBatch() then NodeCounts32(call.calls)
               else if call.HasInner() then NodeCount32(call.inner)
               else 0)
  }

  function NodeCounts32(calls: seq<RuntimeCall>): u32
    decreases calls, 0
  {
    if calls == [] then 0 else Wrap32(NodeCount32(calls[0]) + NodeCounts32(calls[1..]))
  }

  function Max(a: nat, b: nat): nat { if a < b then b else a }

  function ContainerDepth(call: RuntimeCall): nat
    decreases call, 1
  {
    if call.IsBatch() then 1 + MaxDepth(call.calls)
    else if call.IsWrapper() then 1 + ContainerDepth(call.inner)
    else 0
  }

  function MaxDepth(calls: seq<RuntimeCall>): nat
    decreases calls, 0
  {
    if calls == [] then 0 else Max(ContainerDepth(calls[0]), MaxDepth(calls[1..]))
  }

  predicate AdmissibleTree(rules: Rules, call: RuntimeCall, underProxyish: bool, origin: Option<Origin>)
    decreases call, 1
  {
    if call.Leaf? then
      if call.domain.Nobody? then false
      else if rules.privileged(call.domain) && underProxyish then false
      else rules.allowed(call.domain, origin)
    else if call.IsBatch() then AdmissibleTrees(rules, call.calls, underProxyish, origin)
    else if call.Scheduler? then
      ValuesOrigin(call.captured) && AdmissibleTree(rules, call.inner, underProxyish, Some(call.captured))
    else if call.IsProxyish() then AdmissibleTree(rules, call.inner, true, origin)
    else if call.IsWrapper() then AdmissibleTree(rules, call.inner, underProxyish, origin)
    else call.MultisigApproveAsMulti?
  }

  predicate AdmissibleTrees(rules: Rules, calls: seq<RuntimeCall>, underProxyish: bool, origin: Option<Origin>)
    decreases calls, 0
  {
    calls == [] ||
    (AdmissibleTree(rules, calls[0], underProxyish, origin) &&
     AdmissibleTrees(rules, calls[1..], underProxyish, origin))
  }

  /** The independent statement of the admission rule. */
  predicate IndependentAdmits(rules: Rules, origin: Option<Origin>, call: RuntimeCall) {
    && NodeCount32(call) <= rules.maxCalls
    && ContainerDepth(call) <= rules.maxLevels
    && AdmissibleTree(rules, call, false, origin)
  }

  /** The independent statement for a payload whose calls share one budget. */
  predicate IndependentBatch(rules: Rules, origin: Option<Origin>, calls: seq<RuntimeCall>) {
    && NodeCounts32(calls) <= rules.maxCalls
    && MaxDepth(calls) <= rules.maxLevels
    && AdmissibleTrees(rules, calls, false, origin)
  }

  // ---- what an accepted tree must not contain --------------------------------

  predicate ContainsNobody(call: RuntimeCall)
    decreases call, 1
  {
    if call.Leaf? then call.domain.Nobody?
    else if call.IsBatch() then AnyNobody(call.calls)
    else call.HasInner() && ContainsNobody(call.inner)
  }

  predicate AnyNobody(calls: seq<RuntimeCall>)
    decreases calls, 0
  {
    calls != [] && (ContainsNobody(calls[0]) || AnyNobody(calls[1..]))
  }

  predicate ContainsUnscopedPrivileged(rules: Rules, call: RuntimeCall, underScheduler: bool)
    decreases call, 1
  {
    if call.Leaf? then !underScheduler && rules.privileged(call.domain)
    else if call.IsBatch() then AnyUnscopedPrivileged(rules, call.calls, underScheduler)
    else call.HasInner() && ContainsUnscopedPrivileged(rules, call.inner, underScheduler || call.Scheduler?)
  }

  predicate AnyUnscopedPrivileged(rules: Rules, calls: seq<RuntimeCall>, underScheduler: bool)
    decreases calls, 0
  {
    calls != [] &&
    (ContainsUnscopedPrivileged(rules, calls[0], underScheduler) ||
     AnyUnscopedPrivileged(rules, calls[1..], underScheduler))
  }

  /** A privileged leaf somewhere below a proxy or multisig wrapper, schedulers included. */
  predicate ContainsProxiedPrivileged(rules: Rules, call: RuntimeCall, underProxyish: bool)
    decreases call, 1
  {
    if call.Leaf? then underProxyish && rules.privileged(call.domain)
    else if call.IsBatch() then AnyProxiedPrivileged(rules, call.calls, underProxyish)
    else call.HasInner() && ContainsProxiedPrivileged(rules, call.inner, underProxyish || call.IsProxyish())
  }

  predicate AnyProxiedPrivileged(rules: Rules, calls: seq<RuntimeCall>, underProxyish: bool)
    decreases calls, 0
  {
    calls != [] &&
    (ContainsProxiedPrivileged(rules, calls[0], underProxyish) ||
     AnyProxiedPrivileged(rules, calls[1..], underProxyish))
  }
}

/** A call tree laid out in pre-order as budget events, and the scan that stops at
    the first failing one. This is the reference the recursive walk is proved
    against. */
module CallTrace {
  import opened Common
  import opened Calls

  datatype Event = Count | Reject(error: OracleError) | Enter | Leave

  /** What the walk reports about a node itself, before it descends. */
  function LocalCheck(rules: Rules, origin: Option<Origin>, call: RuntimeCall, proxyish: bool): Option<OracleError> {
    if call.Leaf? then
      if call.domain.Nobody? then Some(NobodyCall)
      else if rules.privileged(call.domain) && proxyish then Some(PrivilegedWrapper)
      else if rules.allowed(call.domain, origin) then None
      else Some(BadOrigin)
    else if call.IsDenied() then Some(DispatchAsDenied)
    else if call.Scheduler? && !ValuesOrigin(call.captured) then Some(SchedulerDenied)
    else None
  }

  function LocalEvents(rules: Rules, origin: Option<Origin>, call: RuntimeCall, proxyish: bool): seq<Event> {
    match LocalCheck(rules, origin, call, proxyish)
    case None => []
    case Some(error) => [Reject(error)]
  }

  function Trace(rules: Rules, origin: Option<Origin>, call: RuntimeCall, proxyish: bool): seq<Event>
    decreases call, 1
  {
    [Count] + LocalEvents(rules, origin, call, proxyish) +
    if call.IsBatch() then [Enter] + Traces(rules, origin, call.calls, proxyish) + [Leave]
    else if call.IsWrapper() then
      [Enter] +
      Trace(rules, EffectiveOrigin(call, origin), call.inner, proxyish || call.IsProxyish()) +
      [Leave]
    else []
  }

  function Traces(rules: Rules, origin: Option<Origin>, calls: seq<RuntimeCall>, proxyish: bool): seq<Event>
    decreases calls, 0
  {
    if calls == [] then []
    else Trace(rules, origin, calls[0], proxyish) + Traces(rules, origin, calls[1..], proxyish)
  }

  /** Where a scan stands: the first failure, if any, and the two counters there. */
  datatype Progress = Progress(verdict: Option<OracleError>, depth: int, calls: nat)

  function Step(rules: Rules, event: Event, depth: int, calls: nat): Progress {
    match event
    case Count =>
      if calls >= U32_MAX then Progress(Some(TooManyCalls), depth, calls)
      else if calls + 1 > rules.maxCalls then Progress(Some(TooManyCalls), depth, calls + 1)
      else Progress(None, depth, calls + 1)
    case Enter =>
      if depth >= U32_MAX then Progress(Some(TooDeep), depth, calls)
      else if depth + 1 > rules.maxLevels then Progress(Some(TooDeep), depth + 1, calls)
      else Progress(None, depth + 1, calls)
    case Leave => Progress(None, depth - 1, calls)
    case Reject(error) => Progress(Some(error), depth, calls)
  }

  function Scan(rules: Rules, events: seq<Event>, depth: int, calls: nat): Progress {
    if events == [] then Progress(None, depth, calls)
    else
      var next := Step(rules, events[0], depth, calls);
      if next.verdict.Some? then next else Scan(rules, events[1..], next.depth, next.calls)
  }

  function Resume(rules: Rules, from: Progress, events: seq<Event>): Progress {
    if from.verdict.Some? then from else Scan(rules, events, from.depth, from.calls)
  }

  lemma {:induction false} ScanAppend(rules: Rules, a: seq<Event>, b: seq<Event>, depth: int, calls: nat)
    ensures Scan(rules, a + b, depth, calls) == Resume(rules, Scan(rules, a, depth, calls), b)
  {
    if a == [] {
      assert a + b == b;
    } else {
      var next := Step(rules, a[0], depth, calls);
      assert (a + b)[1..] == a[1..] + b;
      if next.verdict.None? {
        ScanAppend(rules, a[1..], b, next.depth, next.calls);
      }
    }
  }

  function ScanBracket(rules: Rules, body: seq<Event>, depth: int, calls: nat): Progress {
    var entered := Step(rules, Enter, depth, calls);
    if entered.verdict.Some? then entered
    else
      var inside := Scan(rules, body, entered.depth, calls);
      if inside.verdict.Some? then inside else Progress(None, inside.depth - 1, inside.calls)
  }

  lemma ScanEnterLeave(rules: Rules, body: seq<Event>, depth: int, calls: nat)
    ensures Scan(rules, [Enter] + (body + [Leave]), depth, calls) == ScanBracket(rules, body, depth, calls)
  {
    var events := [Enter] + (body + [Leave]);
    assert events[1..] == body + [Leave];
    var entered := Step(rules, Enter, depth, calls);
    if entered.verdict.None? {
      ScanAppend(rules, body, [Leave], entered.depth, entered.calls);
      var inside := Scan(rules, body, entered.depth, entered.calls);
      if inside.verdict.None? {
        assert [Leave][1..] == [];
        assert Scan(rules, [Leave], inside.depth, inside.calls) == Progress(None, inside.depth - 1, inside.calls);
      }
    }
  }

  lemma ScanCons(rules: Rules, origin: Option<Origin>, calls: seq<RuntimeCall>, proxyish: bool, depth: int, used: nat)
    requires calls != []
    ensures Scan(rules, Traces(rules, origin, calls, proxyish), depth, used) ==
            Resume(rules, Scan(rules, Trace(rules, origin, calls[0], proxyish), depth, used),
                   Traces(rules, origin, calls[1..], proxyish))
  {
    ScanAppend(rules, Trace(rules, origin, calls[0], proxyish), Traces(rules, origin, calls[1..], proxyish),
               depth, used);
  }

  function Bracketed(body: seq<Event>): seq<Event> { [Count] + ([Enter] + (body + [Leave])) }

  lemma ScanBracketed(rules: Rules, body: seq<Event>, depth: int, used: nat)
    requires Step(rules, Count, depth, used).verdict.None?
    ensures Scan(rules, Bracketed(body), depth, used) == ScanBracket(rules, body, depth, used + 1)
  {
    assert Bracketed(body)[0] == Count && Bracketed(body)[1..] == [Enter] + (body + [Leave]);
    ScanEnterLeave(rules, body, depth, used + 1);
  }

  /** The events below a node that passes its own check. */
  function Below(rules: Rules, origin: Option<Origin>, call: RuntimeCall, proxyish: bool): seq<Event>
    requires call.IsBatch() || call.IsWrapper()
  {
    if call.IsBatch() then Traces(rules, origin, call.calls, proxyish)
    else Trace(rules, EffectiveOrigin(call, origin), call.inner, proxyish || call.IsProxyish())
  }

  lemma TraceBracketed(rules: Rules, origin: Option<Origin>, call: RuntimeCall, proxyish: bool)
    requires (call.IsBatch() || call.IsWrapper()) && LocalCheck(rules, origin, call, proxyish).None?
    ensures Trace(rules, origin, call, proxyish) == Bracketed(Below(rules, origin, call, proxyish))
  {
  }

  /** A node that descends is counted, then brackets what is below it. */
  lemma ScanInner(rules: Rules, origin: Option<Origin>, call: RuntimeCall, proxyish: bool, depth: int, used: nat)
    requires (call.IsBatch() || call.IsWrapper()) && LocalCheck(rules, origin, call, proxyish).None?
    requires Step(rules, Count, depth, used).verdict.None?
    ensures Scan(rules, Trace(rules, origin, call, proxyish), depth, used) ==
            ScanBracket(rules, Below(rules, origin, call, proxyish), depth, used + 1)
  {
    TraceBracketed(rules, origin, call, proxyish);
    ScanBracketed(rules, Below(rules, origin, call, proxyish), depth, used);
  }

  /** A node that fails on its own, or has nothing below it. */
  lemma ScanAlone(rules: Rules, origin: Option<Origin>, call: RuntimeCall, proxyish: bool, depth: int, used: nat)
    requires var local := LocalCheck(rules, origin, call, proxyish);
             Step(rules, Count, depth, used).verdict.Some? || local.Some? || !(call.IsBatch() || call.IsWrapper())
    ensures
      var counted, local := Step(rules, Count, depth, used), LocalCheck(rules, origin, call, proxyish);
      Scan(rules, Trace(rules, origin, call, proxyish), depth, used) ==
      if counted.verdict.None? && local.Some? then Progress(local, depth, counted.calls) else counted
  {
    var trace, local := Trace(rules, origin, call, proxyish), LocalCheck(rules, origin, call, proxyish);
    assert trace[0] == Count;
    if local.Some? {
      assert trace[1..][0] == Reject(local.value);
    }
  }

  /** Scanning a node: its count, its own check, then its bracketed children. */
  lemma ScanNode(rules: Rules, origin: Option<Origin>, call: RuntimeCall, proxyish: bool, depth: int, calls: nat)
    ensures
      var counted := Step(rules, Count, depth, calls);
      var local := LocalCheck(rules, origin, call, proxyish);
      Scan(rules, Trace(rules, origin, call, proxyish), depth, calls) ==
      if counted.verdict.Some? then counted
      else if local.Some? then Progress(local, depth, counted.calls)
      else if call.IsBatch() || call.IsWrapper() then
        ScanBracket(rules, Below(rules, origin, call, proxyish), depth, counted.calls)
      else counted
  {
    var counted := Step(rules, Count, depth, calls);
    var local := LocalCheck(rules, origin, call, proxyish);
    if counted.verdict.None? && local.None? && (call.IsBatch() || call.IsWrapper()) {
      ScanInner(rules, origin, call, proxyish, depth, calls);
    } else {
      ScanAlone(rules, origin, call, proxyish, depth, calls);
    }
  }

  // ---- the walk's verdict is the conjunction of the three tree functions -----

  /** `need` levels fit above `depth`; a tree that opens no container asks nothing. */
  predicate DepthFits(rules: Rules, depth: int, need: nat) {
    need == 0 || depth + need <= rules.maxLevels
  }

  /** `end` is what a part of the walk reports when it holds `nodes` nodes, opens
      `levels` levels and is structurally `admissible`. */
  predicate Decides(rules: Rules, end: Progress, depth: int, used: nat, nodes: nat, levels: nat, admissible: bool) {
    && (end.verdict.None? <==>
        (nodes == 0 || used + nodes <= rules.maxCalls) && DepthFits(rules, depth, levels) && admissible)
    && (end.verdict.None? ==> end.depth == depth && end.calls == used + nodes)
  }

  lemma DecidesBracket(rules: Rules, body: seq<Event>, depth: int, used: nat, nodes: nat, levels: nat, admissible: bool)
    requires used <= rules.maxCalls
    requires Decides(rules, Scan(rules, body, depth + 1, used), depth + 1, used, nodes, levels, admissible)
    ensures Decides(rules, ScanBracket(rules, body, depth, used), depth, used, nodes, levels + 1, admissible)
  {
  }

  /** A node that fails on its own, or has nothing to descend into. */
  lemma DecidesLeaf(rules: Rules, origin: Option<Origin>, call: RuntimeCall, proxyish: bool, depth: int, used: nat)
    requires var counted := Step(rules, Count, depth, used);
             counted.verdict.Some? || LocalCheck(rules, origin, call, proxyish).Some? ||
             !(call.IsBatch() || call.IsWrapper())
    ensures Decides(rules, Scan(rules, Trace(rules, origin, call, proxyish), depth, used), depth, used,
                    NodeCount(call), ContainerDepth(call), AdmissibleTree(rules, call, proxyish, origin))
  {
    ScanAlone(rules, origin, call, proxyish, depth, used);
    assert LocalCheck(rules, origin, call, proxyish).Some? ==> !AdmissibleTree(rules, call, proxyish, origin);
  }

  lemma DecidesCounted(rules: Rules, end: Progress, depth: int, used: nat, nodes: nat, levels: nat, admissible: bool)
    requires used + 1 <= rules.maxCalls
    requires Decides(rules, end, depth, used + 1, nodes, levels, admissible)
    ensures Decides(rules, end, depth, used, 1 + nodes, levels, admissible)
  {
  }

  /** A node that descends adds one call and one level to what is below it. */
  lemma DecidesNode(rules: Rules, body: seq<Event>, end: Progress, depth: int, used: nat, nodes: nat, levels: nat,
                    admissible: bool)
    requires used + 1 <= rules.maxCalls && end == ScanBracket(rules, body, depth, used + 1)
    requires Decides(rules, Scan(rules, body, depth + 1, used + 1), depth + 1, used + 1, nodes, levels, admissible)
    ensures Decides(rules, end, depth, used, 1 + nodes, 1 + levels, admissible)
  {
    DecidesBracket(rules, body, depth, used + 1, nodes, levels, admissible);
    DecidesCounted(rules, end, depth, used, nodes, 1 + levels, admissible);
  }

  /** A node that passes its own check is admissible when what is below it is. */
  lemma AdmissibleBelow(rules: Rules, origin: Option<Origin>, call: RuntimeCall, proxyish: bool)
    requires LocalCheck(rules, origin, call, proxyish).None? && call.IsWrapper()
    ensures AdmissibleTree(rules, call, proxyish, origin) ==
            AdmissibleTree(rules, call.inner, proxyish || call.IsProxyish(), EffectiveOrigin(call, origin))
  {
  }

  lemma DecidesBatch(rules: Rules, origin: Option<Origin>, call: RuntimeCall, proxyish: bool, depth: int, used: nat)
    requires Step(rules, Count, depth, used).verdict.None? && call.IsBatch()
    requires Decides(rules, Scan(rules, Traces(rules, origin, call.calls, proxyish), depth + 1, used + 1),
                     depth + 1, used + 1, NodeCounts(call.calls), MaxDepth(call.calls),
                     AdmissibleTrees(rules, call.calls, proxyish, origin))
    ensures Decides(rules, Scan(rules, Trace(rules, origin, call, proxyish), depth, used), depth, used,
                    NodeCount(call), ContainerDepth(call), AdmissibleTree(rules, call, proxyish, origin))
  {
    ScanInner(rules, origin, call, proxyish, depth, used);
    DecidesNode(rules, Traces(rules, origin, call.calls, proxyish),
                Scan(rules, Trace(rules, origin, call, proxyish), depth, used), depth, used,
                NodeCounts(call.calls), MaxDepth(call.calls), AdmissibleTrees(rules, call.calls, proxyish, origin));
  }

  lemma DecidesWrapper(rules: Rules, origin: Option<Origin>, call: RuntimeCall, proxyish: bool, depth: int, used: nat,
                       o: Option<Origin>, p: bool)
    requires Step(rules, Count, depth, used).verdict.None?
    requires call.IsWrapper() && LocalCheck(rules, origin, call, proxyish).None?
    requires o == EffectiveOrigin(call, origin) && p == (proxyish || call.IsProxyish())
    requires Decides(rules, Scan(rules, Trace(rules, o, call.inner, p), depth + 1, used + 1),
                     depth + 1, used + 1, NodeCount(call.inner), ContainerDepth(call.inner),
                     AdmissibleTree(rules, call.inner, p, o))
    ensures Decides(rules, Scan(rules, Trace(rules, origin, call, proxyish), depth, used), depth, used,
                    NodeCount(call), ContainerDepth(call), AdmissibleTree(rules, call, proxyish, origin))
  {
    AdmissibleBelow(rules, origin, call, proxyish);
    ScanInner(rules, origin, call, proxyish, depth, used);
    DecidesNode(rules, Trace(rules, o, call.inner, p),
                Scan(rules, Trace(rules, origin, call, proxyish), depth, used), depth, used,
                NodeCount(call.inner), ContainerDepth(call.inner), AdmissibleTree(rules, call.inner, p, o));
  }

  lemma {:induction false} AdmitsCall(
    rules: Rules, origin: Option<Origin>, call: RuntimeCall, proxyish: bool, depth: int, used: nat)
    ensures Decides(rules, Scan(rules, Trace(rules, origin, call, proxyish), depth, used), depth, used,
                    NodeCount(call), ContainerDepth(call), AdmissibleTree(rules, call, proxyish, origin))
    decreases call, 1
  {
    var counted := Step(rules, Count, depth, used);
    if counted.verdict.Some? || LocalCheck(rules, origin, call, proxyish).Some? ||
       !(call.IsBatch() || call.IsWrapper()) {
      DecidesLeaf(rules, origin, call, proxyish, depth, used);
    } else if call.IsBatch() {
      AdmitsCalls(rules, origin, call.calls, proxyish, depth + 1, used + 1);
      DecidesBatch(rules, origin, call, proxyish, depth, used);
    } else {
      var o, p := EffectiveOrigin(call, origin), proxyish || call.IsProxyish();
      AdmitsCall(rules, o, call.inner, p, depth + 1, used + 1);
      DecidesWrapper(rules, origin, call, proxyish, depth, used, o, p);
    }
  }

  lemma {:induction false} AdmitsCalls(
    rules: Rules, origin: Option<Origin>, calls: seq<RuntimeCall>, proxyish: bool, depth: int, used: nat)
    ensures Decides(rules, Scan(rules, Traces(rules, origin, calls, proxyish), depth, used), depth, used,
                    NodeCounts(calls), MaxDepth(calls), AdmissibleTrees(rules, calls, proxyish, origin))
    decreases calls, 0
  {
    if calls != [] {
      ScanCons(rules, origin, calls, proxyish, depth, used);
      AdmitsCall(rules, origin, calls[0], proxyish, depth, used);
      AdmitsCalls(rules, origin, calls[1..], proxyish, depth, used + NodeCount(calls[0]));
    }
  }

  /** A successful walk restores the depth, so the next sibling starts where this one did. */
  lemma ScanSibling(
    rules: Rules, origin: Option<Origin>, calls: seq<RuntimeCall>, i: nat, proxyish: bool, depth: int, used: nat)
    requires i < |calls|
    ensures
      var first := Scan(rules, Trace(rules, origin, calls[i], proxyish), depth, used);
      Scan(rules, Traces(rules, origin, calls[i..], proxyish), depth, used) ==
      if first.verdict.Some? then first
      else Scan(rules, Traces(rules, origin, calls[i + 1..], proxyish), depth, first.calls)
  {
    ScanCons(rules, origin, calls[i..], proxyish, depth, used);
    assert calls[i..][1..] == calls[i + 1..];
    AdmitsCall(rules, origin, calls[i], proxyish, depth, used);
  }
}
