/** The walk itself, over one mutable budget, and what its verdict means. */
module Oracle {
  import opened Common
  import opened Calls
  import opened CallTrace

  class OracleBudget {
    const rules: Rules
    var depth: u32
    var calls: u32

    constructor (rules: Rules)
      ensures this.rules == rules && depth == 0 && calls == 0
    {
      this.rules, depth, calls := rules, 0, 0;
    }

    method Count() returns (error: Option<OracleError>)
      modifies this`calls
      ensures Progress(error, depth, calls) == Step(rules, Event.Count, old(depth), old(calls))
    {
      if calls == U32_MAX {
        return Some(TooManyCalls);
      }
      calls := calls + 1;
      error := if calls > rules.maxCalls then Some(TooManyCalls) else None;
    }

    /** On failure the depth stays one too high, unless it was already saturated. */
    method Enter() returns (error: Option<OracleError>)
      modifies this`depth
      ensures Progress(error, depth, calls) == Step(rules, Event.Enter, old(depth), old(calls))
    {
      if depth == U32_MAX {
        return Some(TooDeep);
      }
      depth := depth + 1;
      error := if depth > rules.maxLevels then Some(TooDeep) else None;
    }

    method Leave()
      requires depth >= 1
      modifies this`depth
      ensures depth == old(depth) - 1
    {
      depth := depth - 1;
    }
  }

  /** The depth a walk leaves behind: restored, except that the failing `enter` is never undone. */
  function DepthAfter(rules: Rules, verdict: Option<OracleError>, depth: u32): u32 {
    if verdict == Some(TooDeep) && depth < U32_MAX && rules.maxLevels < U32_MAX then depth + 1 else depth
  }

  method OracleWalk(origin: Option<Origin>, call: RuntimeCall, budget: OracleBudget, inProxyishWrapper: bool)
    returns (error: Option<OracleError>)
    modifies budget
    ensures var end := Scan(budget.rules, Trace(budget.rules, origin, call, inProxyishWrapper),
                            old(budget.depth), old(budget.calls));
            && error == end.verdict
            && budget.calls == end.calls
            && budget.depth == DepthAfter(budget.rules, error, old(budget.depth))
    decreases call, 2
  {
    ScanNode(budget.rules, origin, call, inProxyishWrapper, budget.depth, budget.calls);
    error := budget.Count();
    if error.Some? {
      return;
    }
    if call.Leaf? {
      if call.domain.Nobody? {
        error := Some(NobodyCall);
      } else if budget.rules.privileged(call.domain) && inProxyishWrapper {
        error := Some(PrivilegedWrapper);
      } else if !budget.rules.allowed(call.domain, origin) {
        error := Some(BadOrigin);
      }
    } else if call.IsBatch() {
      error := OracleMany(origin, call.calls, budget, inProxyishWrapper);
    } else if call.UtilityWithWeight? || call.Sudo? {
      error := OracleWrapped(origin, call.inner, budget, inProxyishWrapper);
    } else if call.IsProxyish() {
      error := OracleWrapped(origin, call.inner, budget, true);
    } else if call.IsDenied() {
      error := Some(DispatchAsDenied);
    } else if call.Scheduler? {
      if !ValuesOrigin(call.captured) {
        return Some(SchedulerDenied);
      }
      error := OracleWrapped(Some(call.captured), call.inner, budget, inProxyishWrapper);
    }
  }

  /** Siblings in order, up to the first error. */
  method OracleSiblings(origin: Option<Origin>, calls: seq<RuntimeCall>, budget: OracleBudget, inProxyishWrapper: bool)
    returns (error: Option<OracleError>)
    modifies budget
    ensures var end := Scan(budget.rules, Traces(budget.rules, origin, calls, inProxyishWrapper),
                            old(budget.depth), old(budget.calls));
            && error == end.verdict
            && budget.calls == end.calls
            && budget.depth == DepthAfter(budget.rules, error, old(budget.depth))
    decreases calls, 0
  {
    error := None;
    var i := 0;
    while i < |calls|
      invariant 0 <= i <= |calls| && error == None
      invariant budget.depth == old(budget.depth)
      invariant Scan(budget.rules, Traces(budget.rules, origin, calls, inProxyishWrapper),
                     old(budget.depth), old(budget.calls)) ==
                Scan(budget.rules, Traces(budget.rules, origin, calls[i..], inProxyishWrapper),
                     budget.depth, budget.calls)
    {
      ScanSibling(budget.rules, origin, calls, i, inProxyishWrapper, budget.depth, budget.calls);
      error := OracleWalk(origin, calls[i], budget, inProxyishWrapper);
      if error.Some? {
        return;
      }
      i := i + 1;
    }
  }

  /** The level is left on both exits. */
  method OracleMany(origin: Option<Origin>, calls: seq<RuntimeCall>, budget: OracleBudget, inProxyishWrapper: bool)
    returns (error: Option<OracleError>)
    modifies budget
    ensures var end := ScanBracket(budget.rules, Traces(budget.rules, origin, calls, inProxyishWrapper),
                                   old(budget.depth), old(budget.calls));
            && error == end.verdict
            && budget.calls == end.calls
            && budget.depth == DepthAfter(budget.rules, error, old(budget.depth))
    decreases calls, 1
  {
    error := budget.Enter();
    if error.Some? {
      return;
    }
    AdmitsCalls(budget.rules, origin, calls, inProxyishWrapper, budget.depth, budget.calls);
    error := OracleSiblings(origin, calls, budget, inProxyishWrapper);
    budget.Leave();
  }

  method OracleWrapped(origin: Option<Origin>, call: RuntimeCall, budget: OracleBudget, inProxyishWrapper: bool)
    returns (error: Option<OracleError>)
    modifies budget
    ensures var end := ScanBracket(budget.rules, Trace(budget.rules, origin, call, inProxyishWrapper),
                                   old(budget.depth), old(budget.calls));
            && error == end.verdict
            && budget.calls == end.calls
            && budget.depth == DepthAfter(budget.rules, error, old(budget.depth))
    decreases call, 3
  {
    error := budget.Enter();
    if error.Some? {
      return;
    }
    AdmitsCall(budget.rules, origin, call, inProxyishWrapper, budget.depth, budget.calls);
    error := OracleWalk(origin, call, budget, inProxyishWrapper);
    budget.Leave();
  }

  // ---- the two entry points ---------------------------------------------------

  function Validation(rules: Rules, origin: Option<Origin>, call: RuntimeCall): Option<OracleError> {
    Scan(rules, Trace(rules, origin, call, false), 0, 0).verdict
  }

  function BatchValidation(rules: Rules, origin: Option<Origin>, calls: seq<RuntimeCall>): Option<OracleError> {
    Scan(rules, Traces(rules, origin, calls, false), 0, 0).verdict
  }

  predicate Admits(rules: Rules, origin: Option<Origin>, call: RuntimeCall) {
    Validation(rules, origin, call).None?
  }

  predicate AdmitsBatch(rules: Rules, origin: Option<Origin>, calls: seq<RuntimeCall>) {
    BatchValidation(rules, origin, calls).None?
  }

  method OracleValidate(rules: Rules, origin: Option<Origin>, call: RuntimeCall) returns (error: Option<OracleError>)
    ensures error == Validation(rules, origin, call)
  {
    var budget := new OracleBudget(rules);
    error := OracleWalk(origin, call, budget, false);
  }

  method OracleValidateBatch(rules: Rules, origin: Option<Origin>, calls: seq<RuntimeCall>)
    returns (error: Option<OracleError>)
    ensures error == BatchValidation(rules, origin, calls)
  {
    var budget := new OracleBudget(rules);
    error := OracleSiblings(origin, calls, budget, false);
  }
}
