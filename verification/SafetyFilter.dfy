/** The filter the runtime ships, which the walk is checked against. It differs from the walk in its
    budget: a batch that fails does not leave its level, and leaving saturates at zero. */
module SafetyFilter {
  import opened Common
  import opened Calls
  import opened CallTrace
  import opened Oracle
  import opened AdmissionTheorems

  class Budget {
    const rules: Rules
    var depth: u32
    var calls: u32

    constructor (rules: Rules)
      ensures this.rules == rules && depth == 0 && calls == 0
    {
      this.rules, depth, calls := rules, 0, 0;
    }

    method Enter() returns (error: Option<OracleError>)
      modifies this`depth
      ensures Progress(error, depth, calls) == Step(rules, Event.Enter, old(depth), old(calls))
    {
      if depth == U32_MAX {
        return Some(TooDeep);
      }
      depth := depth + 1;
      error := if depth > rules.maxLevels then Some(TooDeep) else None;
    }

    method Leave()
      modifies this`depth
      ensures depth == if old(depth) > 0 then old(depth) - 1 else 0
    {
      if depth > 0 {
        depth := depth - 1;
      }
    }

    method CountCall() returns (error: Option<OracleError>)
      modifies this`calls
      ensures Progress(error, depth, calls) == Step(rules, Event.Count, old(depth), old(calls))
    {
      if calls == U32_MAX {
        return Some(TooManyCalls);
      }
      calls := calls + 1;
      error := if calls > rules.maxCalls then Some(TooManyCalls) else None;
    }
  }

  /** A stretch of the filter ends as a scan of its trace. If it is accepted the depth is as it was; if
      it is refused levels may stay open, but never fewer than there were, so that the `Leave` of an
      enclosing wrapper does not saturate. */
  predicate Follows(end: Progress, error: Option<OracleError>, before: u32, depth: u32, calls: u32) {
    error == end.verdict && calls == end.calls && depth >= before && (error.None? ==> depth == before)
  }

  function ValidateLeaf(rules: Rules, origin: Option<Origin>, domain: CallDomain, inProxyishWrapper: bool)
    : Option<OracleError>
  {
    if domain.Nobody? then Some(NobodyCall)
    else if rules.privileged(domain) && inProxyishWrapper then Some(PrivilegedWrapper)
    else if rules.allowed(domain, origin) then None
    else Some(BadOrigin)
  }

  method ValidateInner(origin: Option<Origin>, call: RuntimeCall, budget: Budget, inProxyishWrapper: bool)
    returns (error: Option<OracleError>)
    modifies budget
    ensures var end := Scan(budget.rules, Trace(budget.rules, origin, call, inProxyishWrapper),
                            old(budget.depth), old(budget.calls));
            Follows(end, error, old(budget.depth), budget.depth, budget.calls)
    decreases call, 2
  {
    ScanNode(budget.rules, origin, call, inProxyishWrapper, budget.depth, budget.calls);
    error := budget.CountCall();
    if error.Some? {
      return;
    }
    if call.Leaf? {
      error := ValidateLeaf(budget.rules, origin, call.domain, inProxyishWrapper);
    } else if call.IsBatch() {
      error := ValidateMany(origin, call.calls, budget, inProxyishWrapper);
    } else if call.UtilityWithWeight? || call.Sudo? {
      error := ValidateWrapped(origin, call.inner, budget, inProxyishWrapper);
    } else if call.IsProxyish() {
      error := ValidateWrapped(origin, call.inner, budget, true);
    } else if call.IsDenied() {
      error := Some(DispatchAsDenied);
    } else if call.Scheduler? {
      if !ValuesOrigin(call.captured) {
        return Some(SchedulerDenied);
      }
      error := ValidateWrapped(Some(call.captured), call.inner, budget, inProxyishWrapper);
    }
  }

  /** The loop over siblings, stopping at the first error. */
  method ValidateSiblings(origin: Option<Origin>, calls: seq<RuntimeCall>, budget: Budget, inProxyishWrapper: bool)
    returns (error: Option<OracleError>)
    modifies budget
    ensures var end := Scan(budget.rules, Traces(budget.rules, origin, calls, inProxyishWrapper),
                            old(budget.depth), old(budget.calls));
            Follows(end, error, old(budget.depth), budget.depth, budget.calls)
    decreases calls, 0
  {
    error := None;
    var i := 0;
    while i < |calls|
      invariant 0 <= i <= |calls| && error == None
      invariant budget.depth == old(budget.depth)
      invariant Scan(budget.rules, Traces(budget.rules, origin, calls, inProxyishWrapper),
                     old(budget.depth), old(budget.calls)) ==
                Scan(budget.rules, Traces(budget.rules, origin, calls[i..], inProxyishWrapper),
                     budget.depth, budget.calls)
    {
      ScanSibling(budget.rules, origin, calls, i, inProxyishWrapper, budget.depth, budget.calls);
      error := ValidateInner(origin, calls[i], budget, inProxyishWrapper);
      if error.Some? {
        return;
      }
      i := i + 1;
    }
  }

  method ValidateMany(origin: Option<Origin>, calls: seq<RuntimeCall>, budget: Budget, inProxyishWrapper: bool)
    returns (error: Option<OracleError>)
    modifies budget
    ensures var end := ScanBracket(budget.rules, Traces(budget.rules, origin, calls, inProxyishWrapper),
                                   old(budget.depth), old(budget.calls));
            Follows(end, error, old(budget.depth), budget.depth, budget.calls)
    decreases calls, 1
  {
    error := budget.Enter();
    if error.Some? {
      return;
    }
    AdmitsCalls(budget.rules, origin, calls, inProxyishWrapper, budget.depth, budget.calls);
    error := ValidateSiblings(origin, calls, budget, inProxyishWrapper);
    if error.None? {
      budget.Leave();
    }
  }

  method ValidateWrapped(origin: Option<Origin>, call: RuntimeCall, budget: Budget, inProxyishWrapper: bool)
    returns (error: Option<OracleError>)
    modifies budget
    ensures var end := ScanBracket(budget.rules, Trace(budget.rules, origin, call, inProxyishWrapper),
                                   old(budget.depth), old(budget.calls));
            Follows(end, error, old(budget.depth), budget.depth, budget.calls)
    decreases call, 3
  {
    error := budget.Enter();
    if error.Some? {
      return;
    }
    AdmitsCall(budget.rules, origin, call, inProxyishWrapper, budget.depth, budget.calls);
    error := ValidateInner(origin, call, budget, inProxyishWrapper);
    budget.Leave();
  }

  /** The same verdict and the same error as the walk, for every origin and call tree. */
  method Validate(rules: Rules, origin: Option<Origin>, call: RuntimeCall) returns (error: Option<OracleError>)
    ensures error == Validation(rules, origin, call)
  {
    var budget := new Budget(rules);
    error := ValidateInner(origin, call, budget, false);
  }

  /** The same verdict and the same error as the shared-budget walk, for every payload. */
  method ValidateBatch(rules: Rules, origin: Option<Origin>, calls: seq<RuntimeCall>)
    returns (error: Option<OracleError>)
    ensures error == BatchValidation(rules, origin, calls)
  {
    var budget := new Budget(rules);
    error := ValidateSiblings(origin, calls, budget, false);
  }

  // ---- what the differential check asserts of one case ---------------------------

  /** The filter, the walk and the independent form on one payload, as the harness compares them.
      `agreed` is the harness's whole set of assertions. */
  method AssertWrapperCase(rules: Rules, origin: Option<Origin>, calls: seq<RuntimeCall>) returns (agreed: bool)
    requires Pinned(rules)
    ensures agreed <==> && (IndependentBatch(rules, origin, calls) ==> NodeCounts(calls) <= U32_MAX)
                        && forall i | 0 <= i < |calls| ::
                             IndependentAdmits(rules, origin, calls[i]) ==> NodeCount(calls[i]) <= U32_MAX
  {
    agreed := true;
    for i := 0 to |calls|
      invariant agreed <==> forall j | 0 <= j < i ::
                  IndependentAdmits(rules, origin, calls[j]) ==> NodeCount(calls[j]) <= U32_MAX
    {
      OracleMatchesIndependent(rules, origin, calls[i]);
      var filter := Validate(rules, origin, calls[i]);
      var oracle := OracleValidate(rules, origin, calls[i]);
      var independent := IndependentAdmits(rules, origin, calls[i]);
      agreed := agreed && filter == oracle && filter.None? == independent;
      var unscoped := Validate(rules, None, calls[i]);
      if unscoped.None? {
        AcceptedWithoutOriginIsSafe(rules, calls[i]);
        agreed := agreed && !ContainsNobody(calls[i]) && !ContainsUnscopedPrivileged(rules, calls[i], false);
      }
    }
    BatchMatchesIndependent(rules, origin, calls);
    var batch := ValidateBatch(rules, origin, calls);
    var walk := OracleValidateBatch(rules, origin, calls);
    var independent := IndependentBatch(rules, origin, calls);
    agreed := agreed && batch.None? == walk.None? == independent;
  }
}
