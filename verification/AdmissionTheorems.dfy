/** What the admission verdict promises, over every origin, call tree and batch. */
module AdmissionTheorems {
  import opened Common
  import opened Calls
  import opened CallTrace
  import opened Oracle

  // ---- the walk against the three tree functions ------------------------------

  /** From any budget at all. A call that opens no container never consults the depth. */
  lemma WalkAdmitsExactly(
    rules: Rules, origin: Option<Origin>, call: RuntimeCall, proxyish: bool, depth: u32, used: u32)
    ensures
      var end := Scan(rules, Trace(rules, origin, call, proxyish), depth, used);
      && (end.verdict.None? <==>
          && used + NodeCount(call) <= rules.maxCalls
          && (ContainerDepth(call) == 0 || depth + ContainerDepth(call) <= rules.maxLevels)
          && AdmissibleTree(rules, call, proxyish, origin))
      && (end.verdict.None? ==> end.depth == depth && end.calls == used + NodeCount(call))
  {
    AdmitsCall(rules, origin, call, proxyish, depth, used);
  }

  /** Without the exception the equivalence is false: a leaf passes a budget whose
      depth is already past the limit. */
  lemma ExhaustedDepthAdmitsLeaf(rules: Rules, depth: u32)
    requires rules.maxCalls >= 1 && rules.allowed(Public, None) && depth > rules.maxLevels
    ensures
      var leaf := Leaf(Public);
      && !(depth + ContainerDepth(leaf) <= rules.maxLevels)
      && Scan(rules, Trace(rules, None, leaf, false), depth, 0).verdict.None?
  {
    AdmitsCall(rules, None, Leaf(Public), false, depth, 0);
  }

  /** The verdict is the first failing event of the pre-order trace. */
  lemma {:induction false} VerdictIsFirstFailure(
    rules: Rules, events: seq<Event>, depth: int, used: nat) returns (k: nat)
    requires Scan(rules, events, depth, used).verdict.Some?
    ensures k < |events|
    ensures var before := Scan(rules, events[..k], depth, used);
            && before.verdict.None?
            && Step(rules, events[k], before.depth, before.calls) == Scan(rules, events, depth, used)
  {
    var next := Step(rules, events[0], depth, used);
    if next.verdict.Some? {
      k := 0;
    } else {
      var rest := VerdictIsFirstFailure(rules, events[1..], next.depth, next.calls);
      k := rest + 1;
      assert events[..k][1..] == events[1..][..rest];
    }
  }

  lemma WrapSum(a: nat, b: nat)
    ensures Wrap32(a + b) == Wrap32(Wrap32(a) + Wrap32(b)) == Wrap32(a + Wrap32(b))
  {
  }

  lemma WrapSmall(n: nat)
    ensures n <= U32_MAX ==> Wrap32(n) == n
  {
  }

  lemma {:induction false} WrappingCount(call: RuntimeCall)
    ensures NodeCount32(call) == Wrap32(NodeCount(call))
    decreases call, 1
  {
    if call.IsBatch() {
      WrappingCounts(call.calls);
      WrapSum(1, NodeCounts(call.calls));
    } else if call.HasInner() {
      WrappingCount(call.inner);
      WrapSum(1, NodeCount(call.inner));
    }
  }

  lemma {:induction false} WrappingCounts(calls: seq<RuntimeCall>)
    ensures NodeCounts32(calls) == Wrap32(NodeCounts(calls))
    decreases calls, 0
  {
    if calls != [] {
      WrappingCount(calls[0]);
      WrappingCounts(calls[1..]);
      WrapSum(NodeCount(calls[0]), NodeCounts(calls[1..]));
    }
  }

  lemma AdmitsExactly(rules: Rules, origin: Option<Origin>, call: RuntimeCall)
    ensures Admits(rules, origin, call) <==>
            && NodeCount(call) <= rules.maxCalls
            && ContainerDepth(call) <= rules.maxLevels
            && AdmissibleTree(rules, call, false, origin)
  {
    AdmitsCall(rules, origin, call, false, 0, 0);
  }

  /** The two forms agree unless the wrapped node count hides an oversized tree. */
  lemma OracleMatchesIndependent(rules: Rules, origin: Option<Origin>, call: RuntimeCall)
    ensures Admits(rules, origin, call) <==>
            IndependentAdmits(rules, origin, call) && NodeCount(call) <= U32_MAX
  {
    AdmitsExactly(rules, origin, call);
    WrappingCount(call);
    WrapSmall(NodeCount(call));
  }

  lemma BatchMatchesIndependent(rules: Rules, origin: Option<Origin>, calls: seq<RuntimeCall>)
    ensures AdmitsBatch(rules, origin, calls) <==>
            IndependentBatch(rules, origin, calls) && NodeCounts(calls) <= U32_MAX
  {
    AdmitsCalls(rules, origin, calls, false, 0, 0);
    WrappingCounts(calls);
    WrapSmall(NodeCounts(calls));
  }

  /** The batch verdict in exact arithmetic: summed counts, deepest call, every call admissible. */
  lemma BatchAdmitsExactly(rules: Rules, origin: Option<Origin>, calls: seq<RuntimeCall>)
    ensures AdmitsBatch(rules, origin, calls) <==>
            && NodeCounts(calls) <= rules.maxCalls
            && (forall i | 0 <= i < |calls| :: ContainerDepth(calls[i]) <= rules.maxLevels)
            && (forall i | 0 <= i < |calls| :: AdmissibleTree(rules, calls[i], false, origin))
  {
    AdmitsCalls(rules, origin, calls, false, 0, 0);
    EachFits(rules, calls, origin);
  }

  lemma {:induction false} EachFits(rules: Rules, calls: seq<RuntimeCall>, origin: Option<Origin>)
    ensures MaxDepth(calls) <= rules.maxLevels <==>
            forall i | 0 <= i < |calls| :: ContainerDepth(calls[i]) <= rules.maxLevels
    ensures AdmissibleTrees(rules, calls, false, origin) <==>
            forall i | 0 <= i < |calls| :: AdmissibleTree(rules, calls[i], false, origin)
  {
    if calls != [] {
      EachFits(rules, calls[1..], origin);
      var rest := calls[1..];
      assert forall i | 1 <= i < |calls| :: calls[i] == rest[i - 1];
    }
  }

  /** A batch of 2^32 - 1 public leaves has 2^32 nodes: its wrapped count is 0, so the
      independent form accepts what the walk refuses. */
  lemma WrappedCountAcceptsTooMuch(rules: Rules, leaves: seq<RuntimeCall>)
    requires |leaves| == U32_MAX && (forall i | 0 <= i < |leaves| :: leaves[i] == Leaf(Public))
    requires rules.maxLevels >= 1 && rules.allowed(Public, None) && !rules.privileged(Public)
    ensures IndependentAdmits(rules, None, UtilityBatch(leaves))
    ensures !Admits(rules, None, UtilityBatch(leaves))
  {
    var wide := UtilityBatch(leaves);
    PublicLeaves(rules, leaves);
    WrappingCount(wide);
    OracleMatchesIndependent(rules, None, wide);
  }

  lemma {:induction false} PublicLeaves(rules: Rules, leaves: seq<RuntimeCall>)
    requires forall i | 0 <= i < |leaves| :: leaves[i] == Leaf(Public)
    requires rules.allowed(Public, None) && !rules.privileged(Public)
    ensures NodeCounts(leaves) == |leaves| && MaxDepth(leaves) == 0 && AdmissibleTrees(rules, leaves, false, None)
  {
    if leaves != [] {
      PublicLeaves(rules, leaves[1..]);
    }
  }

  // ---- calls accepted with no origin ------------------------------------------

  /** What the hand-written truth table pins about the two `CallDomain` methods. */
  ghost predicate Pinned(rules: Rules) {
    && !rules.privileged(Public)
    && (forall origin :: rules.allowed(Public, origin))
    && (forall domain :: rules.privileged(domain) ==> !rules.allowed(domain, None))
  }

  lemma AcceptedWithoutOriginIsSafe(rules: Rules, call: RuntimeCall)
    requires Pinned(rules) && Admits(rules, None, call)
    ensures !ContainsNobody(call)
    ensures !ContainsUnscopedPrivileged(rules, call, false)
    ensures !ContainsProxiedPrivileged(rules, call, false)
  {
    AdmitsExactly(rules, None, call);
    AdmissibleIsSafe(rules, call, None, false, false);
  }

  /** The shipped tables are as pinned: no privileged domain without an origin, the two unprivileged
      ones that need none, and the client domain beyond the reach of every governance origin. */
  lemma ProductionIsPinned()
    ensures Pinned(PRODUCTION)
    ensures forall domain: CallDomain :: domain.AllowedFor(None) <==> domain.Public? || domain.ExternalClient?
    ensures forall origin: Origin :: !ExternalClient.AllowedFor(Some(origin))
  {
    assert forall domain: CallDomain :: PRODUCTION.privileged(domain) ==> !PRODUCTION.allowed(domain, None);
  }

  /** What the runtime accepts with no origin is safe, with nothing assumed of the tables. */
  lemma ProductionAcceptsOnlySafe(call: RuntimeCall)
    requires Admits(PRODUCTION, None, call)
    ensures !ContainsNobody(call)
    ensures !ContainsUnscopedPrivileged(PRODUCTION, call, false)
    ensures !ContainsProxiedPrivileged(PRODUCTION, call, false)
  {
    ProductionIsPinned();
    AcceptedWithoutOriginIsSafe(PRODUCTION, call);
  }

  lemma {:induction false} AdmissibleIsSafe(
    rules: Rules, call: RuntimeCall, origin: Option<Origin>, proxyish: bool, underScheduler: bool)
    requires Pinned(rules) && AdmissibleTree(rules, call, proxyish, origin)
    requires origin.None? || underScheduler
    ensures !ContainsNobody(call)
    ensures !ContainsUnscopedPrivileged(rules, call, underScheduler)
    ensures !ContainsProxiedPrivileged(rules, call, proxyish)
    decreases call, 1
  {
    if call.IsBatch() {
      AdmissiblesAreSafe(rules, call.calls, origin, proxyish, underScheduler);
    } else if call.IsWrapper() {
      AdmissibleIsSafe(rules, call.inner, EffectiveOrigin(call, origin),
                       proxyish || call.IsProxyish(), underScheduler || call.Scheduler?);
    }
  }

  lemma {:induction false} AdmissiblesAreSafe(
    rules: Rules, calls: seq<RuntimeCall>, origin: Option<Origin>, proxyish: bool, underScheduler: bool)
    requires Pinned(rules) && AdmissibleTrees(rules, calls, proxyish, origin)
    requires origin.None? || underScheduler
    ensures !AnyNobody(calls)
    ensures !AnyUnscopedPrivileged(rules, calls, underScheduler)
    ensures !AnyProxiedPrivileged(rules, calls, proxyish)
    decreases calls, 0
  {
    if calls != [] {
      AdmissibleIsSafe(rules, calls[0], origin, proxyish, underScheduler);
      AdmissiblesAreSafe(rules, calls[1..], origin, proxyish, underScheduler);
    }
  }

  // ---- batches ----------------------------------------------------------------

  lemma {:induction false} CountsAppend(a: seq<RuntimeCall>, b: seq<RuntimeCall>)
    ensures NodeCounts(a + b) == NodeCounts(a) + NodeCounts(b)
  {
    if a == [] {
      assert a + b == b;
    } else {
      assert (a + b)[1..] == a[1..] + b;
      CountsAppend(a[1..], b);
    }
  }

  lemma CountsWithout(calls: seq<RuntimeCall>, i: nat)
    requires i < |calls|
    ensures NodeCounts(calls) == NodeCount(calls[i]) + NodeCounts(calls[..i] + calls[i + 1..])
  {
    assert calls == calls[..i] + calls[i..];
    assert calls[i..][1..] == calls[i + 1..];
    CountsAppend(calls[..i], calls[i..]);
    CountsAppend(calls[..i], calls[i + 1..]);
  }

  lemma MultisetWithout<T>(s: seq<T>, i: nat)
    requires i < |s|
    ensures multiset(s[..i] + s[i + 1..]) == multiset(s) - multiset{s[i]}
  {
    assert s == s[..i] + ([s[i]] + s[i + 1..]);
  }

  /** Matching the head of one permutation in the other leaves two permutations. */
  lemma TailsPermute<T>(a: seq<T>, b: seq<T>) returns (i: nat)
    requires multiset(a) == multiset(b) && a != []
    ensures i < |b| && b[i] == a[0] && multiset(a[1..]) == multiset(b[..i] + b[i + 1..])
  {
    assert a[0] in multiset(b);
    i :| 0 <= i < |b| && b[i] == a[0];
    MultisetWithout(a, 0);
    MultisetWithout(b, i);
    assert a[..0] + a[1..] == a[1..];
  }

  lemma {:induction false} CountsPermute(a: seq<RuntimeCall>, b: seq<RuntimeCall>)
    requires multiset(a) == multiset(b)
    ensures NodeCounts(a) == NodeCounts(b)
  {
    if a == [] {
      assert |multiset(b)| == 0;
    } else {
      var i := TailsPermute(a, b);
      CountsPermute(a[1..], b[..i] + b[i + 1..]);
      CountsWithout(b, i);
      assert NodeCounts(a) == NodeCount(a[0]) + NodeCounts(a[1..]);
    }
  }

  /** The verdict on a payload does not depend on the order of its calls. */
  lemma BatchVerdictPermutes(rules: Rules, origin: Option<Origin>, a: seq<RuntimeCall>, b: seq<RuntimeCall>)
    requires multiset(a) == multiset(b)
    ensures AdmitsBatch(rules, origin, a) == AdmitsBatch(rules, origin, b)
  {
    CountsPermute(a, b);
    BatchAdmitsExactly(rules, origin, a);
    BatchAdmitsExactly(rules, origin, b);
    forall i | 0 <= i < |a| ensures a[i] in b { assert a[i] in multiset(a); }
    forall i | 0 <= i < |b| ensures b[i] in a { assert b[i] in multiset(b); }
  }

  /** Wrapping costs one node and one level, so a wrapped batch is accepted only if the
      payload is, and with exactly that much room to spare. */
  lemma WrappedBatchAdmits(rules: Rules, origin: Option<Origin>, calls: seq<RuntimeCall>)
    ensures Admits(rules, origin, UtilityBatch(calls)) <==>
            && AdmitsBatch(rules, origin, calls)
            && NodeCounts(calls) < rules.maxCalls
            && MaxDepth(calls) < rules.maxLevels
  {
    AdmitsCall(rules, origin, UtilityBatch(calls), false, 0, 0);
    AdmitsCalls(rules, origin, calls, false, 0, 0);
  }

  lemma BatchAdmitsMembers(rules: Rules, origin: Option<Origin>, calls: seq<RuntimeCall>, member: RuntimeCall)
    requires AdmitsBatch(rules, origin, calls) && member in calls
    ensures Admits(rules, origin, member)
  {
    BatchAdmitsExactly(rules, origin, calls);
    var i :| 0 <= i < |calls| && calls[i] == member;
    CountsWithout(calls, i);
    AdmitsExactly(rules, origin, member);
  }
}
