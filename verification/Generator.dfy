/** The random call-tree generator, for every outcome of its choices: how tall and how large
    the trees are, and what that means for the differential check that runs on them. */
module Generator {
  import opened Common
  import opened Calls
  import opened Oracle
  import opened AdmissionTheorems

  const GENERATED_TREE_DEPTH: nat := 6
  const GENERATED_CALL_LIMIT: u8 := 24

  function DomainFromByte(value: u8): CallDomain {
    match value % 11
    case 0 => Public
    case 1 => Nobody
    case 2 => Param
    case 3 => Treasury
    case 4 => Code
    case 5 => Meta
    case 6 => ConstitutionalValuesCall
    case 7 => OracleResolutionCall
    case 8 => GuardianHoldCall
    case 9 => EmergencyPlaybookCall
    case _ => InternalRoot
  }

  /** Where a domain stands among the twelve, which is how it is encoded. */
  function Discriminant(domain: CallDomain): nat {
    match domain
    case Public => 0
    case Nobody => 1
    case Param => 2
    case Treasury => 3
    case Code => 4
    case Meta => 5
    case ConstitutionalValuesCall => 6
    case OracleResolutionCall => 7
    case GuardianHoldCall => 8
    case EmergencyPlaybookCall => 9
    case InternalRoot => 10
    case ExternalClient => 11
  }

  /** The generator draws every domain but the client domain of the hosted service. */
  lemma DomainsDrawn(domain: CallDomain)
    ensures (exists value: u8 :: DomainFromByte(value) == domain) <==> !domain.ExternalClient?
    ensures forall value: u8 :: Discriminant(DomainFromByte(value)) == value % 11
  {
    assert DomainFromByte(0) == Public && DomainFromByte(1) == Nobody && DomainFromByte(2) == Param;
    assert DomainFromByte(3) == Treasury && DomainFromByte(4) == Code && DomainFromByte(5) == Meta;
    assert DomainFromByte(6) == ConstitutionalValuesCall && DomainFromByte(7) == OracleResolutionCall;
    assert DomainFromByte(8) == GuardianHoldCall && DomainFromByte(9) == EmergencyPlaybookCall;
    assert DomainFromByte(10) == InternalRoot;
  }

  lemma {:induction false} DepthsAppend(calls: seq<RuntimeCall>, last: RuntimeCall)
    ensures MaxDepth(calls + [last]) == Max(MaxDepth(calls), ContainerDepth(last))
  {
    if calls == [] {
      assert (calls + [last])[1..] == [];
    } else {
      assert (calls + [last])[1..] == calls[1..] + [last];
      DepthsAppend(calls[1..], last);
    }
  }

  lemma CountsSnoc(calls: seq<RuntimeCall>, last: RuntimeCall)
    ensures NodeCounts(calls + [last]) == NodeCounts(calls) + NodeCount(last)
  {
    CountsAppend(calls, [last]);
    assert [last][1..] == [];
  }

  /** One tree. The budget of calls is shared with the caller; once it is spent every further
      child is a public leaf. */
  method ArbitraryCall(depth: nat, remaining: u8) returns (call: RuntimeCall, left: u8)
    requires depth <= GENERATED_TREE_DEPTH
    ensures left <= remaining
    ensures depth + ContainerDepth(call) <= GENERATED_TREE_DEPTH
    ensures NodeCount(call) <= 1 + 4 * (remaining - left)
    decreases GENERATED_TREE_DEPTH - depth, 1
  {
    if remaining == 0 {
      return Leaf(Public), remaining;
    }
    left := remaining - 1;
    var variant: nat :| variant <= 14;
    if depth >= GENERATED_TREE_DEPTH || variant == 0 {
      var value: u8 := *;
      call := Leaf(DomainFromByte(value));
    } else if variant <= 3 {
      var wanted: nat :| wanted <= 4;
      var children;
      children, left := ArbitraryCalls(depth + 1, left, if wanted < left then wanted else left);
      call := if variant == 1 then UtilityBatch(children)
              else if variant == 2 then UtilityBatchAll(children)
              else UtilityForceBatch(children);
    } else if variant == 11 {
      call := MultisigApproveAsMulti;
    } else {
      var inner;
      inner, left := ArbitraryCall(depth + 1, left);
      var captured: Origin := *;
      call := match variant
        case 4 => UtilityDispatchAs(inner)
        case 5 => UtilityAsDerivative(inner)
        case 6 => UtilityWithWeight(inner)
        case 7 => Proxy(inner)
        case 8 => ProxyAnnounced(inner)
        case 9 => MultisigAsMulti(inner)
        case 10 => MultisigAsMultiThreshold1(inner)
        case 12 => Scheduler(captured, inner)
        case _ => Sudo(inner);
    }
  }

  /** Siblings drawing on one budget. */
  method ArbitraryCalls(depth: nat, remaining: u8, count: nat) returns (calls: seq<RuntimeCall>, left: u8)
    requires depth <= GENERATED_TREE_DEPTH
    ensures |calls| == count && left <= remaining
    ensures depth + MaxDepth(calls) <= GENERATED_TREE_DEPTH
    ensures NodeCounts(calls) <= count + 4 * (remaining - left)
    decreases GENERATED_TREE_DEPTH - depth, 2
  {
    calls, left := [], remaining;
    while |calls| < count
      invariant |calls| <= count && left <= remaining
      invariant depth + MaxDepth(calls) <= GENERATED_TREE_DEPTH
      invariant NodeCounts(calls) <= |calls| + 4 * (remaining - left)
    {
      var call;
      call, left := ArbitraryCall(depth, left);
      DepthsAppend(calls, call);
      CountsSnoc(calls, call);
      calls := calls + [call];
    }
  }

  /** One to four roots under one budget of 24: at most 100 nodes, at most 6 levels. */
  method ArbitraryRoots() returns (calls: seq<RuntimeCall>)
    ensures 1 <= |calls| <= 4
    ensures MaxDepth(calls) <= 6
    ensures NodeCounts(calls) <= |calls| + 96
  {
    var roots: nat :| 1 <= roots <= 4;
    var left;
    calls, left := ArbitraryCalls(0, GENERATED_CALL_LIMIT, roots);
  }

  /** On everything the generator makes the count cannot wrap, so the differential check
      compares two forms that agree, on the batch and on each call. */
  lemma GeneratedFormsAgree(rules: Rules, origin: Option<Origin>, calls: seq<RuntimeCall>, i: nat)
    requires NodeCounts(calls) <= 4 + 4 * GENERATED_CALL_LIMIT && i < |calls|
    ensures AdmitsBatch(rules, origin, calls) <==> IndependentBatch(rules, origin, calls)
    ensures Admits(rules, origin, calls[i]) <==> IndependentAdmits(rules, origin, calls[i])
  {
    BatchMatchesIndependent(rules, origin, calls);
    CountsWithout(calls, i);
    OracleMatchesIndependent(rules, origin, calls[i]);
  }
}
