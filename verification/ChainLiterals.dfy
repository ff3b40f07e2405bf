/** The no-hardcoded-chain-value scan: constant folding inside a pruning traversal of a
    syntax tree. */
module ChainLiterals {
  import opened Common
  import opened LiteralText

  // ---- syntax trees ------------------------------------------------------------------------

  datatype Operator = ShiftLeft | Power | Times | Plus | OtherOperator

  /** A node and the line it starts on. A literal carries its text. A binding
      has a name only when that name is a plain identifier. */
  datatype Node =
    | Literal(text: string, line: nat)
    | Parenthesized(inner: Node, line: nat)
    | Prefix(isPlus: bool, inner: Node, line: nat)
    | Binary(op: Operator, left: Node, right: Node, line: nat)
    | Binding(name: Option<string>, initializer: Option<Node>, others: seq<Node>, line: nat)
    | Other(children: seq<Node>, line: nat)

  // ---- constant folding ----------------------------------------------------------------------

  function Pow(base: nat, exponent: nat): nat {
    if exponent == 0 then 1 else base * Pow(base, exponent - 1)
  }

  function Product(a: nat, b: nat): (product: nat)
    ensures product == a * b
  {
    a * b
  }

  /** Powers add up in the exponent, from the base itself. */
  lemma {:induction false} PowerLaws(base: nat, m: nat, n: nat)
    ensures Pow(base, 0) == 1 && Pow(base, 1) == base
    ensures Pow(base, m + n) == Pow(base, m) * Pow(base, n)
  {
    assert Pow(base, 1) == base * Pow(base, 0);
    if m > 0 {
      PowerLaws(base, m - 1, n);
      assert Pow(base, m + n) == base * Pow(base, m - 1 + n);
      assert base * (Pow(base, m - 1) * Pow(base, n)) == base * Pow(base, m - 1) * Pow(base, n);
    }
  }

  function FoldConstant(node: Node): Option<nat> {
    match node
    case Literal(text, _) => LiteralValue(text)
    case Parenthesized(inner, _) => FoldConstant(inner)
    case Prefix(isPlus, inner, _) => if isPlus then FoldConstant(inner) else None
    case Binary(op, left, right, _) =>
      var l, r := FoldConstant(left), FoldConstant(right);
      if l.None? || r.None? then None
      else (match op
            case ShiftLeft => if r.value < 1024 then Some(Product(l.value, Pow(2, r.value))) else None
            case Power => if r.value < 1024 then Some(Pow(l.value, r.value)) else None
            case Times => Some(Product(l.value, r.value))
            case Plus => Some(l.value + r.value)
            case OtherOperator => None)
    case Binding(_, _, _, _) => None
    case Other(_, _) => None
  }

  /** Literals joined by parentheses, unary plus and the four arithmetic operators. */
  predicate Arithmetic(node: Node) {
    match node
    case Literal(text, _) => LiteralValue(text).Some?
    case Parenthesized(inner, _) => Arithmetic(inner)
    case Prefix(isPlus, inner, _) => isPlus && Arithmetic(inner)
    case Binary(op, left, right, _) => !op.OtherOperator? && Arithmetic(left) && Arithmetic(right)
    case Binding(_, _, _, _) => false
    case Other(_, _) => false
  }

  /** Exact integer value, with no bound on exponents. */
  function Value(node: Node): nat
    requires Arithmetic(node)
  {
    match node
    case Literal(text, _) => LiteralValue(text).value
    case Parenthesized(inner, _) => Value(inner)
    case Prefix(_, inner, _) => Value(inner)
    case Binary(op, left, right, _) =>
      var l, r := Value(left), Value(right);
      if op.ShiftLeft? then Product(l, Pow(2, r))
      else if op.Power? then Pow(l, r)
      else if op.Times? then Product(l, r)
      else l + r
  }

  /** Every shift and power has a right operand below 1024. */
  predicate SmallExponents(node: Node)
    requires Arithmetic(node)
  {
    match node
    case Literal(_, _) => true
    case Parenthesized(inner, _) => SmallExponents(inner)
    case Prefix(_, inner, _) => SmallExponents(inner)
    case Binary(op, left, right, _) =>
      SmallExponents(left) && SmallExponents(right) && (op.ShiftLeft? || op.Power? ==> Value(right) < 1024)
  }

  /** Folding answers exactly on small-exponent arithmetic, and its answer is exact. */
  lemma {:induction false} FoldIsExact(node: Node)
    ensures FoldConstant(node).Some? <==> Arithmetic(node) && SmallExponents(node)
    ensures FoldConstant(node).Some? ==> FoldConstant(node).value == Value(node)
  {
    match node
    case Literal(_, _) =>
    case Parenthesized(inner, _) => FoldIsExact(inner);
    case Prefix(_, inner, _) => FoldIsExact(inner);
    case Binary(_, left, right, _) =>
      FoldIsExact(left);
      FoldIsExact(right);
    case Binding(_, _, _, _) =>
    case Other(_, _) =>
  }

  // ---- what the scan looks for ------------------------------------------------------------------

  datatype FrozenConstant = FrozenConstant(pallet: string, name: string, values: seq<nat>)

  datatype Group = Group(files: seq<string>, values: seq<nat>, constants: seq<string>)

  datatype Rule = A | B

  datatype Finding = Finding(rule: Rule, file: string, line: nat, constant: FrozenConstant, folded: nat)

  /** The two lookup tables and the classification. */
  datatype Context = Context(
    byName: map<string, FrozenConstant>, distinctive: map<nat, FrozenConstant>, groups: seq<Group>)

  predicate IsDistinctive(value: nat) {
    value >= 1000 && value !in {1000, 1024, 2048, 4096}
  }

  /** Letters in lower case and digits; nothing else. */
  function NormaliseChar(c: char): string {
    if 'A' <= c <= 'Z' then [(c as int - 'A' as int + 'a' as int) as char]
    else if 'a' <= c <= 'z' || '0' <= c <= '9' then [c]
    else ""
  }

  function Normalise(name: string): string {
    if name == "" then "" else NormaliseChar(name[0]) + Normalise(name[1..])
  }

  lemma {:induction false} NormaliseAppend(a: string, b: string)
    ensures Normalise(a + b) == Normalise(a) + Normalise(b)
  {
    if a == "" {
      assert a + b == b;
    } else {
      NormaliseAppend(a[1..], b);
      assert (a + b)[0] == a[0] && (a + b)[1..] == a[1..] + b;
      Joined(NormaliseChar(a[0]), Normalise(a[1..]), Normalise(b));
    }
  }

  /** Upper-case letters are lowered, lower-case letters and digits kept, everything else dropped. */
  lemma NormaliseSnoc(name: string, c: char)
    ensures Normalise("") == ""
    ensures Normalise(name + [c]) == Normalise(name) +
            if 'a' <= c <= 'z' || '0' <= c <= '9' then [c]
            else if 'A' <= c <= 'Z' then [(c as int + 32) as char]
            else ""
  {
    NormaliseAppend(name, [c]);
    assert [c][1..] == "" && NormaliseChar(c) + "" == NormaliseChar(c);
  }

  /** A prefix covers itself and what lies below it, never a name that merely starts with it. */
  predicate Covers(prefix: string, path: string) {
    path == prefix || (if prefix != "" && prefix[|prefix| - 1] == '/' then prefix else prefix + "/") <= path
  }

  /** `admission.ts` does not cover `admission.tsx`: below a prefix comes a path separator. */
  lemma CoversAtBoundary(prefix: string, path: string)
    ensures Covers(prefix, path) <==>
            || path == prefix
            || (|prefix| < |path| && path[..|prefix|] == prefix && path[|prefix|] == '/')
            || (prefix != "" && prefix <= path && prefix[|prefix| - 1] == '/')
  {
    if |prefix| < |path| {
      assert path[..|prefix| + 1] == path[..|prefix|] + [path[|prefix|]];
      assert prefix + "/" <= path <==> path[..|prefix| + 1] == prefix + "/";
    }
  }

  predicate Scoped(group: Group, path: string) {
    exists i | 0 <= i < |group.files| :: Covers(group.files[i], path)
  }

  predicate ClassifiedValue(ctx: Context, path: string, value: nat) {
    exists i | 0 <= i < |ctx.groups| :: Scoped(ctx.groups[i], path) && value in ctx.groups[i].values
  }

  predicate ClassifiedName(ctx: Context, path: string, name: string) {
    exists i | 0 <= i < |ctx.groups| :: Scoped(ctx.groups[i], path) && name in ctx.groups[i].constants
  }

  /** Rule A at one node: a frozen constant's name bound to a foldable number. */
  function RuleA(ctx: Context, file: string, node: Node): Option<Finding> {
    if !node.Binding? || node.name.None? || node.initializer.None? then None
    else
      var key := Normalise(node.name.value);
      var folded := FoldConstant(node.initializer.value);
      if key !in ctx.byName || folded.None? then None
      else if ClassifiedName(ctx, file, ctx.byName[key].name) then None
      else Some(Finding(A, file, node.line, ctx.byName[key], folded.value))
  }

  /** Rule B at one node: a distinctive frozen value, however it is spelled. */
  function RuleB(ctx: Context, file: string, node: Node): Option<Finding> {
    if !(node.Literal? || node.Binary?) then None
    else
      var folded := FoldConstant(node);
      if folded.None? || folded.value !in ctx.distinctive then None
      else if ClassifiedValue(ctx, file, folded.value) then None
      else Some(Finding(B, file, node.line, ctx.distinctive[folded.value], folded.value))
  }

  function Listed(finding: Option<Finding>): seq<Finding> {
    match finding
    case None => []
    case Some(f) => [f]
  }

  /** What visiting a node reports; a rule B report prunes everything below it. */
  function Visited(ctx: Context, file: string, node: Node): seq<Finding>
    decreases node, 1
  {
    Listed(RuleA(ctx, file, node)) +
    if RuleB(ctx, file, node).Some? then Listed(RuleB(ctx, file, node)) else VisitedBelow(ctx, file, node)
  }

  function VisitedBelow(ctx: Context, file: string, node: Node): seq<Finding>
    decreases node, 0
  {
    match node
    case Literal(_, _) => []
    case Parenthesized(inner, _) => Visited(ctx, file, inner)
    case Prefix(_, inner, _) => Visited(ctx, file, inner)
    case Binary(_, left, right, _) => Visited(ctx, file, left) + Visited(ctx, file, right)
    case Binding(_, initializer, others, _) =>
      VisitedAll(ctx, file, others) +
      (match initializer case None => [] case Some(init) => Visited(ctx, file, init))
    case Other(children, _) => VisitedAll(ctx, file, children)
  }

  function VisitedAll(ctx: Context, file: string, nodes: seq<Node>): seq<Finding>
    decreases nodes, 0
  {
    if nodes == [] then [] else Visited(ctx, file, nodes[0]) + VisitedAll(ctx, file, nodes[1..])
  }

  // ---- occurrences ------------------------------------------------------------------------------

  /** `node` occurs in `root`, itself included. */
  predicate Within(node: Node, root: Node)
    decreases root, 1
  {
    node == root ||
    match root
    case Literal(_, _) => false
    case Parenthesized(inner, _) => Within(node, inner)
    case Prefix(_, inner, _) => Within(node, inner)
    case Binary(_, left, right, _) => Within(node, left) || Within(node, right)
    case Binding(_, initializer, others, _) =>
      WithinAny(node, others) || (match initializer case None => false case Some(init) => Within(node, init))
    case Other(children, _) => WithinAny(node, children)
  }

  predicate WithinAny(node: Node, roots: seq<Node>)
    decreases roots, 0
  {
    roots != [] && (Within(node, roots[0]) || WithinAny(node, roots[1..]))
  }

  lemma {:induction false} WithinTrans(a: Node, b: Node, c: Node)
    requires Within(a, b) && Within(b, c)
    ensures Within(a, c)
    decreases c, 1
  {
    if b != c {
      match c
      case Literal(_, _) =>
      case Parenthesized(inner, _) => WithinTrans(a, b, inner);
      case Prefix(_, inner, _) => WithinTrans(a, b, inner);
      case Binary(_, left, right, _) =>
        if Within(b, left) {
          WithinTrans(a, b, left);
        } else {
          WithinTrans(a, b, right);
        }
      case Binding(_, initializer, others, _) =>
        if WithinAny(b, others) {
          WithinAnyTrans(a, b, others);
        } else {
          WithinTrans(a, b, initializer.value);
        }
      case Other(children, _) => WithinAnyTrans(a, b, children);
    }
  }

  lemma {:induction false} WithinAnyTrans(a: Node, b: Node, roots: seq<Node>)
    requires Within(a, b) && WithinAny(b, roots)
    ensures WithinAny(a, roots)
    decreases roots, 0
  {
    if Within(b, roots[0]) {
      WithinTrans(a, b, roots[0]);
    } else {
      WithinAnyTrans(a, b, roots[1..]);
    }
  }

  /** An expression that folds contains nothing but literals and operators, so pruning below
      it can never hide a binding. */
  lemma {:induction false} FoldedHasNoBinding(node: Node, root: Node)
    requires FoldConstant(root).Some? && Within(node, root)
    ensures !node.Binding? && !node.Other?
    decreases root
  {
    if node != root {
      match root
      case Literal(_, _) =>
      case Parenthesized(inner, _) => FoldedHasNoBinding(node, inner);
      case Prefix(_, inner, _) => FoldedHasNoBinding(node, inner);
      case Binary(_, left, right, _) =>
        if Within(node, left) {
          FoldedHasNoBinding(node, left);
        } else {
          FoldedHasNoBinding(node, right);
        }
    }
  }

  // ---- completeness and soundness of the pruned walk -----------------------------------------------

  /** Every rule A match is reported, pruning notwithstanding. */
  lemma {:induction false} RuleAReported(ctx: Context, file: string, node: Node, root: Node)
    requires Within(node, root) && RuleA(ctx, file, node).Some?
    ensures RuleA(ctx, file, node).value in Visited(ctx, file, root)
    decreases root, 1
  {
    if node != root {
      if RuleB(ctx, file, root).Some? {
        FoldedHasNoBinding(node, root);
      } else {
        match root
        case Literal(_, _) =>
        case Parenthesized(inner, _) => RuleAReported(ctx, file, node, inner);
        case Prefix(_, inner, _) => RuleAReported(ctx, file, node, inner);
        case Binary(_, left, right, _) =>
          if Within(node, left) {
            RuleAReported(ctx, file, node, left);
          } else {
            RuleAReported(ctx, file, node, right);
          }
        case Binding(_, initializer, others, _) =>
          if WithinAny(node, others) {
            RuleAReportedInAll(ctx, file, node, others);
          } else {
            RuleAReported(ctx, file, node, initializer.value);
          }
        case Other(children, _) => RuleAReportedInAll(ctx, file, node, children);
      }
    }
  }

  lemma {:induction false} RuleAReportedInAll(ctx: Context, file: string, node: Node, roots: seq<Node>)
    requires WithinAny(node, roots) && RuleA(ctx, file, node).Some?
    ensures RuleA(ctx, file, node).value in VisitedAll(ctx, file, roots)
    decreases roots, 0
  {
    if Within(node, roots[0]) {
      RuleAReported(ctx, file, node, roots[0]);
    } else {
      RuleAReportedInAll(ctx, file, node, roots[1..]);
    }
  }

  /** Every rule B match is reported, at its own line or at the line of a matching expression
      that encloses it. */
  lemma {:induction false} RuleBReported(ctx: Context, file: string, node: Node, root: Node) returns (cover: Node)
    requires Within(node, root) && RuleB(ctx, file, node).Some?
    ensures Within(node, cover) && Within(cover, root)
    ensures RuleB(ctx, file, cover).Some? && RuleB(ctx, file, cover).value in Visited(ctx, file, root)
    decreases root, 1
  {
    if RuleB(ctx, file, root).Some? {
      cover := root;
    } else {
      match root
      case Literal(_, _) => cover := node;
      case Parenthesized(inner, _) => cover := RuleBReported(ctx, file, node, inner);
      case Prefix(_, inner, _) => cover := RuleBReported(ctx, file, node, inner);
      case Binary(_, left, right, _) =>
        if Within(node, left) {
          cover := RuleBReported(ctx, file, node, left);
        } else {
          cover := RuleBReported(ctx, file, node, right);
        }
      case Binding(_, initializer, others, _) =>
        if WithinAny(node, others) {
          cover := RuleBReportedInAll(ctx, file, node, others);
        } else {
          cover := RuleBReported(ctx, file, node, initializer.value);
        }
      case Other(children, _) => cover := RuleBReportedInAll(ctx, file, node, children);
    }
  }

  lemma {:induction false} RuleBReportedInAll(ctx: Context, file: string, node: Node, roots: seq<Node>)
    returns (cover: Node)
    requires WithinAny(node, roots) && RuleB(ctx, file, node).Some?
    ensures Within(node, cover) && WithinAny(cover, roots)
    ensures RuleB(ctx, file, cover).Some? && RuleB(ctx, file, cover).value in VisitedAll(ctx, file, roots)
    decreases roots, 0
  {
    if Within(node, roots[0]) {
      cover := RuleBReported(ctx, file, node, roots[0]);
    } else {
      cover := RuleBReportedInAll(ctx, file, node, roots[1..]);
    }
  }

  /** Every report comes from a node that matches a rule. */
  lemma {:induction false} ReportIsAMatch(ctx: Context, file: string, finding: Finding, root: Node) returns (node: Node)
    requires finding in Visited(ctx, file, root)
    ensures Within(node, root)
    ensures RuleA(ctx, file, node) == Some(finding) || RuleB(ctx, file, node) == Some(finding)
    decreases root, 1
  {
    if RuleA(ctx, file, root) == Some(finding) || RuleB(ctx, file, root) == Some(finding) {
      node := root;
    } else {
      match root
      case Literal(_, _) => node := root;
      case Parenthesized(inner, _) => node := ReportIsAMatch(ctx, file, finding, inner);
      case Prefix(_, inner, _) => node := ReportIsAMatch(ctx, file, finding, inner);
      case Binary(_, left, right, _) =>
        if finding in Visited(ctx, file, left) {
          node := ReportIsAMatch(ctx, file, finding, left);
        } else {
          node := ReportIsAMatch(ctx, file, finding, right);
        }
      case Binding(_, initializer, others, _) =>
        if finding in VisitedAll(ctx, file, others) {
          node := ReportInAllIsAMatch(ctx, file, finding, others);
        } else {
          node := ReportIsAMatch(ctx, file, finding, initializer.value);
        }
      case Other(children, _) => node := ReportInAllIsAMatch(ctx, file, finding, children);
    }
  }

  lemma {:induction false} ReportInAllIsAMatch(ctx: Context, file: string, finding: Finding, roots: seq<Node>)
    returns (node: Node)
    requires finding in VisitedAll(ctx, file, roots)
    ensures WithinAny(node, roots)
    ensures RuleA(ctx, file, node) == Some(finding) || RuleB(ctx, file, node) == Some(finding)
    decreases roots, 0
  {
    if finding in Visited(ctx, file, roots[0]) {
      node := ReportIsAMatch(ctx, file, finding, roots[0]);
    } else {
      node := ReportInAllIsAMatch(ctx, file, finding, roots[1..]);
    }
  }

  // ---- the scan ------------------------------------------------------------------------------------

  datatype SourceFile = SourceFile(path: string, statements: seq<Node>)

  /** Later constants of one normalised name replace earlier ones. */
  function ByName(constants: seq<FrozenConstant>): map<string, FrozenConstant> {
    if constants == [] then map[]
    else
      var last := constants[|constants| - 1];
      ByName(constants[..|constants| - 1])[Normalise(last.name) := last]
  }

  function WithValues(
    table: map<nat, FrozenConstant>, constant: FrozenConstant, values: seq<nat>): map<nat, FrozenConstant>
  {
    if values == [] then table
    else
      var value := values[|values| - 1];
      var before := WithValues(table, constant, values[..|values| - 1]);
      if IsDistinctive(value) then before[value := constant] else before
  }

  function Distinctive(constants: seq<FrozenConstant>): map<nat, FrozenConstant> {
    if constants == [] then map[]
    else
      var last := constants[|constants| - 1];
      WithValues(Distinctive(constants[..|constants| - 1]), last, last.values)
  }

  function AllVisited(ctx: Context, files: seq<SourceFile>): seq<Finding> {
    if files == [] then []
    else AllVisited(ctx, files[..|files| - 1]) +
         VisitedAll(ctx, files[|files| - 1].path, files[|files| - 1].statements)
  }

  /** What the report is de-duplicated by. */
  predicate SameKey(a: Finding, b: Finding) { a.file == b.file && a.line == b.line && a.rule == b.rule }

  /** One finding for each key, each of them a real one. */
  ghost predicate Represents(unique: seq<Finding>, findings: seq<Finding>) {
    && (forall i, j | 0 <= i < j < |unique| :: !SameKey(unique[i], unique[j]))
    && (forall i | 0 <= i < |unique| :: unique[i] in findings)
    && (forall i | 0 <= i < |findings| :: Kept(unique, findings[i]))
  }

  ghost predicate Kept(unique: seq<Finding>, finding: Finding) {
    exists i | 0 <= i < |unique| :: SameKey(unique[i], finding)
  }

  /** Finding `n` is the last one with its key. */
  ghost predicate LastAt(findings: seq<Finding>, finding: Finding, n: nat) {
    && n < |findings| && findings[n] == finding
    && forall m | n < m < |findings| :: !SameKey(findings[m], finding)
  }

  /** The key of `a` has turned up at `n`, and that of `b` not yet. */
  ghost predicate EarlierAt(findings: seq<Finding>, a: Finding, b: Finding, n: nat) {
    && n < |findings| && SameKey(findings[n], a)
    && forall m | 0 <= m <= n :: !SameKey(findings[m], b)
  }

  ghost predicate Last(findings: seq<Finding>, finding: Finding) { exists n :: LastAt(findings, finding, n) }

  ghost predicate Earlier(findings: seq<Finding>, a: Finding, b: Finding) {
    exists n :: EarlierAt(findings, a, b, n)
  }

  /** Like a map written over in place: the last finding of each key stands where its first one did. */
  ghost predicate Overwritten(unique: seq<Finding>, findings: seq<Finding>) {
    && (forall i | 0 <= i < |unique| :: Last(findings, unique[i]))
    && (forall i, j | 0 <= i < j < |unique| :: Earlier(findings, unique[i], unique[j]))
  }

  lemma VisitedNext(ctx: Context, file: string, nodes: seq<Node>, i: nat)
    requires i < |nodes|
    ensures VisitedAll(ctx, file, nodes[i..]) == Visited(ctx, file, nodes[i]) + VisitedAll(ctx, file, nodes[i + 1..])
  {
    assert nodes[i..][1..] == nodes[i + 1..];
  }

  class Scanner {
    const ctx: Context
    var findings: seq<Finding>

    constructor (ctx: Context)
      ensures this.ctx == ctx && findings == []
    {
      this.ctx, findings := ctx, [];
    }

    method Push(finding: Option<Finding>)
      modifies this
      ensures findings == old(findings) + Listed(finding)
    {
      if finding.Some? {
        findings := findings + [finding.value];
      }
    }

    method Visit(file: string, node: Node)
      modifies this
      ensures findings == old(findings) + Visited(ctx, file, node)
      decreases node, 1
    {
      Joined(findings, Listed(RuleA(ctx, file, node)),
             if RuleB(ctx, file, node).Some? then Listed(RuleB(ctx, file, node)) else VisitedBelow(ctx, file, node));
      Push(RuleA(ctx, file, node));
      if RuleB(ctx, file, node).Some? {
        Push(RuleB(ctx, file, node));
      } else {
        VisitBelow(file, node);
      }
    }

    method VisitBelow(file: string, node: Node)
      modifies this
      ensures findings == old(findings) + VisitedBelow(ctx, file, node)
      decreases node, 0
    {
      match node
      case Literal(_, _) =>
      case Parenthesized(inner, _) => Visit(file, inner);
      case Prefix(_, inner, _) => Visit(file, inner);
      case Binary(_, left, right, _) =>
        Joined(findings, Visited(ctx, file, left), Visited(ctx, file, right));
        Visit(file, left);
        Visit(file, right);
      case Binding(_, initializer, others, _) =>
        VisitAll(file, others);
        if initializer.Some? {
          Joined(old(findings), VisitedAll(ctx, file, others), Visited(ctx, file, initializer.value));
          Visit(file, initializer.value);
        }
      case Other(children, _) => VisitAll(file, children);
    }

    method VisitAll(file: string, nodes: seq<Node>)
      modifies this
      ensures findings == old(findings) + VisitedAll(ctx, file, nodes)
      decreases nodes, 0
    {
      var i := 0;
      while i < |nodes|
        invariant 0 <= i <= |nodes|
        invariant old(findings) + VisitedAll(ctx, file, nodes) == findings + VisitedAll(ctx, file, nodes[i..])
      {
        VisitedNext(ctx, file, nodes, i);
        Joined(findings, Visited(ctx, file, nodes[i]), VisitedAll(ctx, file, nodes[i + 1..]));
        Visit(file, nodes[i]);
        i := i + 1;
      }
    }
  }

  /** The first finding with the key of `finding`, or the length of the list. */
  method FindKey(unique: seq<Finding>, finding: Finding) returns (i: nat)
    ensures Slot(unique, finding, i)
  {
    i := 0;
    while i < |unique| && !SameKey(unique[i], finding)
      invariant 0 <= i <= |unique|
      invariant forall k | 0 <= k < i :: !SameKey(unique[k], finding)
    {
      i := i + 1;
    }
  }

  predicate Slot(unique: seq<Finding>, finding: Finding, i: nat) {
    && i <= |unique|
    && (forall k | 0 <= k < i :: !SameKey(unique[k], finding))
    && (i < |unique| ==> SameKey(unique[i], finding))
  }

  function Placed(unique: seq<Finding>, finding: Finding, i: nat): seq<Finding>
    requires i <= |unique|
  {
    if i < |unique| then unique[i := finding] else unique + [finding]
  }

  /** A later finding takes the place of an earlier one with its key. */
  method Deduplicate(findings: seq<Finding>) returns (unique: seq<Finding>)
    ensures Represents(unique, findings) && Overwritten(unique, findings)
  {
    unique := [];
    ghost var done: seq<Finding> := [];
    var n := 0;
    while n < |findings|
      invariant 0 <= n <= |findings|
      invariant done == findings[..n]
      invariant Represents(unique, done) && Overwritten(unique, done)
    {
      var i := FindKey(unique, findings[n]);
      PlacedRepresents(unique, done, findings[n], i);
      PlacedOverwrites(unique, done, findings[n], i);
      Extended(findings, n);
      unique := Placed(unique, findings[n], i);
      done := done + [findings[n]];
      n := n + 1;
    }
    assert done == findings;
  }

  lemma Extended<T>(s: seq<T>, n: nat)
    requires n < |s|
    ensures s[..n + 1] == s[..n] + [s[n]]
  {
  }

  lemma PlacedKeeps(unique: seq<Finding>, finding: Finding, i: nat, other: Finding)
    requires Slot(unique, finding, i) && (Kept(unique, other) || SameKey(finding, other))
    ensures Kept(Placed(unique, finding, i), other)
  {
    var next := Placed(unique, finding, i);
    if SameKey(finding, other) {
      assert SameKey(next[i], other);
    } else {
      var k :| 0 <= k < |unique| && SameKey(unique[k], other);
      assert next[k] == unique[k];
    }
  }

  lemma PlacedDistinct(unique: seq<Finding>, finding: Finding, i: nat)
    requires Slot(unique, finding, i)
    requires forall a, b | 0 <= a < b < |unique| :: !SameKey(unique[a], unique[b])
    ensures var next := Placed(unique, finding, i);
            forall a, b | 0 <= a < b < |next| :: !SameKey(next[a], next[b])
  {
    var next := Placed(unique, finding, i);
    forall a, b | 0 <= a < b < |next| ensures !SameKey(next[a], next[b]) {
      if a != i && b != i {
        assert next[a] == unique[a] && next[b] == unique[b];
      } else if i < |unique| {
        assert !SameKey(unique[a], unique[b]);
      }
    }
  }

  lemma PlacedRepresents(unique: seq<Finding>, findings: seq<Finding>, finding: Finding, i: nat)
    requires Represents(unique, findings) && Slot(unique, finding, i)
    ensures Represents(Placed(unique, finding, i), findings + [finding])
  {
    var next, longer := Placed(unique, finding, i), findings + [finding];
    PlacedDistinct(unique, finding, i);
    forall n | 0 <= n < |longer| ensures Kept(next, longer[n]) {
      if n < |findings| {
        assert Kept(unique, findings[n]);
      }
      PlacedKeeps(unique, finding, i, longer[n]);
    }
    forall k | 0 <= k < |next| ensures next[k] in longer {
      if k != i {
        assert next[k] == unique[k] && unique[k] in findings;
      }
    }
  }

  lemma LastExtended(findings: seq<Finding>, finding: Finding, kept: Finding)
    requires Last(findings, kept) && !SameKey(finding, kept)
    ensures Last(findings + [finding], kept)
  {
    var n :| LastAt(findings, kept, n);
    assert LastAt(findings + [finding], kept, n);
  }

  lemma LastIsLast(findings: seq<Finding>, finding: Finding)
    ensures Last(findings + [finding], finding)
  {
    assert LastAt(findings + [finding], finding, |findings|);
  }

  /** Only keys count, so either finding may be replaced by one with its key. */
  lemma EarlierExtended(findings: seq<Finding>, finding: Finding, a: Finding, b: Finding, a': Finding, b': Finding)
    requires Earlier(findings, a, b) && SameKey(a, a') && SameKey(b, b')
    ensures Earlier(findings + [finding], a', b')
  {
    var n :| EarlierAt(findings, a, b, n);
    assert EarlierAt(findings + [finding], a', b', n);
  }

  lemma EarlierThanNew(findings: seq<Finding>, finding: Finding, a: Finding)
    requires Last(findings, a) && forall m | 0 <= m < |findings| :: !SameKey(findings[m], finding)
    ensures Earlier(findings + [finding], a, finding)
  {
    var n :| LastAt(findings, a, n);
    assert EarlierAt(findings + [finding], a, finding, n);
  }

  lemma SlotIsOnly(unique: seq<Finding>, finding: Finding, i: nat, k: nat)
    requires Slot(unique, finding, i) && k < |unique| && k != i
    requires forall a, b | 0 <= a < b < |unique| :: !SameKey(unique[a], unique[b])
    ensures !SameKey(finding, unique[k])
  {
    if i < k {
      assert !SameKey(unique[i], unique[k]);
    }
  }

  lemma PlacedSameKey(unique: seq<Finding>, finding: Finding, i: nat, k: nat)
    requires Slot(unique, finding, i) && k < |unique|
    ensures SameKey(unique[k], Placed(unique, finding, i)[k])
  {
  }

  lemma PlacedIsLast(unique: seq<Finding>, findings: seq<Finding>, finding: Finding, i: nat, k: nat)
    requires Slot(unique, finding, i) && k < |Placed(unique, finding, i)|
    requires forall a, b | 0 <= a < b < |unique| :: !SameKey(unique[a], unique[b])
    requires k < |unique| ==> Last(findings, unique[k])
    ensures Last(findings + [finding], Placed(unique, finding, i)[k])
  {
    if k == i {
      LastIsLast(findings, finding);
    } else {
      SlotIsOnly(unique, finding, i, k);
      LastExtended(findings, finding, unique[k]);
    }
  }

  lemma PlacedKeepsOrder(unique: seq<Finding>, findings: seq<Finding>, finding: Finding, i: nat, a: nat, b: nat)
    requires Slot(unique, finding, i) && a < b < |Placed(unique, finding, i)|
    requires if b < |unique| then Earlier(findings, unique[a], unique[b])
             else Last(findings, unique[a]) && forall m | 0 <= m < |findings| :: !SameKey(findings[m], finding)
    ensures Earlier(findings + [finding], Placed(unique, finding, i)[a], Placed(unique, finding, i)[b])
  {
    if b < |unique| {
      PlacedSameKey(unique, finding, i, a);
      PlacedSameKey(unique, finding, i, b);
      var next := Placed(unique, finding, i);
      EarlierExtended(findings, finding, unique[a], unique[b], next[a], next[b]);
    } else {
      EarlierThanNew(findings, finding, unique[a]);
    }
  }

  /** A key without a slot in the list has not turned up at all. */
  lemma NewKey(unique: seq<Finding>, findings: seq<Finding>, finding: Finding)
    requires Represents(unique, findings) && Slot(unique, finding, |unique|)
    ensures forall m | 0 <= m < |findings| :: !SameKey(findings[m], finding)
  {
    forall m | 0 <= m < |findings| ensures !SameKey(findings[m], finding) {
      assert Kept(unique, findings[m]);
    }
  }

  /** A key seen before is overwritten where it stands; a new one goes to the end. */
  lemma PlacedOverwrites(unique: seq<Finding>, findings: seq<Finding>, finding: Finding, i: nat)
    requires Represents(unique, findings) && Overwritten(unique, findings) && Slot(unique, finding, i)
    ensures Overwritten(Placed(unique, finding, i), findings + [finding])
  {
    var next, longer := Placed(unique, finding, i), findings + [finding];
    forall k | 0 <= k < |next| ensures Last(longer, next[k]) {
      PlacedIsLast(unique, findings, finding, i, k);
    }
    if i == |unique| {
      NewKey(unique, findings, finding);
    }
    forall a, b | 0 <= a < b < |next| ensures Earlier(longer, next[a], next[b]) {
      PlacedKeepsOrder(unique, findings, finding, i, a, b);
    }
  }
}
