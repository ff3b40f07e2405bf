/** The scan itself, and what its report guarantees in terms of the constants, the exemptions and the
    files it is given. */
module LiteralReport {
  import opened Common
  import opened LiteralText
  import opened ChainLiterals

  // ---- what the report should hold ------------------------------------------------------------------

  /** Constant `j` is the last to list a value. */
  predicate LastToList(constants: seq<FrozenConstant>, value: nat, j: nat) {
    && j < |constants| && value in constants[j].values
    && forall m | j < m < |constants| :: value !in constants[m].values
  }

  /** Constant `j` is the last whose name agrees with an identifier on letters, up to case, and digits. */
  predicate LastToName(constants: seq<FrozenConstant>, name: string, j: nat) {
    LastWithKey(constants, Normalise(name), j)
  }

  predicate LastWithKey(constants: seq<FrozenConstant>, key: string, j: nat) {
    && j < |constants| && Normalise(constants[j].name) == key
    && forall m | j < m < |constants| :: Normalise(constants[m].name) != key
  }

  /** A group that covers the path lists the value. */
  predicate ExemptsValue(groups: seq<Group>, path: string, value: nat) {
    exists g, k | 0 <= g < |groups| && 0 <= k < |groups[g].files| ::
      Covers(groups[g].files[k], path) && value in groups[g].values
  }

  predicate ExemptsName(groups: seq<Group>, path: string, name: string) {
    exists g, k | 0 <= g < |groups| && 0 <= k < |groups[g].files| ::
      Covers(groups[g].files[k], path) && name in groups[g].constants
  }

  /** The expression is a constant with this exact value. */
  predicate HasValue(node: Node, value: nat) { Arithmetic(node) && SmallExponents(node) && Value(node) == value }

  /** A literal or operator expression with a distinctive frozen value that nothing exempts here. */
  predicate FrozenValue(
    constants: seq<FrozenConstant>, groups: seq<Group>, path: string, node: Node, value: nat, j: nat)
  {
    && (node.Literal? || node.Binary?) && HasValue(node, value)
    && value >= 1000 && value != 1000 && value != 1024 && value != 2048 && value != 4096
    && LastToList(constants, value, j) && !ExemptsValue(groups, path, value)
  }

  /** A binding of a frozen constant's name to a constant expression, not exempt here. */
  predicate FrozenName(
    constants: seq<FrozenConstant>, groups: seq<Group>, path: string, node: Node, value: nat, j: nat)
  {
    && node.Binding? && node.name.Some? && node.initializer.Some? && HasValue(node.initializer.value, value)
    && LastToName(constants, node.name.value, j) && !ExemptsName(groups, path, constants[j].name)
  }

  // ---- the lookup tables ----------------------------------------------------------------------------

  lemma {:induction false} WithValuesHolds(
    table: map<nat, FrozenConstant>, constant: FrozenConstant, values: seq<nat>, v: nat)
    ensures var wider := WithValues(table, constant, values);
            if v in values && IsDistinctive(v) then v in wider && wider[v] == constant
            else (v in wider <==> v in table) && (v in table ==> wider[v] == table[v])
  {
    if values != [] {
      var front := values[..|values| - 1];
      WithValuesHolds(table, constant, front, v);
      assert v in values <==> v in front || v == values[|values| - 1];
    }
  }

  lemma {:induction false} DistinctiveHolds(constants: seq<FrozenConstant>, v: nat)
    ensures v in Distinctive(constants) <==> IsDistinctive(v) && exists j :: LastToList(constants, v, j)
    ensures forall j: nat | v in Distinctive(constants) && LastToList(constants, v, j) ::
              Distinctive(constants)[v] == constants[j]
  {
    if constants != [] {
      var front, last := constants[..|constants| - 1], constants[|constants| - 1];
      DistinctiveHolds(front, v);
      WithValuesHolds(Distinctive(front), last, last.values, v);
      if v in last.values {
        assert LastToList(constants, v, |constants| - 1);
      } else {
        forall j: nat ensures LastToList(constants, v, j) <==> LastToList(front, v, j) {
        }
      }
    }
  }

  lemma {:induction false} ByNameHolds(constants: seq<FrozenConstant>, key: string)
    ensures key in ByName(constants) <==> exists j :: LastWithKey(constants, key, j)
    ensures forall j: nat | key in ByName(constants) && LastWithKey(constants, key, j) ::
              ByName(constants)[key] == constants[j]
  {
    if constants != [] {
      var front, last := constants[..|constants| - 1], constants[|constants| - 1];
      ByNameHolds(front, key);
      if Normalise(last.name) == key {
        assert LastWithKey(constants, key, |constants| - 1);
      } else {
        forall j: nat ensures LastWithKey(constants, key, j) <==> LastWithKey(front, key, j) {
        }
      }
    }
  }

  function ContextOf(constants: seq<FrozenConstant>, groups: seq<Group>): Context {
    Context(ByName(constants), Distinctive(constants), groups)
  }

  lemma ClassifiedExactly(ctx: Context, path: string, value: nat, name: string)
    ensures ClassifiedValue(ctx, path, value) <==> ExemptsValue(ctx.groups, path, value)
    ensures ClassifiedName(ctx, path, name) <==> ExemptsName(ctx.groups, path, name)
  {
  }

  // ---- the two rules in terms of what they are for --------------------------------------------------

  lemma FrozenIsRuleB(constants: seq<FrozenConstant>, groups: seq<Group>, path: string, node: Node, value: nat, j: nat)
    requires FrozenValue(constants, groups, path, node, value, j)
    ensures RuleB(ContextOf(constants, groups), path, node) ==
            Some(Finding(B, path, node.line, constants[j], value))
  {
    FoldIsExact(node);
    DistinctiveHolds(constants, value);
    ClassifiedExactly(ContextOf(constants, groups), path, value, "");
  }

  lemma RuleBIsFrozen(constants: seq<FrozenConstant>, groups: seq<Group>, path: string, node: Node) returns (j: nat)
    requires RuleB(ContextOf(constants, groups), path, node).Some?
    ensures var finding := RuleB(ContextOf(constants, groups), path, node).value;
            && FrozenValue(constants, groups, path, node, finding.folded, j)
            && finding == Finding(B, path, node.line, constants[j], finding.folded)
  {
    var value := FoldConstant(node).value;
    FoldIsExact(node);
    DistinctiveHolds(constants, value);
    ClassifiedExactly(ContextOf(constants, groups), path, value, "");
    j :| LastToList(constants, value, j);
  }

  lemma FrozenIsRuleA(constants: seq<FrozenConstant>, groups: seq<Group>, path: string, node: Node, value: nat, j: nat)
    requires FrozenName(constants, groups, path, node, value, j)
    ensures RuleA(ContextOf(constants, groups), path, node) ==
            Some(Finding(A, path, node.line, constants[j], value))
  {
    FoldIsExact(node.initializer.value);
    ByNameHolds(constants, Normalise(node.name.value));
    ClassifiedExactly(ContextOf(constants, groups), path, value, constants[j].name);
  }

  lemma RuleAIsFrozen(constants: seq<FrozenConstant>, groups: seq<Group>, path: string, node: Node) returns (j: nat)
    requires RuleA(ContextOf(constants, groups), path, node).Some?
    ensures var finding := RuleA(ContextOf(constants, groups), path, node).value;
            && FrozenName(constants, groups, path, node, finding.folded, j)
            && finding == Finding(A, path, node.line, constants[j], finding.folded)
  {
    var key := Normalise(node.name.value);
    FoldIsExact(node.initializer.value);
    ByNameHolds(constants, key);
    j :| LastWithKey(constants, key, j);
    ClassifiedExactly(ContextOf(constants, groups), path, 0, constants[j].name);
  }

  /** One finding for each file, line and rule that a visit of the files turns up. */
  ghost predicate IsReport(
    unique: seq<Finding>, constants: seq<FrozenConstant>, groups: seq<Group>, files: seq<SourceFile>)
  {
    Represents(unique, AllVisited(ContextOf(constants, groups), files))
  }

  method Scan(constants: seq<FrozenConstant>, groups: seq<Group>, files: seq<SourceFile>) returns (unique: seq<Finding>)
    ensures IsReport(unique, constants, groups, files)
    ensures Overwritten(unique, AllVisited(ContextOf(constants, groups), files))
  {
    var byName: map<string, FrozenConstant> := map[];
    var distinctive: map<nat, FrozenConstant> := map[];
    var i := 0;
    while i < |constants|
      invariant 0 <= i <= |constants|
      invariant byName == ByName(constants[..i]) && distinctive == Distinctive(constants[..i])
    {
      var constant := constants[i];
      assert constants[..i + 1][..i] == constants[..i];
      byName := byName[Normalise(constant.name) := constant];
      ghost var before := distinctive;
      var v := 0;
      while v < |constant.values|
        invariant 0 <= v <= |constant.values|
        invariant distinctive == WithValues(before, constant, constant.values[..v])
      {
        assert constant.values[..v + 1][..v] == constant.values[..v];
        if IsDistinctive(constant.values[v]) {
          distinctive := distinctive[constant.values[v] := constant];
        }
        v := v + 1;
      }
      assert constant.values[..v] == constant.values;
      i := i + 1;
    }
    assert constants[..i] == constants;
    var scanner := new Scanner(Context(byName, distinctive, groups));
    i := 0;
    while i < |files|
      invariant 0 <= i <= |files|
      invariant scanner.findings == AllVisited(scanner.ctx, files[..i])
    {
      assert files[..i + 1][..i] == files[..i];
      scanner.VisitAll(files[i].path, files[i].statements);
      i := i + 1;
    }
    assert files[..i] == files;
    unique := Deduplicate(scanner.findings);
  }

  // ---- what the report guarantees -------------------------------------------------------------------

  lemma {:induction false} FileVisited(ctx: Context, files: seq<SourceFile>, i: nat, finding: Finding)
    requires i < |files| && finding in VisitedAll(ctx, files[i].path, files[i].statements)
    ensures finding in AllVisited(ctx, files)
  {
    if i < |files| - 1 {
      FileVisited(ctx, files[..|files| - 1], i, finding);
    }
  }

  /** Anywhere in any file, an unclassified binding of a frozen name to a number is on the
      report: rule A, that file, that line. */
  lemma BindingsAreReported(ctx: Context, files: seq<SourceFile>, unique: seq<Finding>, i: nat, node: Node)
    requires Represents(unique, AllVisited(ctx, files))
    requires i < |files| && WithinAny(node, files[i].statements) && RuleA(ctx, files[i].path, node).Some?
    ensures exists k | 0 <= k < |unique| ::
              unique[k].rule.A? && unique[k].file == files[i].path && unique[k].line == node.line
  {
    var finding := RuleA(ctx, files[i].path, node).value;
    RuleAReportedInAll(ctx, files[i].path, node, files[i].statements);
    FileVisited(ctx, files, i, finding);
    assert Kept(unique, finding);
    var k :| 0 <= k < |unique| && SameKey(unique[k], finding);
  }

  /** Anywhere in any file, an unclassified expression with a distinctive frozen value is on the
      report, at its own line or at the line of a reported expression around it. */
  lemma ValuesAreReported(ctx: Context, files: seq<SourceFile>, unique: seq<Finding>, i: nat, node: Node)
    returns (cover: Node)
    requires Represents(unique, AllVisited(ctx, files))
    requires i < |files| && WithinAny(node, files[i].statements) && RuleB(ctx, files[i].path, node).Some?
    ensures Within(node, cover) && WithinAny(cover, files[i].statements) && RuleB(ctx, files[i].path, cover).Some?
    ensures exists k | 0 <= k < |unique| ::
              unique[k].rule.B? && unique[k].file == files[i].path && unique[k].line == cover.line
  {
    cover := RuleBReportedInAll(ctx, files[i].path, node, files[i].statements);
    var finding := RuleB(ctx, files[i].path, cover).value;
    FileVisited(ctx, files, i, finding);
    assert Kept(unique, finding);
    var k :| 0 <= k < |unique| && SameKey(unique[k], finding);
  }

  /** Nothing else is on the report. */
  lemma {:induction false} ReportIsSound(ctx: Context, files: seq<SourceFile>, finding: Finding)
    returns (i: nat, node: Node)
    requires finding in AllVisited(ctx, files)
    ensures i < |files| && WithinAny(node, files[i].statements)
    ensures RuleA(ctx, files[i].path, node) == Some(finding) || RuleB(ctx, files[i].path, node) == Some(finding)
  {
    var last := |files| - 1;
    if finding in VisitedAll(ctx, files[last].path, files[last].statements) {
      i := last;
      node := ReportInAllIsAMatch(ctx, files[i].path, finding, files[i].statements);
    } else {
      i, node := ReportIsSound(ctx, files[..last], finding);
    }
  }

  /** A distinctive frozen value anywhere in a file, however it is spelled and wherever nothing exempts
      it, is found: at its line, or at the line of a frozen value it is part of. */
  lemma FrozenValueIsFound(
    unique: seq<Finding>, constants: seq<FrozenConstant>, groups: seq<Group>, files: seq<SourceFile>,
    i: nat, node: Node, value: nat, j: nat)
    returns (cover: Node, whole: nat, k: nat)
    requires IsReport(unique, constants, groups, files)
    requires i < |files| && WithinAny(node, files[i].statements)
    requires FrozenValue(constants, groups, files[i].path, node, value, j)
    ensures Within(node, cover) && WithinAny(cover, files[i].statements)
    ensures FrozenValue(constants, groups, files[i].path, cover, whole, k)
    ensures exists u | 0 <= u < |unique| ::
              unique[u].rule.B? && unique[u].file == files[i].path && unique[u].line == cover.line
  {
    FrozenIsRuleB(constants, groups, files[i].path, node, value, j);
    cover := ValuesAreReported(ContextOf(constants, groups), files, unique, i, node);
    k := RuleBIsFrozen(constants, groups, files[i].path, cover);
    whole := RuleB(ContextOf(constants, groups), files[i].path, cover).value.folded;
  }

  /** A binding of a frozen name to a constant, wherever nothing exempts it, is found at its line. */
  lemma FrozenNameIsFound(
    unique: seq<Finding>, constants: seq<FrozenConstant>, groups: seq<Group>, files: seq<SourceFile>,
    i: nat, node: Node, value: nat, j: nat)
    requires IsReport(unique, constants, groups, files)
    requires i < |files| && WithinAny(node, files[i].statements)
    requires FrozenName(constants, groups, files[i].path, node, value, j)
    ensures exists u | 0 <= u < |unique| ::
              unique[u].rule.A? && unique[u].file == files[i].path && unique[u].line == node.line
  {
    FrozenIsRuleA(constants, groups, files[i].path, node, value, j);
    BindingsAreReported(ContextOf(constants, groups), files, unique, i, node);
  }

  /** Every finding is one of the two, at a node of the file it names. */
  lemma FoundIsFrozen(
    unique: seq<Finding>, constants: seq<FrozenConstant>, groups: seq<Group>, files: seq<SourceFile>, u: nat)
    returns (i: nat, node: Node, j: nat)
    requires IsReport(unique, constants, groups, files) && u < |unique|
    ensures i < |files| && WithinAny(node, files[i].statements) && j < |constants|
    ensures unique[u].file == files[i].path && unique[u].line == node.line && unique[u].constant == constants[j]
    ensures unique[u].rule.A? ==> FrozenName(constants, groups, files[i].path, node, unique[u].folded, j)
    ensures unique[u].rule.B? ==> FrozenValue(constants, groups, files[i].path, node, unique[u].folded, j)
  {
    var ctx := ContextOf(constants, groups);
    i, node := ReportIsSound(ctx, files, unique[u]);
    if RuleA(ctx, files[i].path, node) == Some(unique[u]) {
      j := RuleAIsFrozen(constants, groups, files[i].path, node);
    } else {
      j := RuleBIsFrozen(constants, groups, files[i].path, node);
    }
  }
}
