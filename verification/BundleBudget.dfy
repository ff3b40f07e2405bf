/** The critical-path budget gate: a worklist over a possibly cyclic import graph. */
module BundleBudget {
  import opened Common

  /** A path relative to the built tree, already normalised. */
  type Path = string

  /** What is read off one emitted file. */
  datatype Chunk = Chunk(raw: nat, gz: nat, imports: seq<Path>)

  type Tree = map<Path, Chunk>

  datatype Measure = Measure(file: Path, raw: nat, gz: nat)

  const TARGET_GZ_BYTES: nat := 350_000
  const HARD_FAIL_GZ_BYTES: nat := 450_000

  datatype Failure = NoEntry | Missing(file: Path) | OverBudget(excess: nat)

  // ---- what the gate should measure ---------------------------------------------------

  /** A walk from an entry along static imports of chunks that exist. */
  predicate IsWalk(tree: Tree, entries: seq<Path>, walk: seq<Path>) {
    && walk != []
    && walk[0] in entries
    && forall i | 0 <= i < |walk| - 1 :: walk[i] in tree && walk[i + 1] in tree[walk[i]].imports
  }

  ghost predicate Reachable(tree: Tree, entries: seq<Path>, file: Path) {
    exists walk :: IsWalk(tree, entries, walk) && walk[|walk| - 1] == file
  }

  /** Sum of compressed sizes over a set of chunks. */
  ghost function Weight(tree: Tree, files: set<Path>): nat
    requires files <= tree.Keys
    decreases |files|
  {
    if files == {} then 0
    else
      var file :| file in files;
      tree[file].gz + Weight(tree, files - {file})
  }

  lemma {:induction false} WeightWithout(tree: Tree, files: set<Path>, file: Path)
    requires files <= tree.Keys && file in files
    ensures Weight(tree, files) == tree[file].gz + Weight(tree, files - {file})
    decreases |files|
  {
    var first :| first in files && Weight(tree, files) == tree[first].gz + Weight(tree, files - {first});
    if first != file {
      WeightWithout(tree, files - {first}, file);
      WeightWithout(tree, files - {file}, first);
      assert files - {first} - {file} == files - {file} - {first};
    }
  }

  lemma EntryReachable(tree: Tree, entries: seq<Path>, file: Path)
    requires file in entries
    ensures Reachable(tree, entries, file)
  {
    assert IsWalk(tree, entries, [file]);
    assert [file][|[file]| - 1] == file;
  }

  lemma ImportReachable(tree: Tree, entries: seq<Path>, file: Path, target: Path)
    requires Reachable(tree, entries, file) && file in tree && target in tree[file].imports
    ensures Reachable(tree, entries, target)
  {
    var walk :| IsWalk(tree, entries, walk) && walk[|walk| - 1] == file;
    var longer := walk + [target];
    assert IsWalk(tree, entries, longer) && longer[|longer| - 1] == target;
  }

  /** A set that holds the entries and is closed under static imports. */
  ghost predicate Closed(tree: Tree, entries: seq<Path>, files: set<Path>) {
    && (forall file | file in entries :: file in files)
    && (forall file, target | file in files && file in tree && target in tree[file].imports :: target in files)
  }

  lemma {:induction false} ClosedHoldsReachable(tree: Tree, entries: seq<Path>, files: set<Path>, walk: seq<Path>)
    requires Closed(tree, entries, files) && IsWalk(tree, entries, walk)
    ensures walk[|walk| - 1] in files
  {
    if |walk| > 1 {
      var front := walk[..|walk| - 1];
      assert IsWalk(tree, entries, front);
      ClosedHoldsReachable(tree, entries, files, front);
      var i := |walk| - 2;
      assert walk[i] in tree && walk[i + 1] in tree[walk[i]].imports;
    }
  }

  // ---- the worklist ---------------------------------------------------------------------

  function Files(measured: seq<Measure>): set<Path> {
    set i | 0 <= i < |measured| :: measured[i].file
  }

  /** Each weighed chunk once, with its own sizes. */
  ghost predicate Weighed(tree: Tree, measured: seq<Measure>) {
    && (forall i | 0 <= i < |measured| ::
          measured[i].file in tree &&
          measured[i] == Measure(measured[i].file, tree[measured[i].file].raw, tree[measured[i].file].gz))
    && (forall i, j | 0 <= i < j < |measured| :: measured[i].file != measured[j].file)
  }

  /** Everything pending or done is reachable, and nothing reachable can be missed. */
  ghost predicate Frontier(tree: Tree, entries: seq<Path>, seen: set<Path>, queue: seq<Path>) {
    && seen <= tree.Keys
    && (forall file | file in queue :: Reachable(tree, entries, file))
    && (forall file | file in seen :: Reachable(tree, entries, file))
    && (forall file | file in entries :: file in seen || file in queue)
    && (forall file | file in seen :: forall target | target in tree[file].imports :: target in seen || target in queue)
  }

  lemma FrontierStarts(tree: Tree, entries: seq<Path>)
    ensures Frontier(tree, entries, {}, entries)
  {
    forall file | file in entries ensures Reachable(tree, entries, file) {
      EntryReachable(tree, entries, file);
    }
  }

  lemma FrontierSkips(tree: Tree, entries: seq<Path>, seen: set<Path>, queue: seq<Path>)
    requires queue != [] && queue[0] in seen && Frontier(tree, entries, seen, queue)
    ensures Frontier(tree, entries, seen, queue[1..])
  {
    assert forall file :: file in queue <==> file == queue[0] || file in queue[1..];
  }

  lemma FrontierVisits(tree: Tree, entries: seq<Path>, seen: set<Path>, queue: seq<Path>)
    requires queue != [] && queue[0] in tree && Frontier(tree, entries, seen, queue)
    ensures Frontier(tree, entries, seen + {queue[0]}, queue[1..] + tree[queue[0]].imports)
  {
    var file := queue[0];
    assert forall f :: f in queue <==> f == file || f in queue[1..];
    forall target | target in tree[file].imports ensures Reachable(tree, entries, target) {
      ImportReachable(tree, entries, file, target);
    }
  }

  lemma FrontierDone(tree: Tree, entries: seq<Path>, seen: set<Path>, file: Path)
    requires Frontier(tree, entries, seen, [])
    ensures file in seen <==> Reachable(tree, entries, file)
  {
    if Reachable(tree, entries, file) {
      var walk :| IsWalk(tree, entries, walk) && walk[|walk| - 1] == file;
      ClosedHoldsReachable(tree, entries, seen, walk);
    }
  }

  /** Weighing one more chunk. */
  lemma MeasureGrows(tree: Tree, measured: seq<Measure>, file: Path)
    requires Weighed(tree, measured) && Files(measured) <= tree.Keys && file in tree && file !in Files(measured)
    ensures
      var longer := measured + [Measure(file, tree[file].raw, tree[file].gz)];
      && Weighed(tree, longer)
      && Files(longer) == Files(measured) + {file}
      && Weight(tree, Files(longer)) == Weight(tree, Files(measured)) + tree[file].gz
  {
    var longer := measured + [Measure(file, tree[file].raw, tree[file].gz)];
    assert longer[|measured|].file == file;
    forall f | f in Files(measured) ensures f in Files(longer) {
      var i :| 0 <= i < |measured| && measured[i].file == f;
      assert longer[i].file == f;
    }
    forall i | 0 <= i < |measured| ensures longer[i].file != file {
      assert measured[i].file in Files(measured);
    }
    WeightWithout(tree, Files(longer), file);
    assert Files(longer) - {file} == Files(measured);
  }

  /** The running measurements describe exactly the seen chunks. */
  ghost predicate Tallied(tree: Tree, seen: set<Path>, measured: seq<Measure>, total: nat) {
    && seen <= tree.Keys
    && Weighed(tree, measured)
    && seen == Files(measured)
    && total == Weight(tree, seen)
  }

  lemma TallyStarts(tree: Tree)
    ensures Tallied(tree, {}, [], 0)
  {
  }

  lemma TallyGrows(tree: Tree, seen: set<Path>, measured: seq<Measure>, total: nat, file: Path)
    requires Tallied(tree, seen, measured, total) && file in tree && file !in seen
    ensures Tallied(tree, seen + {file}, measured + [Measure(file, tree[file].raw, tree[file].gz)],
                    total + tree[file].gz)
  {
    MeasureGrows(tree, measured, file);
  }

  lemma QueueReachable(tree: Tree, entries: seq<Path>, seen: set<Path>, queue: seq<Path>)
    requires Frontier(tree, entries, seen, queue) && queue != []
    ensures Reachable(tree, entries, queue[0])
  {
  }

  lemma TallyEnds(tree: Tree, entries: seq<Path>, seen: set<Path>, measured: seq<Measure>, total: nat)
    requires Frontier(tree, entries, seen, []) && Tallied(tree, seen, measured, total)
    ensures WeighsReachable(tree, entries, measured, total)
  {
    forall file ensures file in seen <==> Reachable(tree, entries, file) {
      FrontierDone(tree, entries, seen, file);
    }
  }

  /** Exactly the reachable chunks, each once, with the sum of their sizes. */
  ghost predicate WeighsReachable(tree: Tree, entries: seq<Path>, measured: seq<Measure>, total: nat) {
    && Weighed(tree, measured)
    && (forall file :: file in Files(measured) <==> Reachable(tree, entries, file))
    && Files(measured) <= tree.Keys
    && total == Weight(tree, Files(measured))
  }

  /** Weigh every chunk reachable from the entries, once. It fails on, and only on, a
      reachable chunk that is not in the tree. */
  method WeighCriticalPath(tree: Tree, entries: seq<Path>)
    returns (result: Result<nat, Failure>, measured: seq<Measure>)
    ensures result.Ok? ==> WeighsReachable(tree, entries, measured, result.value)
    ensures result.Err? ==>
              result.error.Missing? && Reachable(tree, entries, result.error.file) && result.error.file !in tree
  {
    var seen: set<Path> := {};
    var queue := entries;
    var total: nat := 0;
    measured := [];
    FrontierStarts(tree, entries);
    TallyStarts(tree);
    while queue != []
      invariant Frontier(tree, entries, seen, queue)
      invariant Tallied(tree, seen, measured, total)
      decreases tree.Keys - seen, |queue|
    {
      var relative := queue[0];
      if relative in seen {
        FrontierSkips(tree, entries, seen, queue);
        queue := queue[1..];
        continue;
      }
      if relative !in tree {
        QueueReachable(tree, entries, seen, queue);
        return Err(Missing(relative)), measured;
      }
      var chunk := tree[relative];
      FrontierVisits(tree, entries, seen, queue);
      TallyGrows(tree, seen, measured, total, relative);
      seen := seen + {relative};
      total := total + chunk.gz;
      measured := measured + [Measure(relative, chunk.raw, chunk.gz)];
      queue := queue[1..] + chunk.imports;
    }
    TallyEnds(tree, entries, seen, measured, total);
    result := Ok(total);
  }

  /** The rows of a report add up to its total. */
  function SumOfRows(measured: seq<Measure>): nat {
    if measured == [] then 0 else SumOfRows(measured[..|measured| - 1]) + measured[|measured| - 1].gz
  }

  lemma {:induction false} RowsAddUp(tree: Tree, measured: seq<Measure>)
    requires Weighed(tree, measured)
    ensures Files(measured) <= tree.Keys && SumOfRows(measured) == Weight(tree, Files(measured))
  {
    if measured == [] {
      assert Files(measured) == {};
    } else {
      var front, last := measured[..|measured| - 1], measured[|measured| - 1];
      RowsAddUp(tree, front);
      assert last.file !in Files(front);
      MeasureGrows(tree, front, last.file);
      assert measured == front + [Measure(last.file, tree[last.file].raw, tree[last.file].gz)];
    }
  }

  // ---- the gate ------------------------------------------------------------------------------

  /** `files` is what is reachable, and all of it exists. */
  ghost predicate IsReach(tree: Tree, entries: seq<Path>, files: set<Path>) {
    (forall file :: file in files <==> Reachable(tree, entries, file)) && files <= tree.Keys
  }

  /** Exactly when the gate exits zero. */
  ghost predicate Passes(tree: Tree, entries: seq<Path>, files: set<Path>) {
    entries != [] && IsReach(tree, entries, files) && Weight(tree, files) <= HARD_FAIL_GZ_BYTES
  }

  /** The whole gate: what it weighed when it passes, and whether it warned. */
  method Gate(tree: Tree, entries: seq<Path>) returns (result: Result<nat, Failure>, warned: bool)
    ensures result == Err(NoEntry) <==> entries == []
    ensures result.Err? && result.error.Missing? ==>
              Reachable(tree, entries, result.error.file) && result.error.file !in tree
    ensures result.Err? && result.error.OverBudget? ==>
              exists files :: IsReach(tree, entries, files) &&
                              Weight(tree, files) == result.error.excess + HARD_FAIL_GZ_BYTES
    ensures result.Ok? <==> exists files :: Passes(tree, entries, files)
    ensures forall files | Passes(tree, entries, files) ::
              result == Ok(Weight(tree, files)) && (warned <==> Weight(tree, files) > 350_000)
  {
    warned := false;
    if entries == [] {
      return Err(NoEntry), false;
    }
    var measured;
    result, measured := WeighCriticalPath(tree, entries);
    if result.Err? {
      assert forall files :: !Passes(tree, entries, files);
      return;
    }
    ghost var reached := Files(measured);
    forall files | Passes(tree, entries, files) ensures files == reached {
      assert forall file :: file in files <==> file in reached;
    }
    assert IsReach(tree, entries, reached);
    if result.value > HARD_FAIL_GZ_BYTES {
      return Err(OverBudget(result.value - HARD_FAIL_GZ_BYTES)), false;
    }
    assert Passes(tree, entries, reached);
    warned := result.value > TARGET_GZ_BYTES;
  }

  /** The hard limit in bytes, and that the compressed size is what counts. */
  lemma BudgetOfOneChunk(raw: nat, gz: nat)
    ensures (exists files :: Passes(map["entry" := Chunk(raw, gz, [])], ["entry"], files)) <==> gz <= 450_000
  {
    var tree: Tree, file: Path := map["entry" := Chunk(raw, gz, [])], "entry";
    EntryReachable(tree, [file], file);
    forall f ensures Reachable(tree, [file], f) <==> f in {file} {
      if Reachable(tree, [file], f) {
        var walk :| IsWalk(tree, [file], walk) && walk[|walk| - 1] == f;
        ClosedHoldsReachable(tree, [file], {file}, walk);
      }
    }
    assert IsReach(tree, [file], {file});
    WeightWithout(tree, {file}, file);
    assert {file} - {file} == {};
    forall files | Passes(tree, [file], files) ensures files == {file} {
      assert forall f :: f in files <==> f in {file};
    }
    assert Passes(tree, [file], {file}) <==> gz <= 450_000;
  }

  /** Neither the order of the entries nor repeating one of them changes the verdict. */
  lemma EntriesAreASet(tree: Tree, a: seq<Path>, b: seq<Path>, files: set<Path>)
    requires forall file :: file in a <==> file in b
    ensures Passes(tree, a, files) <==> Passes(tree, b, files)
  {
    forall file ensures Reachable(tree, a, file) <==> Reachable(tree, b, file) {
      if Reachable(tree, a, file) {
        var walk :| IsWalk(tree, a, walk) && walk[|walk| - 1] == file;
        assert IsWalk(tree, b, walk);
      }
      if Reachable(tree, b, file) {
        var walk :| IsWalk(tree, b, walk) && walk[|walk| - 1] == file;
        assert IsWalk(tree, a, walk);
      }
    }
    assert a == [] <==> b == [] by {
      if a != [] {
        assert a[0] in b;
      }
      if b != [] {
        assert b[0] in a;
      }
    }
  }

  /** Adding an entry that was reachable anyway, as a preload tag does, changes nothing. */
  lemma PreloadIsFree(tree: Tree, entries: seq<Path>, extra: Path, files: set<Path>)
    requires entries != [] && Reachable(tree, entries, extra)
    ensures Passes(tree, entries, files) <==> Passes(tree, entries + [extra], files)
  {
    forall file ensures Reachable(tree, entries + [extra], file) <==> Reachable(tree, entries, file) {
      if Reachable(tree, entries, file) {
        var walk :| IsWalk(tree, entries, walk) && walk[|walk| - 1] == file;
        assert IsWalk(tree, entries + [extra], walk);
      }
      if Reachable(tree, entries + [extra], file) {
        var walk :| IsWalk(tree, entries + [extra], walk) && walk[|walk| - 1] == file;
        if walk[0] == extra {
          var lead :| IsWalk(tree, entries, lead) && lead[|lead| - 1] == extra;
          var joined := lead + walk[1..];
          assert IsWalk(tree, entries, joined) && joined[|joined| - 1] == file;
        } else {
          assert IsWalk(tree, entries, walk);
        }
      }
    }
  }
}
