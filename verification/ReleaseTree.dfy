/** The release-tree digest and the two-environment reproducibility gate. */
module ReleaseTree {
  import opened Common
  import ChainPin

  /** One item of a manifest's file map, in the order the manifest lists it. */
  datatype FileEntry = FileEntry(path: string, digest: string)

  const NUL: char := '\0'

  // ---- sorted order --------------------------------------------------------------------

  /** Code-point order on strings. */
  predicate Leq(a: string, b: string) {
    a == [] || (b != [] && (a[0] < b[0] || (a[0] == b[0] && Leq(a[1..], b[1..]))))
  }

  lemma {:induction false} LeqTotal(a: string, b: string)
    ensures Leq(a, b) || Leq(b, a)
    ensures Leq(a, b) && Leq(b, a) ==> a == b
  {
    if a != [] && b != [] && a[0] == b[0] {
      LeqTotal(a[1..], b[1..]);
      assert a == [a[0]] + a[1..] && b == [b[0]] + b[1..];
    }
  }

  lemma {:induction false} LeqTransitive(a: string, b: string, c: string)
    requires Leq(a, b) && Leq(b, c)
    ensures Leq(a, c)
  {
    if a != [] && a[0] == b[0] == c[0] {
      LeqTransitive(a[1..], b[1..], c[1..]);
    }
  }

  predicate FirstDifference(a: string, b: string, i: nat) {
    i < |a| && i < |b| && a[..i] == b[..i] && a[i] < b[i]
  }

  lemma LateDifference(a: string, b: string, i: nat)
    requires FirstDifference(a, b, i)
    ensures i > 0 ==> a[0] == b[0]
  {
    if i > 0 {
      assert a[..i][0] == a[0] && b[..i][0] == b[0];
    }
  }

  lemma TailPrefix(a: string, b: string)
    requires a != [] && b != [] && a[0] == b[0]
    ensures a <= b <==> a[1..] <= b[1..]
  {
    assert a == [a[0]] + a[1..] && b == [b[0]] + b[1..];
    if a[1..] <= b[1..] {
      assert forall i | 0 <= i < |a| :: a[i] == b[i];
    }
  }

  lemma DifferenceInTails(a: string, b: string)
    requires a != [] && b != [] && a[0] == b[0]
    ensures (exists i :: FirstDifference(a, b, i)) <==> exists i :: FirstDifference(a[1..], b[1..], i)
  {
    if i: nat :| FirstDifference(a, b, i) {
      assert i > 0 && a[1..][..i - 1] == a[..i][1..] && b[1..][..i - 1] == b[..i][1..];
      assert FirstDifference(a[1..], b[1..], i - 1);
    }
    if i: nat :| FirstDifference(a[1..], b[1..], i) {
      assert a[..i + 1] == [a[0]] + a[1..][..i] && b[..i + 1] == [b[0]] + b[1..][..i];
      assert FirstDifference(a, b, i + 1);
    }
  }

  /** The first differing character decides, and a proper prefix comes first. */
  lemma {:induction false} LeqByFirstDifference(a: string, b: string)
    ensures Leq(a, b) <==>
            a <= b || exists i :: FirstDifference(a, b, i)
  {
    if a != [] && b != [] {
      if a[0] == b[0] {
        LeqByFirstDifference(a[1..], b[1..]);
        TailPrefix(a, b);
        DifferenceInTails(a, b);
      } else {
        if a[0] < b[0] {
          assert FirstDifference(a, b, 0);
        }
        forall i: nat | FirstDifference(a, b, i) ensures i > 0 ==> a[0] == b[0] {
          LateDifference(a, b, i);
        }
      }
    }
  }

  function Insert(path: string, sorted: seq<string>): seq<string> {
    if sorted == [] || Leq(path, sorted[0]) then [path] + sorted else [sorted[0]] + Insert(path, sorted[1..])
  }

  function Sort(paths: seq<string>): seq<string> {
    if paths == [] then [] else Insert(paths[0], Sort(paths[1..]))
  }

  /** Ascending, with no path twice. */
  predicate Ascending(paths: seq<string>) {
    forall i, j | 0 <= i < j < |paths| :: Leq(paths[i], paths[j]) && paths[i] != paths[j]
  }

  predicate NoRepeats(paths: seq<string>) {
    forall i, j | 0 <= i < j < |paths| :: paths[i] != paths[j]
  }

  lemma {:induction false} InsertKeeps(path: string, sorted: seq<string>)
    requires Ascending(sorted) && path !in sorted
    ensures Ascending(Insert(path, sorted))
    ensures forall p :: p in Insert(path, sorted) <==> p == path || p in sorted
  {
    if sorted != [] {
      LeqTotal(path, sorted[0]);
      if Leq(path, sorted[0]) {
        forall j | 0 <= j < |sorted| ensures Leq(path, sorted[j]) {
          if j > 0 {
            LeqTransitive(path, sorted[0], sorted[j]);
          }
        }
      } else {
        var rest := Insert(path, sorted[1..]);
        InsertKeeps(path, sorted[1..]);
        assert forall p :: p in sorted <==> p == sorted[0] || p in sorted[1..];
        forall j | 0 <= j < |rest| ensures Leq(sorted[0], rest[j]) && sorted[0] != rest[j] {
          assert rest[j] in rest;
        }
      }
    }
  }

  lemma {:induction false} SortKeeps(paths: seq<string>)
    requires NoRepeats(paths)
    ensures Ascending(Sort(paths))
    ensures forall p :: p in Sort(paths) <==> p in paths
  {
    if paths != [] {
      SortKeeps(paths[1..]);
      InsertKeeps(paths[0], Sort(paths[1..]));
      assert forall p :: p in paths <==> p == paths[0] || p in paths[1..];
    }
  }

  /** An ascending list is determined by its members. */
  lemma {:induction false} AscendingUnique(a: seq<string>, b: seq<string>)
    requires Ascending(a) && Ascending(b)
    requires forall p :: p in a <==> p in b
    ensures a == b
  {
    assert a == [] <==> b == [] by {
      if b != [] {
        assert b[0] in a;
      }
      if a != [] {
        assert a[0] in b;
      }
    }
    if a != [] {
      assert a[0] in b && b[0] in a;
      LeqTotal(a[0], b[0]);
      assert a[0] == b[0];
      assert forall p :: p in a[1..] <==> p in a && p != a[0];
      assert forall p :: p in b[1..] <==> p in b && p != b[0];
      AscendingUnique(a[1..], b[1..]);
      assert a == [a[0]] + a[1..] && b == [b[0]] + b[1..];
    }
  }

  // ---- file maps -------------------------------------------------------------------------

  function Get(files: seq<FileEntry>, path: string): Option<string> {
    if files == [] then None
    else if files[0].path == path then Some(files[0].digest)
    else Get(files[1..], path)
  }

  function PathsOf(files: seq<FileEntry>): seq<string> {
    seq(|files|, i requires 0 <= i < |files| => files[i].path)
  }

  /** A key appears once, as in any mapping. */
  predicate IsFileMap(files: seq<FileEntry>) { NoRepeats(PathsOf(files)) }

  lemma NoRepeatsGrows(paths: seq<string>, path: string)
    ensures NoRepeats(paths + [path]) <==> NoRepeats(paths) && path !in paths
  {
    var longer := paths + [path];
    if NoRepeats(longer) {
      forall i, j | 0 <= i < j < |paths| ensures paths[i] != paths[j] {
        assert longer[i] != longer[j];
      }
      forall i | 0 <= i < |paths| ensures paths[i] != path {
        assert longer[i] != longer[|paths|];
      }
    }
  }

  /** A list of entries is a file map as long as every entry brings a path that is not there yet. */
  lemma FileMapGrows(files: seq<FileEntry>, entry: FileEntry)
    ensures IsFileMap([])
    ensures IsFileMap(files + [entry]) <==> IsFileMap(files) && entry.path !in PathsOf(files)
  {
    assert PathsOf(files + [entry]) == PathsOf(files) + [entry.path];
    NoRepeatsGrows(PathsOf(files), entry.path);
  }

  ghost predicate SameMap(a: seq<FileEntry>, b: seq<FileEntry>) {
    forall path :: Get(a, path) == Get(b, path)
  }

  lemma {:induction false} GetFinds(files: seq<FileEntry>, path: string)
    ensures Get(files, path).Some? <==> path in PathsOf(files)
  {
    if files != [] {
      GetFinds(files[1..], path);
      var paths := PathsOf(files);
      assert paths[1..] == PathsOf(files[1..]);
      assert path in paths <==> path == paths[0] || path in paths[1..];
    }
  }

  // ---- the tree bytes -----------------------------------------------------------------------

  /** The entries of a map along a list of its paths. */
  function Rows(files: seq<FileEntry>, paths: seq<string>): seq<FileEntry>
    requires forall p | p in paths :: Get(files, p).Some?
  {
    if paths == [] then []
    else [FileEntry(paths[0], Get(files, paths[0]).value)] + Rows(files, paths[1..])
  }

  function Frame(entry: FileEntry): string { entry.path + [NUL] + entry.digest + ['\n'] }

  function Serialise(rows: seq<FileEntry>): string {
    if rows == [] then [] else Frame(rows[0]) + Serialise(rows[1..])
  }

  /** Each row is its path, a NUL byte, its digest and a newline, after all the rows before it. */
  lemma {:induction false} SerialiseSnoc(rows: seq<FileEntry>, last: FileEntry)
    ensures Serialise([]) == ""
    ensures Serialise(rows + [last]) == Serialise(rows) + (last.path + ['\0'] + last.digest + ['\n'])
  {
    if rows == [] {
      assert rows + [last] == [last] && [last][1..] == [];
    } else {
      assert (rows + [last])[1..] == rows[1..] + [last];
      SerialiseSnoc(rows[1..], last);
      Joined(Frame(rows[0]), Serialise(rows[1..]), Frame(last));
    }
  }

  function SortedRows(files: seq<FileEntry>): seq<FileEntry>
    requires IsFileMap(files)
  {
    SortedPathsAreKeys(files);
    Rows(files, Sort(PathsOf(files)))
  }

  /** What the tree digest is taken of. */
  function TreeBytes(files: seq<FileEntry>): string
    requires IsFileMap(files)
  {
    Serialise(SortedRows(files))
  }

  lemma SortedPathsAreKeys(files: seq<FileEntry>)
    requires IsFileMap(files)
    ensures forall p :: p in Sort(PathsOf(files)) <==> Get(files, p).Some?
  {
    SortKeeps(PathsOf(files));
    forall p ensures Get(files, p).Some? <==> p in PathsOf(files) {
      GetFinds(files, p);
    }
  }

  /** The framing characters do not occur where they would be ambiguous. */
  predicate Framed(rows: seq<FileEntry>) {
    forall i | 0 <= i < |rows| :: NUL !in rows[i].path && '\n' !in rows[i].digest
  }

  lemma SplitOnce(p: string, q: string, mark: char, x: string, y: string)
    requires p + [mark] + x == q + [mark] + y
    requires mark !in p && mark !in q
    ensures p == q && x == y
  {
    var left, right := p + [mark] + x, q + [mark] + y;
    assert left[|p|] == mark && right[|q|] == mark;
    assert forall i | 0 <= i < |p| :: left[i] == p[i] && p[i] in p;
    assert forall i | 0 <= i < |q| :: right[i] == q[i] && q[i] in q;
    assert |p| == |q|;
    assert p == left[..|p|] && q == right[..|q|];
    assert x == left[|p| + 1..] && y == right[|q| + 1..];
  }

  /** Different row lists have different bytes: nothing is borrowed from digest lengths. */
  lemma {:induction false} SerialiseInjective(a: seq<FileEntry>, b: seq<FileEntry>)
    requires Framed(a) && Framed(b) && Serialise(a) == Serialise(b)
    ensures a == b
  {
    if a != [] && b != [] {
      var restA, restB := Serialise(a[1..]), Serialise(b[1..]);
      var tailA, tailB := a[0].digest + ['\n'] + restA, b[0].digest + ['\n'] + restB;
      assert Serialise(a) == a[0].path + [NUL] + tailA;
      assert Serialise(b) == b[0].path + [NUL] + tailB;
      SplitOnce(a[0].path, b[0].path, NUL, tailA, tailB);
      SplitOnce(a[0].digest, b[0].digest, '\n', restA, restB);
      SerialiseInjective(a[1..], b[1..]);
      assert a == [a[0]] + a[1..] && b == [b[0]] + b[1..];
    }
  }

  lemma {:induction false} RowsAt(files: seq<FileEntry>, paths: seq<string>)
    requires forall p | p in paths :: Get(files, p).Some?
    ensures |Rows(files, paths)| == |paths|
    ensures forall i | 0 <= i < |paths| :: Rows(files, paths)[i] == FileEntry(paths[i], Get(files, paths[i]).value)
  {
    if paths != [] {
      RowsAt(files, paths[1..]);
    }
  }

  lemma {:induction false} RowsSame(a: seq<FileEntry>, b: seq<FileEntry>, paths: seq<string>)
    requires forall p | p in paths :: Get(a, p).Some? && Get(a, p) == Get(b, p)
    ensures Rows(a, paths) == Rows(b, paths)
  {
    if paths != [] {
      RowsSame(a, b, paths[1..]);
    }
  }

  /** The bytes are a function of the map alone, whatever order it was written in. */
  lemma BytesDependOnMap(a: seq<FileEntry>, b: seq<FileEntry>)
    requires IsFileMap(a) && IsFileMap(b) && SameMap(a, b)
    ensures SortedRows(a) == SortedRows(b)
  {
    SortedPathsAreKeys(a);
    SortedPathsAreKeys(b);
    SortKeeps(PathsOf(a));
    SortKeeps(PathsOf(b));
    forall p ensures p in Sort(PathsOf(a)) <==> p in Sort(PathsOf(b)) {
      assert Get(a, p) == Get(b, p);
    }
    AscendingUnique(Sort(PathsOf(a)), Sort(PathsOf(b)));
    RowsSame(a, b, Sort(PathsOf(a)));
  }

  lemma RowsDetermineMap(a: seq<FileEntry>, b: seq<FileEntry>, path: string)
    requires IsFileMap(a) && IsFileMap(b) && SortedRows(a) == SortedRows(b)
    ensures Get(a, path).Some? ==> Get(a, path) == Get(b, path)
  {
    var pa, pb := Sort(PathsOf(a)), Sort(PathsOf(b));
    SortedPathsAreKeys(a);
    SortedPathsAreKeys(b);
    RowsAt(a, pa);
    RowsAt(b, pb);
    if Get(a, path).Some? {
      var i :| 0 <= i < |pa| && pa[i] == path;
      assert SortedRows(a)[i] == SortedRows(b)[i];
    }
  }

  /** Two file maps have the same tree bytes exactly when they are the same map. */
  lemma TreeBytesFaithful(a: seq<FileEntry>, b: seq<FileEntry>)
    requires IsFileMap(a) && IsFileMap(b)
    requires Framed(SortedRows(a)) && Framed(SortedRows(b))
    ensures TreeBytes(a) == TreeBytes(b) <==> SameMap(a, b)
  {
    if SameMap(a, b) {
      BytesDependOnMap(a, b);
    }
    if TreeBytes(a) == TreeBytes(b) {
      SerialiseInjective(SortedRows(a), SortedRows(b));
      forall path ensures Get(a, path) == Get(b, path) {
        RowsDetermineMap(a, b, path);
        RowsDetermineMap(b, a, path);
      }
    }
  }

  // ---- the digest -----------------------------------------------------------------------------

  datatype Refusal = NoEnvironment | NoAxes | NoFiles | NotSha256(path: string)

  predicate IsSha256(value: string) {
    |value| == 64 && forall i | 0 <= i < 64 :: '0' <= value[i] <= '9' || 'a' <= value[i] <= 'f'
  }

  /** A digest is what printing 32 bytes in lowercase hex gives. */
  lemma Sha256IsPrinted(value: string)
    ensures IsSha256(value) <==> exists bytes: seq<u8> :: |bytes| == 32 && ChainPin.ToHex(bytes) == value
  {
    if IsSha256(value) {
      ChainPin.ParseThenPrint(value);
      assert ChainPin.LowerAll(value) == value;
      var bytes := ChainPin.FromHex(value);
      ChainPin.PrintedLength(bytes);
      assert |bytes| == 32 && ChainPin.ToHex(bytes) == value;
    }
    if bytes: seq<u8> :| |bytes| == 32 && ChainPin.ToHex(bytes) == value {
      ChainPin.PrintedLength(bytes);
    }
  }

  predicate AllSha256(files: seq<FileEntry>) {
    forall i | 0 <= i < |files| :: IsSha256(files[i].digest)
  }

  /** A row carries the digest the map holds for its path. */
  lemma RowIsEntry(files: seq<FileEntry>, i: nat)
    requires IsFileMap(files) && i < |SortedRows(files)|
    ensures var row := SortedRows(files)[i];
            Get(files, row.path) == Some(row.digest) && (AllSha256(files) ==> IsSha256(row.digest))
  {
    SortedPathsAreKeys(files);
    SortedRowsSha256(files);
    RowsAt(files, Sort(PathsOf(files)));
  }

  /** The digest over the sorted tree; `sha` is the hash, left abstract. */
  method TreeDigest(files: seq<FileEntry>, sha: string -> string) returns (result: Result<string, Refusal>)
    requires IsFileMap(files)
    ensures result.Ok? <==> files != [] && AllSha256(files)
    ensures result.Ok? ==> result.value == sha(TreeBytes(files))
    ensures result == Err(NoFiles) <==> files == []
    ensures result.Err? && files != [] ==>
              && result.error.NotSha256? && Get(files, result.error.path).Some?
              && !IsSha256(Get(files, result.error.path).value)
  {
    if files == [] {
      return Err(NoFiles);
    }
    var rows := SortedRows(files);
    SortedRowsSha256(files);
    var fed := "";
    var i := 0;
    while i < |rows|
      invariant 0 <= i <= |rows|
      invariant fed + Serialise(rows[i..]) == Serialise(rows)
      invariant forall j | 0 <= j < i :: IsSha256(rows[j].digest)
    {
      if !IsSha256(rows[i].digest) {
        RowIsEntry(files, i);
        return Err(NotSha256(rows[i].path));
      }
      SerialiseFrom(rows, i);
      fed := fed + Frame(rows[i]);
      i := i + 1;
    }
    assert Serialise(rows[i..]) == [] && fed + [] == fed;
    result := Ok(sha(fed));
  }

  lemma SerialiseFrom(rows: seq<FileEntry>, i: nat)
    requires i < |rows|
    ensures Serialise(rows[i..]) == Frame(rows[i]) + Serialise(rows[i + 1..])
  {
    assert rows[i..][1..] == rows[i + 1..];
  }

  /** Sorting keeps exactly the digests of the map. */
  lemma SortedRowsSha256(files: seq<FileEntry>)
    requires IsFileMap(files)
    ensures AllSha256(SortedRows(files)) <==> AllSha256(files)
  {
    SortedPathsAreKeys(files);
    var paths, rows := Sort(PathsOf(files)), SortedRows(files);
    RowsAt(files, paths);
    if AllSha256(rows) {
      forall j | 0 <= j < |files| ensures IsSha256(files[j].digest) {
        EntryIsValue(files, j);
        assert files[j].path in paths;
        var k :| 0 <= k < |paths| && paths[k] == files[j].path;
        assert rows[k].digest == files[j].digest;
      }
    }
    if AllSha256(files) {
      forall k | 0 <= k < |rows| ensures IsSha256(rows[k].digest) {
        ValueIsEntry(files, paths[k]);
      }
    }
  }

  lemma {:induction false} ValueIsEntry(files: seq<FileEntry>, path: string)
    requires Get(files, path).Some?
    ensures exists j :: 0 <= j < |files| && files[j] == FileEntry(path, Get(files, path).value)
  {
    if files[0].path != path {
      ValueIsEntry(files[1..], path);
      var j :| 0 <= j < |files| - 1 && files[1..][j] == FileEntry(path, Get(files[1..], path).value);
      assert files[j + 1] == FileEntry(path, Get(files, path).value);
    } else {
      assert files[0] == FileEntry(path, Get(files, path).value);
    }
  }

  lemma {:induction false} EntryIsValue(files: seq<FileEntry>, j: nat)
    requires IsFileMap(files) && j < |files|
    ensures Get(files, files[j].path) == Some(files[j].digest)
  {
    if j > 0 {
      var paths := PathsOf(files);
      assert paths[0] != paths[j];
      assert PathsOf(files[1..]) == paths[1..];
      EntryIsValue(files[1..], j - 1);
    }
  }

  // ---- the gate ----------------------------------------------------------------------------------

  /** `axes` are the substantive ones; an axis recorded as null is present with no value. */
  datatype Environment = Environment(id: string, axes: map<string, Option<string>>)

  datatype Manifest = Manifest(
    environment: Option<Environment>,
    files: seq<FileEntry>,
    treeDigest: Option<string>,
    sourceCommit: Option<string>,
    buildRecipeDigest: Option<string>)

  datatype Failure =
    | SameEnvironment
    | DifferentAxes
    | RecipeUnrecorded(axis: string)
    | RecipeDiffers(axis: string)
    | NoDifference
    | DigestMismatch
    | DifferentCommits
    | DifferentRecipes
    | FilesDiffer(paths: seq<string>)

  /** The axes the build recipe fixes. */
  const RECIPE_AXES: seq<string> := ["sourceDateEpoch"]

  predicate RecipeAxisAgrees(a: Environment, b: Environment, axis: string) {
    axis in a.axes && axis in b.axes && a.axes[axis].Some? && a.axes[axis] == b.axes[axis]
  }

  /** Absent or null on either side. */
  predicate Unrecorded(a: Environment, b: Environment, axis: string) {
    axis !in a.axes || axis !in b.axes || a.axes[axis].None? || b.axes[axis].None?
  }

  /** Every recipe axis is recorded on both sides, with one value. */
  predicate RecipeAgrees(a: Environment, b: Environment) {
    forall i | 0 <= i < |RECIPE_AXES| :: RecipeAxisAgrees(a, b, RECIPE_AXES[i])
  }

  method CompareRecipeAxes(a: Environment, b: Environment) returns (failures: seq<Failure>)
    ensures failures == [] <==> RecipeAgrees(a, b)
    ensures forall failure | failure in failures ::
              (failure.RecipeUnrecorded? && Unrecorded(a, b, failure.axis)) ||
              (failure.RecipeDiffers? && !Unrecorded(a, b, failure.axis) &&
               a.axes[failure.axis] != b.axes[failure.axis])
  {
    failures := [];
    var i := 0;
    while i < |RECIPE_AXES|
      invariant 0 <= i <= |RECIPE_AXES|
      invariant failures == [] <==> forall j | 0 <= j < i :: RecipeAxisAgrees(a, b, RECIPE_AXES[j])
      invariant forall failure | failure in failures ::
                  (failure.RecipeUnrecorded? && Unrecorded(a, b, failure.axis)) ||
                  (failure.RecipeDiffers? && !Unrecorded(a, b, failure.axis) &&
                   a.axes[failure.axis] != b.axes[failure.axis])
    {
      var axis := RECIPE_AXES[i];
      var left := if axis in a.axes then a.axes[axis] else None;
      var right := if axis in b.axes then b.axes[axis] else None;
      if left.None? || right.None? {
        failures := failures + [RecipeUnrecorded(axis)];
      } else if left != right {
        failures := failures + [RecipeDiffers(axis)];
      }
      i := i + 1;
    }
  }

  /** An axis that shows two environments: not fixed by the recipe, known on both sides, unequal. */
  predicate ShowsDifference(a: Environment, b: Environment, axis: string) {
    axis in a.axes && axis in b.axes && axis !in RECIPE_AXES &&
    a.axes[axis].Some? && b.axes[axis].Some? && a.axes[axis] != b.axes[axis]
  }

  ghost predicate TwoEnvironments(a: Environment, b: Environment) {
    && a.id != b.id
    && a.axes.Keys == b.axes.Keys
    && RecipeAgrees(a, b)
    && (exists axis :: ShowsDifference(a, b, axis))
  }

  /** Two environments, axis by axis: both record the source date epoch with one value, and some other
      axis is known on both sides with different values. */
  lemma TwoEnvironmentsExactly(a: Environment, b: Environment)
    ensures TwoEnvironments(a, b) <==>
            && a.id != b.id && a.axes.Keys == b.axes.Keys
            && "sourceDateEpoch" in a.axes && a.axes["sourceDateEpoch"].Some?
            && "sourceDateEpoch" in b.axes && b.axes["sourceDateEpoch"] == a.axes["sourceDateEpoch"]
            && exists axis, x, y :: KnownAs(a, axis, x) && KnownAs(b, axis, y) && x != y && axis != "sourceDateEpoch"
  {
    assert RECIPE_AXES[0] == "sourceDateEpoch";
    if axis :| ShowsDifference(a, b, axis) {
      assert KnownAs(a, axis, a.axes[axis].value) && KnownAs(b, axis, b.axes[axis].value);
    }
    if axis, x, y :| KnownAs(a, axis, x) && KnownAs(b, axis, y) && x != y && axis != "sourceDateEpoch" {
      assert ShowsDifference(a, b, axis);
    }
  }

  /** An environment records a value, not null, for an axis. */
  predicate KnownAs(e: Environment, axis: string, value: string) { (axis, Some(value)) in e.axes.Items }

  method CompareEnvironments(a: Environment, b: Environment) returns (differences: set<string>, failures: seq<Failure>)
    ensures failures == [] <==> TwoEnvironments(a, b)
    ensures SameEnvironment in failures <==> a.id == b.id
    ensures DifferentAxes in failures <==> a.axes.Keys != b.axes.Keys
    ensures NoDifference in failures <==> a.axes.Keys == b.axes.Keys && differences == {}
    ensures forall failure | failure in failures ::
              !failure.DigestMismatch? && !failure.DifferentCommits? &&
              !failure.DifferentRecipes? && !failure.FilesDiffer?
    ensures differences ==
            if a.axes.Keys == b.axes.Keys then set axis | axis in a.axes && ShowsDifference(a, b, axis) else {}
  {
    failures := [];
    differences := {};
    if a.id == b.id {
      failures := failures + [SameEnvironment];
    }
    var recipe := CompareRecipeAxes(a, b);
    if a.axes.Keys != b.axes.Keys {
      failures := failures + [DifferentAxes] + recipe;
      return;
    }
    failures := failures + recipe;
    differences := set axis | axis in a.axes && ShowsDifference(a, b, axis);
    if differences == {} {
      failures := failures + [NoDifference];
      assert forall axis :: ShowsDifference(a, b, axis) ==> axis in differences;
    } else {
      var axis :| axis in differences;
      assert ShowsDifference(a, b, axis);
    }
  }

  /** Every path on which the two maps disagree, missing on one side included, in order. */
  method CompareFiles(a: seq<FileEntry>, b: seq<FileEntry>) returns (differing: seq<string>)
    requires IsFileMap(a) && IsFileMap(b)
    ensures forall path :: path in differing <==> Get(a, path) != Get(b, path)
    ensures Ascending(differing)
  {
    var union := PathsOf(a) + OnlyIn(b, a);
    OnlyInKeys(b, a);
    UnionNoRepeats(a, b);
    var paths := Sort(union);
    SortKeeps(union);
    differing := [];
    var i := 0;
    while i < |paths|
      invariant 0 <= i <= |paths|
      invariant forall path :: path in differing <==> path in paths[..i] && Get(a, path) != Get(b, path)
      invariant Ascending(differing)
    {
      assert forall p :: p in paths[..i + 1] <==> p in paths[..i] || p == paths[i];
      if Get(a, paths[i]) != Get(b, paths[i]) {
        forall j | 0 <= j < |differing| ensures Leq(differing[j], paths[i]) && differing[j] != paths[i] {
          assert differing[j] in paths[..i];
        }
        differing := differing + [paths[i]];
      }
      i := i + 1;
    }
    forall path | Get(a, path) != Get(b, path) ensures path in paths {
      GetFinds(a, path);
      GetFinds(b, path);
    }
  }

  function OnlyIn(files: seq<FileEntry>, other: seq<FileEntry>): seq<string> {
    if files == [] then []
    else (if Get(other, files[0].path).None? then [files[0].path] else []) + OnlyIn(files[1..], other)
  }

  lemma {:induction false} OnlyInKeys(files: seq<FileEntry>, other: seq<FileEntry>)
    ensures forall p :: p in OnlyIn(files, other) <==> p in PathsOf(files) && Get(other, p).None?
  {
    if files != [] {
      OnlyInKeys(files[1..], other);
      assert PathsOf(files) == [files[0].path] + PathsOf(files[1..]);
    }
  }

  lemma {:induction false} OnlyInNoRepeats(files: seq<FileEntry>, other: seq<FileEntry>)
    requires IsFileMap(files)
    ensures NoRepeats(OnlyIn(files, other))
  {
    if files != [] {
      var paths, rest := PathsOf(files), PathsOf(files[1..]);
      assert forall i | 0 <= i < |rest| :: rest[i] == paths[i + 1];
      OnlyInNoRepeats(files[1..], other);
      OnlyInKeys(files[1..], other);
      assert paths[0] !in rest;
    }
  }

  lemma UnionNoRepeats(a: seq<FileEntry>, b: seq<FileEntry>)
    requires IsFileMap(a) && IsFileMap(b)
    ensures NoRepeats(PathsOf(a) + OnlyIn(b, a))
  {
    var left, right := PathsOf(a), OnlyIn(b, a);
    OnlyInKeys(b, a);
    OnlyInNoRepeats(b, a);
    forall i, j | 0 <= i < |left| && 0 <= j < |right| ensures left[i] != right[j] {
      GetFinds(a, right[j]);
      assert right[j] in right && left[i] in left;
    }
  }

  predicate WellFormed(m: Manifest) {
    && m.environment.Some? && m.environment.value.id != "" && m.environment.value.axes != map[]
    && m.files != [] && AllSha256(m.files)
  }

  /** Two builds that count as one reproduced release. */
  ghost predicate Reproduced(a: Manifest, b: Manifest, sha: string -> string)
    requires WellFormed(a) && WellFormed(b) && IsFileMap(a.files) && IsFileMap(b.files)
  {
    && TwoEnvironments(a.environment.value, b.environment.value)
    && a.treeDigest == Some(sha(TreeBytes(a.files)))
    && b.treeDigest == Some(sha(TreeBytes(b.files)))
    && a.sourceCommit == b.sourceCommit
    && a.buildRecipeDigest == b.buildRecipeDigest
    && SameMap(a.files, b.files)
  }

  function EnvironmentRefusal(m: Manifest): Option<Refusal> {
    if m.environment.None? || m.environment.value.id == "" then Some(NoEnvironment)
    else if m.environment.value.axes == map[] then Some(NoAxes)
    else None
  }

  /** Everything about the two builds that is not about their environments; `left` and `right`
      are the recomputed digests. */
  method CompareBuilds(a: Manifest, b: Manifest, left: string, right: string) returns (failures: seq<Failure>)
    requires IsFileMap(a.files) && IsFileMap(b.files)
    ensures DigestMismatch in failures <==> a.treeDigest != Some(left) || b.treeDigest != Some(right)
    ensures DifferentCommits in failures <==> a.sourceCommit != b.sourceCommit
    ensures DifferentRecipes in failures <==> a.buildRecipeDigest != b.buildRecipeDigest
    ensures (exists paths :: FilesDiffer(paths) in failures) <==> !SameMap(a.files, b.files)
    ensures failures == [] <==>
              && a.treeDigest == Some(left) && b.treeDigest == Some(right) && a.sourceCommit == b.sourceCommit
              && a.buildRecipeDigest == b.buildRecipeDigest && SameMap(a.files, b.files)
  {
    failures := [];
    if a.treeDigest != Some(left) {
      failures := failures + [DigestMismatch];
    }
    if b.treeDigest != Some(right) {
      failures := failures + [DigestMismatch];
    }
    if a.sourceCommit != b.sourceCommit {
      failures := failures + [DifferentCommits];
    }
    if a.buildRecipeDigest != b.buildRecipeDigest {
      failures := failures + [DifferentRecipes];
    }
    var differing := CompareFiles(a.files, b.files);
    if differing != [] {
      assert differing[0] in differing;
      failures := failures + [FilesDiffer(differing)];
      assert FilesDiffer(differing) in failures;
    }
  }

  /** The comparison: refused on a malformed manifest, otherwise a list of failures. */
  method Check(a: Manifest, b: Manifest, sha: string -> string) returns (result: Result<seq<Failure>, Refusal>)
    requires IsFileMap(a.files) && IsFileMap(b.files)
    ensures result.Ok? <==> WellFormed(a) && WellFormed(b)
    ensures result.Ok? ==> (result.value == [] <==> Reproduced(a, b, sha))
    ensures result.Ok? ==>
              && (DigestMismatch in result.value <==>
                    a.treeDigest != Some(sha(TreeBytes(a.files))) || b.treeDigest != Some(sha(TreeBytes(b.files))))
              && (DifferentCommits in result.value <==> a.sourceCommit != b.sourceCommit)
              && (DifferentRecipes in result.value <==> a.buildRecipeDigest != b.buildRecipeDigest)
              && ((exists paths :: FilesDiffer(paths) in result.value) <==> !SameMap(a.files, b.files))
  {
    if EnvironmentRefusal(a).Some? {
      return Err(EnvironmentRefusal(a).value);
    }
    if EnvironmentRefusal(b).Some? {
      return Err(EnvironmentRefusal(b).value);
    }
    var differences, failures := CompareEnvironments(a.environment.value, b.environment.value);
    var left := TreeDigest(a.files, sha);
    if left.Err? {
      return Err(left.error);
    }
    var right := TreeDigest(b.files, sha);
    if right.Err? {
      return Err(right.error);
    }
    var builds := CompareBuilds(a, b, left.value, right.value);
    assert forall failure :: failure in failures + builds <==> failure in failures || failure in builds;
    result := Ok(failures + builds);
  }

  /** The verdict does not depend on which environment is named first. */
  lemma ReproducedSymmetric(a: Manifest, b: Manifest, sha: string -> string)
    requires WellFormed(a) && WellFormed(b) && IsFileMap(a.files) && IsFileMap(b.files)
    ensures Reproduced(a, b, sha) <==> Reproduced(b, a, sha)
  {
    DifferenceSymmetric(a.environment.value, b.environment.value);
    DifferenceSymmetric(b.environment.value, a.environment.value);
  }

  lemma DifferenceSymmetric(a: Environment, b: Environment)
    ensures TwoEnvironments(a, b) ==> TwoEnvironments(b, a)
  {
    if TwoEnvironments(a, b) {
      var axis :| ShowsDifference(a, b, axis);
      assert ShowsDifference(b, a, axis);
    }
  }

  /** A reproduced release is byte-identical, and both manifests declare the one digest of it. */
  lemma ReproducedIsByteIdentical(a: Manifest, b: Manifest, sha: string -> string)
    requires WellFormed(a) && WellFormed(b) && IsFileMap(a.files) && IsFileMap(b.files) && Reproduced(a, b, sha)
    ensures TreeBytes(a.files) == TreeBytes(b.files)
    ensures a.treeDigest == b.treeDigest == Some(sha(TreeBytes(b.files)))
  {
    BytesDependOnMap(a.files, b.files);
  }

  /** Hexadecimal digests hold no newline, so only the paths have to be free of NUL. */
  lemma Sha256RowsFramed(files: seq<FileEntry>)
    requires IsFileMap(files) && AllSha256(files)
    requires forall i | 0 <= i < |files| :: NUL !in files[i].path
    ensures Framed(SortedRows(files))
  {
    SortedPathsAreKeys(files);
    SortedRowsSha256(files);
    var paths, rows := Sort(PathsOf(files)), SortedRows(files);
    RowsAt(files, paths);
    forall i | 0 <= i < |rows| ensures NUL !in rows[i].path && '\n' !in rows[i].digest {
      ValueIsEntry(files, paths[i]);
      assert IsSha256(rows[i].digest);
    }
  }
}
