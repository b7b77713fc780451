// The store of requested viewer poses and the bounded history of rendered outputs.
module ViewerStores {
  import opened Common
  import opened FrameModel
  import opened SceneVersions

  type Generation = nat

  // What is asked for, without the generation that names it.
  datatype Request = Request(pose: Pose4f, intrinsics: CameraIntrinsics, imageSize: ImageSize)

  datatype ViewerPose = ViewerPose(request: Request, generation: Generation)

  // ------------------------------------------------------------ matrix product

  // Row `row` of the left matrix times column `column` of the right one, up to an index.
  function PartialDot(lhs: Pose4f, rhs: Pose4f, row: nat, column: nat, n: nat): real
    requires row < 4 && column < 4 && n <= 4
  {
    if n == 0 then 0.0
    else PartialDot(lhs, rhs, row, column, n - 1) + lhs[4 * row + (n - 1)] * rhs[4 * (n - 1) + column]
  }

  function Entry(lhs: Pose4f, rhs: Pose4f, k: nat): real
    requires k < 16
  {
    PartialDot(lhs, rhs, k / 4, k % 4, 4)
  }

  function Product(lhs: Pose4f, rhs: Pose4f): (p: Pose4f) {
    seq(16, k requires 0 <= k < 16 => Entry(lhs, rhs, k))
  }

  method MultiplyRowMajor(lhs: Pose4f, rhs: Pose4f) returns (result: Pose4f)
    ensures result == Product(lhs, rhs)
  {
    var matrix: seq<real> := [];
    var row := 0;
    while row < 4
      invariant row <= 4 && |matrix| == 4 * row
      invariant forall k :: 0 <= k < |matrix| ==> matrix[k] == Entry(lhs, rhs, k)
    {
      var column := 0;
      while column < 4
        invariant column <= 4 && |matrix| == 4 * row + column
        invariant forall k :: 0 <= k < |matrix| ==> matrix[k] == Entry(lhs, rhs, k)
      {
        var value := 0.0;
        var index := 0;
        while index < 4
          invariant index <= 4 && value == PartialDot(lhs, rhs, row, column, index)
        {
          value := value + lhs[row * 4 + index] * rhs[index * 4 + column];
          index := index + 1;
        }
        assert (4 * row + column) / 4 == row && (4 * row + column) % 4 == column;
        matrix := matrix + [value];
        column := column + 1;
      }
      row := row + 1;
    }
    result := matrix;
    assert result == Product(lhs, rhs);
  }

  // An entry of a product, written out.
  lemma ProductEntry(lhs: Pose4f, rhs: Pose4f, row: nat, column: nat)
    requires row < 4 && column < 4
    ensures Product(lhs, rhs)[4 * row + column]
            == lhs[4 * row] * rhs[column] + lhs[4 * row + 1] * rhs[4 + column]
               + lhs[4 * row + 2] * rhs[8 + column] + lhs[4 * row + 3] * rhs[12 + column]
  {
    assert (4 * row + column) / 4 == row && (4 * row + column) % 4 == column;
    assert PartialDot(lhs, rhs, row, column, 1) == lhs[4 * row] * rhs[column];
    assert PartialDot(lhs, rhs, row, column, 2) == lhs[4 * row] * rhs[column] + lhs[4 * row + 1] * rhs[4 + column];
    assert PartialDot(lhs, rhs, row, column, 3)
        == lhs[4 * row] * rhs[column] + lhs[4 * row + 1] * rhs[4 + column] + lhs[4 * row + 2] * rhs[8 + column];
  }

  const IDENTITY: Pose4f := [1.0, 0.0, 0.0, 0.0, 0.0, 1.0, 0.0, 0.0, 0.0, 0.0, 1.0, 0.0, 0.0, 0.0, 0.0, 1.0]

  lemma IdentityAt(row: nat, i: nat)
    requires row < 4 && i < 4
    ensures IDENTITY[4 * row + i] == if i == row then 1.0 else 0.0
  {
    if row == 0 {
    } else if row == 1 {
    } else if row == 2 {
    } else {
      assert row == 3;
    }
  }

  // A sum of which one term counts.
  lemma PickOne(x0: real, x1: real, x2: real, x3: real, e0: real, e1: real, e2: real, e3: real, k: nat)
    requires k < 4
    requires e0 == (if k == 0 then 1.0 else 0.0) && e1 == (if k == 1 then 1.0 else 0.0)
    requires e2 == (if k == 2 then 1.0 else 0.0) && e3 == (if k == 3 then 1.0 else 0.0)
    ensures e0 * x0 + e1 * x1 + e2 * x2 + e3 * x3 == [x0, x1, x2, x3][k]
    ensures x0 * e0 + x1 * e1 + x2 * e2 + x3 * e3 == [x0, x1, x2, x3][k]
  {
  }

  lemma IdentityEntry(p: Pose4f, row: nat, column: nat)
    requires row < 4 && column < 4
    ensures Product(IDENTITY, p)[4 * row + column] == p[4 * row + column] == Product(p, IDENTITY)[4 * row + column]
  {
    ProductEntry(IDENTITY, p, row, column);
    ProductEntry(p, IDENTITY, row, column);
    IdentityAt(row, 0);
    IdentityAt(row, 1);
    IdentityAt(row, 2);
    IdentityAt(row, 3);
    IdentityAt(0, column);
    IdentityAt(1, column);
    IdentityAt(2, column);
    IdentityAt(3, column);
    PickOne(p[column], p[4 + column], p[8 + column], p[12 + column],
            IDENTITY[4 * row], IDENTITY[4 * row + 1], IDENTITY[4 * row + 2], IDENTITY[4 * row + 3], row);
    PickOne(p[4 * row], p[4 * row + 1], p[4 * row + 2], p[4 * row + 3],
            IDENTITY[column], IDENTITY[4 + column], IDENTITY[8 + column], IDENTITY[12 + column], column);
  }

  // On either side.
  lemma IdentityIsNeutral(p: Pose4f)
    ensures Product(IDENTITY, p) == p && Product(p, IDENTITY) == p
  {
    forall k | 0 <= k < 16 ensures Product(IDENTITY, p)[k] == p[k] == Product(p, IDENTITY)[k] {
      IdentityEntry(p, k / 4, k % 4);
      assert 4 * (k / 4) + k % 4 == k;
    }
  }

  lemma ProductAt(lhs: Pose4f, rhs: Pose4f, row: nat, column: nat)
    requires row < 4 && column < 4
    ensures Product(lhs, rhs)[4 * row + column] == PartialDot(lhs, rhs, row, column, 4)
  {
    assert (4 * row + column) / 4 == row && (4 * row + column) % 4 == column;
  }

  // An entry of (a * b) * c with only n terms of the inner and m of the outer sums.
  function DoubleSum(a: Pose4f, b: Pose4f, c: Pose4f, row: nat, column: nat, n: nat, m: nat): real
    requires row < 4 && column < 4 && n <= 4 && m <= 4
  {
    if m == 0 then 0.0
    else DoubleSum(a, b, c, row, column, n, m - 1) + PartialDot(a, b, row, m - 1, n) * c[4 * (m - 1) + column]
  }

  lemma {:induction false} DoubleSumStep(a: Pose4f, b: Pose4f, c: Pose4f, row: nat, column: nat, n: nat, m: nat)
    requires row < 4 && column < 4 && 0 < n <= 4 && m <= 4
    ensures DoubleSum(a, b, c, row, column, n, m)
            == DoubleSum(a, b, c, row, column, n - 1, m) + a[4 * row + (n - 1)] * PartialDot(b, c, n - 1, column, m)
  {
    if m > 0 {
      DoubleSumStep(a, b, c, row, column, n, m - 1);
      TermStep(PartialDot(a, b, row, m - 1, n - 1), a[4 * row + (n - 1)], b[4 * (n - 1) + (m - 1)],
               c[4 * (m - 1) + column], PartialDot(b, c, n - 1, column, m - 1));
    }
  }

  lemma TermStep(before: real, a: real, b: real, c: real, after: real)
    ensures (before + a * b) * c + a * after == before * c + a * (after + b * c)
  {
  }

  lemma {:induction false} DoubleSumOfNothing(a: Pose4f, b: Pose4f, c: Pose4f, row: nat, column: nat, m: nat)
    requires row < 4 && column < 4 && m <= 4
    ensures DoubleSum(a, b, c, row, column, 0, m) == 0.0
  {
    if m > 0 {
      DoubleSumOfNothing(a, b, c, row, column, m - 1);
    }
  }

  lemma DotOfProduct(a: Pose4f, b: Pose4f, c: Pose4f, row: nat, column: nat, n: nat, all: nat)
    requires row < 4 && column < 4 && 0 < n <= 4 == all
    ensures PartialDot(a, Product(b, c), row, column, n)
            == PartialDot(a, Product(b, c), row, column, n - 1)
               + a[4 * row + (n - 1)] * PartialDot(b, c, n - 1, column, all)
  {
    ProductAt(b, c, n - 1, column);
  }

  lemma {:induction false} LeftIsDoubleSum(a: Pose4f, b: Pose4f, c: Pose4f, row: nat, column: nat, n: nat, all: nat)
    requires row < 4 && column < 4 && n <= 4 == all
    ensures PartialDot(a, Product(b, c), row, column, n) == DoubleSum(a, b, c, row, column, n, all)
    decreases n
  {
    if n == 0 {
      DoubleSumOfNothing(a, b, c, row, column, all);
    } else {
      LeftIsDoubleSum(a, b, c, row, column, n - 1, all);
      DoubleSumStep(a, b, c, row, column, n, all);
      DotOfProduct(a, b, c, row, column, n, all);
    }
  }

  lemma {:induction false} RightIsDoubleSum(a: Pose4f, b: Pose4f, c: Pose4f, row: nat, column: nat, m: nat)
    requires row < 4 && column < 4 && m <= 4
    ensures PartialDot(Product(a, b), c, row, column, m) == DoubleSum(a, b, c, row, column, 4, m)
  {
    if m > 0 {
      RightIsDoubleSum(a, b, c, row, column, m - 1);
      ProductAt(a, b, row, m - 1);
    }
  }

  lemma EntryAssociates(a: Pose4f, b: Pose4f, c: Pose4f, row: nat, column: nat)
    requires row < 4 && column < 4
    ensures Product(a, Product(b, c))[4 * row + column] == Product(Product(a, b), c)[4 * row + column]
  {
    ProductAt(a, Product(b, c), row, column);
    ProductAt(Product(a, b), c, row, column);
    LeftIsDoubleSum(a, b, c, row, column, 4, 4);
    RightIsDoubleSum(a, b, c, row, column, 4);
  }

  lemma ProductAssociates(a: Pose4f, b: Pose4f, c: Pose4f)
    ensures Product(a, Product(b, c)) == Product(Product(a, b), c)
  {
    var left, right := Product(a, Product(b, c)), Product(Product(a, b), c);
    forall k | 0 <= k < 16 ensures left[k] == right[k] {
      EntryAssociates(a, b, c, k / 4, k % 4);
      assert 4 * (k / 4) + k % 4 == k;
    }
  }

  // ------------------------------------------------------------------ pose store

  datatype Poses = Poses(latest: Option<ViewerPose>, baseline: Option<ViewerPose>, next: Generation) {
    // Files a request under its own generation, or the next free one if that is taken.
    function Filed(v: ViewerPose): Poses {
      var g := Max(v.generation, next);
      Poses(Some(ViewerPose(v.request, g)), baseline, g + 1)
    }

    function Rebased(): Poses {
      this.(baseline := latest)
    }

    // The request that a relative pose stands for.
    function Relative(relative: Pose4f): Request
      requires baseline.Some?
    {
      baseline.value.request.(pose := Product(relative, baseline.value.request.pose))
    }

    predicate Repeats(relative: Pose4f)
      requires baseline.Some?
    {
      latest.Some? && latest.value.request == Relative(relative)
    }

    function Moved(relative: Pose4f): Poses {
      if baseline.None? || Repeats(relative) then this
      else Filed(ViewerPose(Relative(relative), baseline.value.generation))
    }

    predicate NewerThan(generation: Generation) {
      latest.Some? && latest.value.generation > generation
    }
  }

  const NO_POSES := Poses(None, None, 1)

  // After a rebase the identity asks for what is already there.
  lemma IdentityAfterRebaseIsNoOp(poses: Poses)
    ensures poses.Rebased().Moved(IDENTITY) == poses.Rebased()
  {
    if poses.latest.Some? {
      IdentityIsNeutral(poses.latest.value.request.pose);
    }
  }

  // Relative poses do not accumulate: between two rebases the result depends on the
  // last one alone, however many came before it.
  function MovedAll(poses: Poses, relatives: seq<Pose4f>): Poses {
    if relatives == [] then poses else MovedAll(poses, relatives[..|relatives| - 1]).Moved(relatives[|relatives| - 1])
  }

  lemma {:induction false} RelativePosesDoNotAccumulate(poses: Poses, relatives: seq<Pose4f>)
    requires poses.baseline.Some? && relatives != []
    ensures MovedAll(poses, relatives).baseline == poses.baseline
    ensures MovedAll(poses, relatives).latest.Some?
    ensures MovedAll(poses, relatives).latest.value.request == poses.Relative(relatives[|relatives| - 1])
  {
    if |relatives| > 1 {
      RelativePosesDoNotAccumulate(poses, relatives[..|relatives| - 1]);
    }
  }

  // What a relative move asks for, written out: the relative pose acts on the left
  // of the baseline, and size and intrinsics are the baseline's.
  lemma RelativeMoveInWords(poses: Poses, relative: Pose4f, row: nat, column: nat)
    requires poses.baseline.Some? && row < 4 && column < 4
    ensures poses.Moved(relative).latest.Some?
    ensures var base, asked := poses.baseline.value.request, poses.Moved(relative).latest.value.request;
      && asked.pose[4 * row + column]
         == relative[4 * row] * base.pose[column] + relative[4 * row + 1] * base.pose[4 + column]
            + relative[4 * row + 2] * base.pose[8 + column] + relative[4 * row + 3] * base.pose[12 + column]
      && asked.intrinsics == base.intrinsics && asked.imageSize == base.imageSize
  {
    ProductEntry(relative, poses.baseline.value.request.pose, row, column);
  }

  // Moving by a, rebasing and moving by b asks for what one move by b * a asks for.
  lemma MovesCompose(poses: Poses, a: Pose4f, b: Pose4f)
    requires poses.baseline.Some?
    ensures poses.Moved(a).Rebased().Moved(b).latest.Some? && poses.Moved(Product(b, a)).latest.Some?
    ensures poses.Moved(a).Rebased().Moved(b).latest.value.request == poses.Moved(Product(b, a)).latest.value.request
  {
    ProductAssociates(b, a, poses.baseline.value.request.pose);
  }

  // A move files nothing exactly if there is no baseline or the latest request is
  // already what it asks for; otherwise it takes a generation never used before.
  lemma MovesFileUnlessRepeated(poses: Poses, relative: Pose4f)
    ensures poses.Moved(relative).baseline == poses.baseline
    ensures poses.baseline.None? ==> poses.Moved(relative) == poses
    ensures poses.baseline.Some? ==>
      var moved := poses.Moved(relative);
      if poses.latest.Some? && poses.latest.value.request == moved.latest.value.request then moved == poses
      else moved.latest.value.generation >= poses.next && moved.next == moved.latest.value.generation + 1
           && moved.latest.value.generation >= poses.baseline.value.generation
  {
  }

  // A pose keeps the generation it came with if that one is free, and takes the
  // next free one otherwise.
  lemma FilingInWords(poses: Poses, v: ViewerPose)
    ensures var g := if v.generation >= poses.next then v.generation else poses.next;
      poses.Filed(v) == Poses(Some(ViewerPose(v.request, g)), poses.baseline, g + 1)
  {
  }

  class ViewerPoseStore {
    var latestPose: Option<ViewerPose>
    var relativeBaselinePose: Option<ViewerPose>
    var nextGeneration: Generation

    constructor ()
      ensures View() == NO_POSES
    {
      latestPose, relativeBaselinePose, nextGeneration := None, None, 1;
    }

    function View(): Poses
      reads this
    {
      Poses(latestPose, relativeBaselinePose, nextGeneration)
    }

    method Update(v: ViewerPose) returns (stored: ViewerPose)
      modifies this
      ensures View() == old(View()).Filed(v) && latestPose == Some(stored)
    {
      stored := v;
      if stored.generation < nextGeneration {
        stored := stored.(generation := nextGeneration);
      }
      nextGeneration := stored.generation + 1;
      latestPose := Some(stored);
    }

    method ResetRelativeBaseline() returns (ok: bool)
      modifies this`relativeBaselinePose
      ensures ok <==> latestPose.Some?
      ensures View() == old(View()).Rebased()
    {
      if latestPose.None? {
        relativeBaselinePose := None;
        return false;
      }
      relativeBaselinePose := latestPose;
      return true;
    }

    method ApplyRelativePose(relative: Pose4f) returns (stored: Option<ViewerPose>)
      modifies this
      ensures View() == old(View()).Moved(relative)
      ensures stored.Some? <==> old(relativeBaselinePose).Some? && !old(View()).Repeats(relative)
      ensures stored.Some? ==> stored == latestPose
    {
      if relativeBaselinePose.None? {
        return None;
      }
      var base := relativeBaselinePose.value;
      var product := MultiplyRowMajor(relative, base.request.pose);
      var nextPose := ViewerPose(base.request.(pose := product), base.generation);
      if latestPose.Some? && latestPose.value.request == nextPose.request {
        return None;
      }
      if nextPose.generation < nextGeneration {
        nextPose := nextPose.(generation := nextGeneration);
      }
      nextGeneration := nextPose.generation + 1;
      latestPose := Some(nextPose);
      return Some(nextPose);
    }
  }

  // ---------------------------------------------------------------- output store

  type Image = seq<byte>

  datatype RenderOutput = RenderOutput(
    rgb: Image,
    imageSize: ImageSize,
    poseGeneration: Generation,
    sceneVersionId: SceneVersionId,
    cached: bool
  )

  ghost predicate IsSuffix<T>(part: seq<T>, log: seq<T>) {
    |part| <= |log| && part == log[|log| - |part|..]
  }

  lemma GrownSuffix<T>(part: seq<T>, log: seq<T>, x: T, capacity: nat)
    requires capacity >= 1 && part == LastOf(log, capacity)
    ensures IsSuffix(part + [x], log + [x]) && (|part + [x]| >= capacity || part + [x] == log + [x])
  {
  }

  lemma DropFirst<T>(part: seq<T>, log: seq<T>)
    requires IsSuffix(part, log) && part != []
    ensures IsSuffix(part[1..], log)
  {
  }

  lemma SuffixIsLast<T>(part: seq<T>, log: seq<T>, capacity: nat)
    requires IsSuffix(part, log) && |part| <= capacity && (|part| >= capacity || part == log)
    ensures part == LastOf(log, capacity)
  {
  }

  class RenderOutputStore {
    const capacity: nat
    var history: seq<RenderOutput>
    var latestOutput: Option<RenderOutput>
    ghost var log: seq<RenderOutput>  // everything that was ever published

    constructor (capacity: nat)
      ensures this.capacity == Max(1, capacity) && Valid() && log == []
    {
      this.capacity := Max(1, capacity);
      history, latestOutput, log := [], None, [];
    }

    // The newest outputs of the log are held, up to the capacity.
    ghost predicate Valid()
      reads this
    {
      && capacity >= 1 && history == LastOf(log, capacity)
      && latestOutput == (if log == [] then None else Some(log[|log| - 1]))
    }

    method Publish(output: RenderOutput)
      requires Valid()
      modifies this
      ensures Valid() && log == old(log) + [output]
    {
      GrownSuffix(history, log, output, capacity);
      log := log + [output];
      history := history + [output];
      latestOutput := Some(output);
      TrimHistory();
    }

    // The loop that drops the oldest outputs.
    method TrimHistory()
      requires capacity >= 1 && IsSuffix(history, log) && (|history| >= capacity || history == log)
      modifies this`history
      ensures history == LastOf(log, capacity)
    {
      while |history| > capacity
        invariant IsSuffix(history, log) && (|history| >= capacity || history == log)
      {
        DropFirst(history, log);
        history := history[1..];
      }
      SuffixIsLast(history, log, capacity);
    }

    method Latest() returns (output: Option<RenderOutput>)
      requires Valid()
      ensures output == if log == [] then None else Some(log[|log| - 1])
    {
      output := latestOutput;
    }

    // The newest outputs that are still held, oldest of them first.
    method Recent(count: nat) returns (outputs: seq<RenderOutput>)
      requires Valid()
      ensures outputs == LastOf(log, if count < |history| then count else |history|)
    {
      var clampedCount := if count < |history| then count else |history|;
      var start := |history| - clampedCount;
      outputs := [];
      var index := start;
      while index < |history|
        invariant start <= index <= |history|
        invariant outputs == history[start..index]
      {
        outputs := outputs + [history[index]];
        index := index + 1;
      }
      LastOfLast(log, capacity, clampedCount);
    }
  }

  lemma LastOfLast<T>(log: seq<T>, capacity: nat, count: nat)
    requires count <= |LastOf(log, capacity)|
    ensures LastOf(log, capacity)[|LastOf(log, capacity)| - count..] == LastOf(log, count)
  {
  }
}
