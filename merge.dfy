/**
  `merge_dems`: the control policy around the tile mosaic. One input is copied
  through to `merged_dem.tif`; several inputs are first copied, those that
  exist, into `temp_dems/` under zero-padded names numbered by their position
  in the input list, and a mosaic is written only when at least one copy was
  made. What the file system answers (which inputs exist, whether copying,
  opening, compositing and writing went through without an exception) is an
  input of the model; the composite itself is specified in module Raster.
*/
module Merge {

  import opened Wrappers
  import opened Text
  import opened PathOps

  /** What the file system answers during one merge: the input paths that exist,
      and whether every copy, open, composite and write completed without raising. */
  datatype MergeObservations = MergeObservations(existing: set<string>, ioOk: bool)

  /** One `shutil.copy2(source, target)`. */
  datatype Copy = Copy(source: string, target: string)

  function MergedPath(outputDir: string): string
  {
    Join(outputDir, "merged_dem.tif")
  }

  function TempDemDir(outputDir: string): string
  {
    Join(outputDir, "temp_dems")
  }

  /** `f"dem_{i:03d}.tif"`. */
  function TempName(i: nat): (name: string)
    ensures '/' !in name && !IsAbsolute(name)
  {
    "dem_" + ZeroPad3(i) + ".tif"
  }

  /** Distinct positions get distinct temporary names. */
  lemma TempNameInjective(i: nat, j: nat)
    requires TempName(i) == TempName(j)
    ensures i == j
  {
    var a := TempName(i);
    var b := TempName(j);
    assert ZeroPad3(i) == a[4..|a| - 4];
    assert ZeroPad3(j) == b[4..|b| - 4];
    ZeroPad3Injective(i, j);
  }

  /** The copy made for the input at position `i`. */
  function CopyFor(files: seq<string>, i: nat, tempDir: string): Copy
    requires i < |files|
  {
    Copy(files[i], Join(tempDir, TempName(i)))
  }

  /** The positions among the first `m` inputs that the multi-input branch
      copies, in input order: those of the inputs that exist. */
  function CopiedPositions(files: seq<string>, m: nat, existing: set<string>): (ps: seq<nat>)
    requires m <= |files|
    ensures |ps| <= m
    ensures forall k :: 0 <= k < |ps| ==> ps[k] < m
  {
    if m == 0 then []
    else CopiedPositions(files, m - 1, existing) + (if files[m - 1] in existing then [m - 1] else [])
  }

  /** A position is copied exactly when its input exists. */
  lemma {:induction false} CopiedPositionsExact(files: seq<string>, m: nat, existing: set<string>, p: nat)
    requires m <= |files|
    ensures p in CopiedPositions(files, m, existing) <==> p < m && files[p] in existing
  {
    if m > 0 {
      CopiedPositionsExact(files, m - 1, existing, p);
    }
  }

  /** Positions are copied in increasing order, so none twice. */
  lemma {:induction false} CopiedPositionsIncrease(files: seq<string>, m: nat, existing: set<string>)
    requires m <= |files|
    ensures forall a, b :: 0 <= a < b < |CopiedPositions(files, m, existing)| ==>
              CopiedPositions(files, m, existing)[a] < CopiedPositions(files, m, existing)[b]
  {
    if m > 0 {
      CopiedPositionsIncrease(files, m - 1, existing);
    }
  }

  /** The copies made for the given positions, in their order. */
  function CopiesAt(files: seq<string>, ps: seq<nat>, tempDir: string): seq<Copy>
    requires forall k :: 0 <= k < |ps| ==> ps[k] < |files|
  {
    seq(|ps|, k requires 0 <= k < |ps| => CopyFor(files, ps[k], tempDir))
  }

  /** One more position adds its copy at the end. */
  lemma CopiesAtAppend(files: seq<string>, ps: seq<nat>, p: nat, tempDir: string)
    requires forall k :: 0 <= k < |ps| ==> ps[k] < |files|
    requires p < |files|
    ensures CopiesAt(files, ps + [p], tempDir) == CopiesAt(files, ps, tempDir) + [CopyFor(files, p, tempDir)]
  {
    var ps' := ps + [p];
    assert forall k :: 0 <= k < |ps| ==> ps'[k] == ps[k];
  }

  /** The copies of the multi-input branch, in input order: one per input that
      exists, named after its position in the input list. */
  function CopyPlan(files: seq<string>, existing: set<string>, tempDir: string): (plan: seq<Copy>)
    ensures |plan| <= |files|
  {
    CopiesAt(files, CopiedPositions(files, |files|, existing), tempDir)
  }

  /** The copy the plan makes for one input. */
  predicate CopiedFrom(c: Copy, files: seq<string>, existing: set<string>, tempDir: string, i: int)
  {
    0 <= i < |files| && files[i] in existing && c == CopyFor(files, i, tempDir)
  }

  /** Only existing inputs are copied, each to the name of its position. */
  lemma CopyPlanSound(files: seq<string>, existing: set<string>, tempDir: string, c: Copy)
    requires c in CopyPlan(files, existing, tempDir)
    ensures exists i :: CopiedFrom(c, files, existing, tempDir, i)
  {
    var ps := CopiedPositions(files, |files|, existing);
    var k :| 0 <= k < |ps| && CopyPlan(files, existing, tempDir)[k] == c;
    CopiedPositionsExact(files, |files|, existing, ps[k]);
    assert CopiedFrom(c, files, existing, tempDir, ps[k]);
  }

  /** Every existing input is copied. */
  lemma CopyPlanComplete(files: seq<string>, existing: set<string>, tempDir: string, i: nat)
    requires i < |files| && files[i] in existing
    ensures CopyFor(files, i, tempDir) in CopyPlan(files, existing, tempDir)
  {
    var ps := CopiedPositions(files, |files|, existing);
    CopiedPositionsExact(files, |files|, existing, i);
    var k :| 0 <= k < |ps| && ps[k] == i;
    assert CopyPlan(files, existing, tempDir)[k] == CopyFor(files, i, tempDir);
  }

  predicate DistinctTargets(plan: seq<Copy>)
  {
    forall a, b :: 0 <= a < b < |plan| ==> plan[a].target != plan[b].target
  }

  /** No two copies share a target, so no copy overwrites another. */
  lemma CopyPlanTargetsDistinct(files: seq<string>, existing: set<string>, tempDir: string)
    ensures DistinctTargets(CopyPlan(files, existing, tempDir))
  {
    var ps := CopiedPositions(files, |files|, existing);
    var plan := CopyPlan(files, existing, tempDir);
    CopiedPositionsIncrease(files, |files|, existing);
    forall a, b | 0 <= a < b < |plan|
      ensures plan[a].target != plan[b].target
    {
      assert ps[a] < ps[b];
      TargetsDiffer(files, tempDir, ps[a], ps[b]);
    }
  }

  /** Copies for different positions go to different targets. */
  lemma TargetsDiffer(files: seq<string>, tempDir: string, p: nat, q: nat)
    requires p < |files| && q < |files| && p != q
    ensures CopyFor(files, p, tempDir).target != CopyFor(files, q, tempDir).target
  {
    if CopyFor(files, p, tempDir).target == CopyFor(files, q, tempDir).target {
      JoinInjective(tempDir, TempName(p), TempName(q));
      TempNameInjective(p, q);
    }
  }

  /** What `merge_dems` returns. */
  function MergeResult(files: seq<string>, outputDir: string, obs: MergeObservations): (r: Option<string>)
    ensures r.Some? ==> r.value == MergedPath(outputDir)
    ensures r.Some? ==> obs.ioOk && exists i :: 0 <= i < |files| && files[i] in obs.existing
    ensures obs.ioOk && |files| == 1 && files[0] in obs.existing ==> r.Some?
  {
    if |files| == 1 then
      if files[0] in obs.existing && obs.ioOk then Some(MergedPath(outputDir)) else None
    else
      var plan := CopyPlan(files, obs.existing, TempDemDir(outputDir));
      if |plan| == 0 || !obs.ioOk then None
      else
        CopyPlanSound(files, obs.existing, TempDemDir(outputDir), plan[0]);
        Some(MergedPath(outputDir))
  }

  /** With several inputs, a mosaic is written exactly when some input exists
      (and nothing raised). */
  lemma MergeNeedsAnExistingInput(files: seq<string>, outputDir: string, obs: MergeObservations)
    requires |files| != 1 && obs.ioOk
    ensures MergeResult(files, outputDir, obs).Some? <==>
              exists i :: 0 <= i < |files| && files[i] in obs.existing
  {
    if i :| 0 <= i < |files| && files[i] in obs.existing {
      CopyPlanComplete(files, obs.existing, TempDemDir(outputDir), i);
    }
  }

  /** `merge_dems(dem_files, output_dir)`: returns the merged path or None,
      and the copies it made, in order. */
  method MergeDems(demFiles: seq<string>, outputDir: string, obs: MergeObservations)
    returns (merged: Option<string>, copies: seq<Copy>)
    ensures merged == MergeResult(demFiles, outputDir, obs)
    ensures |demFiles| == 1 ==> copies == [Copy(demFiles[0], MergedPath(outputDir))]
    ensures |demFiles| != 1 ==> copies == CopyPlan(demFiles, obs.existing, TempDemDir(outputDir))
  {
    if |demFiles| == 1 {
      // a single DEM is passed through by copying it to the merged path
      copies := [Copy(demFiles[0], MergedPath(outputDir))];
      if demFiles[0] in obs.existing && obs.ioOk {
        merged := Some(MergedPath(outputDir));
      } else {
        merged := None;
      }
      return;
    }
    var tempDir := TempDemDir(outputDir);
    copies := [];
    for i := 0 to |demFiles|
      invariant copies == CopiesAt(demFiles, CopiedPositions(demFiles, i, obs.existing), tempDir)
    {
      if demFiles[i] in obs.existing {
        CopiesAtAppend(demFiles, CopiedPositions(demFiles, i, obs.existing), i, tempDir);
        copies := copies + [Copy(demFiles[i], Join(tempDir, TempName(i)))];
      }
    }
    // the sources opened are the files globbed from the fresh temporary directory
    if |copies| == 0 {
      merged := None;
    } else if obs.ioOk {
      merged := Some(MergedPath(outputDir));
    } else {
      merged := None;
    }
  }

}
