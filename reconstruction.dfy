/**
  Stereo reconstruction of ASTER L1A archives: `run_asp_processing` for one
  archive, and `process_asp_reconstruction` over all uploaded archives followed
  by the merge policy.

  One archive goes through a fixed chain of checks, and the first one that
  fails ends the run with no DEM:
    0. the archive extracts (a corrupt zip raises),
    1. the extraction holds at least one `.tif`,
    2. the tool installation is ready,
    3. `aster2asp` exits with 0,
    4. both a `*Band3N.tif` and a `*Band3B.tif` were produced,
    5. `stereo` exits with 0,
    6. the point cloud `stereo-PC.tif` exists,
    7. `point2dem` exits with 0,
    8. a `dem_<base>*DEM.tif` file was produced.
  The three tools run just before checks 3, 5 and 7. A timeout or an exception
  during a tool run counts as that tool failing; any result ends in None.
*/
module Reconstruction {

  import opened Wrappers
  import opened Text
  import opened PathOps
  import opened ToolRuns
  import Merge

  /** The settings the reconstruction form passes down. `filterMode` is
      accepted and never used. */
  datatype AspConfig = AspConfig(resolution: nat, coordSystem: string, algorithm: string,
                                 subpixel: nat, filterMode: nat)

  /** The EPSG code handed to `point2dem`: WGS84 for the WGS84 choice, and the
      fixed code of UTM zone 43N for every other choice, including a custom one. */
  function TargetSrs(coordSystem: string): (srs: string)
    ensures srs == "EPSG:4326" <==> coordSystem == "EPSG:4326 (WGS84)"
    ensures srs != "EPSG:4326" ==> srs == "EPSG:32643"
  {
    if coordSystem == "Auto (Local UTM)" then "EPSG:32643"
    else if coordSystem == "EPSG:4326 (WGS84)" then "EPSG:4326"
    else "EPSG:32643"
  }

  /** Both EPSG codes are single shell words. */
  lemma SrsHasNoSpace(coordSystem: string)
    ensures ' ' !in TargetSrs(coordSystem)
  {
    var a := "EPSG:4326";
    var b := "EPSG:32643";
    assert forall k :: 0 <= k < |a| ==> a[k] != ' ';
    assert forall k :: 0 <= k < |b| ==> b[k] != ' ';
  }

  // ---------------------------------------------------------------------------
  // Derived paths

  /** `splitext(basename(file_path))[0]`. */
  function BaseName(filePath: string): (base: string)
    ensures '/' !in base
  {
    var name := Basename(filePath);
    var root := SplitextRoot(name);
    assert forall c :: c in root ==> c in name;
    root
  }

  function WorkDir(outputDir: string): string
  {
    Join(outputDir, "asp_work")
  }

  function ExtractDir(outputDir: string): string
  {
    Join(WorkDir(outputDir), "extracted")
  }

  function AspOutputDir(outputDir: string): string
  {
    Join(WorkDir(outputDir), "asp")
  }

  function StereoDir(outputDir: string): string
  {
    Join(WorkDir(outputDir), "stereo")
  }

  function PointCloudPath(outputDir: string): string
  {
    Join(StereoDir(outputDir), "stereo-PC.tif")
  }

  /** The prefix `point2dem` writes under: `output_dir/dem_<base>`. */
  function DemOutput(outputDir: string, filePath: string): (p: string)
    ensures Basename(p) == "dem_" + BaseName(filePath)
  {
    var name := "dem_" + BaseName(filePath);
    DemNameHasNoSeparator(BaseName(filePath));
    BasenameOfJoin(outputDir, name);
    Join(outputDir, name)
  }

  lemma DemNameHasNoSeparator(base: string)
    requires '/' !in base
    ensures '/' !in "dem_" + base
  {
    var prefix := "dem_";
    assert prefix[0] != '/' && prefix[1] != '/' && prefix[2] != '/' && prefix[3] != '/';
    CharNotInAppend('/', prefix, base);
  }

  lemma NameOfArchive(stem: string)
    requires '/' !in stem && exists k :: 0 <= k < |stem| && stem[k] != '.'
    ensures '/' !in stem + ".zip"
    ensures SplitextRoot(stem + ".zip") == stem
  {
    assert stem + "." + "zip" == stem + ".zip";
    SplitextRootOfName(stem, "zip");
    assert forall k :: 0 <= k < |stem + ".zip"| ==> (stem + ".zip")[k] != '/' by {
      forall k | 0 <= k < |stem + ".zip"|
        ensures (stem + ".zip")[k] != '/'
      {
        if k < |stem| { assert (stem + ".zip")[k] == stem[k]; }
      }
    }
  }

  /** The base name of `dir/<stem>.zip` is `<stem>`. */
  lemma BaseNameOfArchive(dir: string, stem: string)
    requires '/' !in stem && exists k :: 0 <= k < |stem| && stem[k] != '.'
    ensures BaseName(Join(dir, stem + ".zip")) == stem
  {
    var name := stem + ".zip";
    NameOfArchive(stem);
    BasenameOfJoin(dir, name);
    assert BaseName(Join(dir, name)) == SplitextRoot(name);
  }

  /** An archive `dir/<stem>.zip` produces DEMs under `output_dir/dem_<stem>`. */
  lemma DemOutputOfArchive(outputDir: string, dir: string, stem: string)
    requires '/' !in stem && exists k :: 0 <= k < |stem| && stem[k] != '.'
    ensures DemOutput(outputDir, Join(dir, stem + ".zip")) == Join(outputDir, "dem_" + stem)
  {
    BaseNameOfArchive(dir, stem);
  }

  /** Archives with different base names write to different prefixes. */
  lemma DemOutputsDistinct(outputDir: string, file1: string, file2: string)
    requires BaseName(file1) != BaseName(file2)
    ensures DemOutput(outputDir, file1) != DemOutput(outputDir, file2)
  {
    var n1 := "dem_" + BaseName(file1);
    var n2 := "dem_" + BaseName(file2);
    assert n1[4..] == BaseName(file1) && n2[4..] == BaseName(file2);
    if Join(outputDir, n1) == Join(outputDir, n2) {
      JoinInjective(outputDir, n1, n2);
    }
  }

  // ---------------------------------------------------------------------------
  // Command lines, each the space-joined argument list the shell splits again

  function Aster2AspArgs(outputDir: string): seq<string>
  {
    Aster2AspList(ExtractDir(outputDir) + "/*.tif", AspOutputDir(outputDir) + "/asp")
  }

  function Aster2AspList(pattern: string, prefix: string): seq<string>
  {
    ["aster2asp", pattern, "-o", prefix]
  }

  function StereoArgs(outputDir: string, cfg: AspConfig, left: string, right: string): seq<string>
  {
    StereoList(cfg.algorithm, cfg.subpixel, left, right, StereoDir(outputDir) + "/stereo")
  }

  function StereoList(algorithm: string, subpixel: nat, left: string, right: string, prefix: string): seq<string>
  {
    ["stereo", "-t", "aster", "--stereo-algorithm", algorithm,
     "--subpixel-mode", Decimal(subpixel), left, right, prefix]
  }

  function Point2DemArgs(outputDir: string, filePath: string, cfg: AspConfig): seq<string>
  {
    Point2DemList(PointCloudPath(outputDir), DemOutput(outputDir, filePath), cfg.resolution,
                  TargetSrs(cfg.coordSystem))
  }

  /** No argument holds a space, so the shell sees exactly these words. */
  predicate SpaceFree(args: seq<string>)
  {
    forall k :: 0 <= k < |args| ==> ' ' !in args[k]
  }

  function Aster2AspCommand(outputDir: string): string
  {
    JoinWith(Aster2AspArgs(outputDir), ' ')
  }

  function StereoCommand(outputDir: string, cfg: AspConfig, left: string, right: string): string
  {
    JoinWith(StereoArgs(outputDir, cfg, left, right), ' ')
  }

  function Point2DemCommand(outputDir: string, filePath: string, cfg: AspConfig): string
  {
    JoinWith(Point2DemArgs(outputDir, filePath, cfg), ' ')
  }

  lemma DigitsHaveNoSpace(s: string)
    requires AllDigits(s)
    ensures ' ' !in s
  {
  }

  /** The `point2dem` argument list, for a point cloud `pc`, output prefix
      `out`, resolution `res` and EPSG code `srs`. */
  function Point2DemList(pc: string, out: string, res: nat, srs: string): seq<string>
  {
    ["point2dem", pc, "-o", out, "--tr", Decimal(res), "--t_srs", srs, "--nodata-value", "-9999.0"]
  }

  lemma Point2DemListShape(pc: string, out: string, res: nat, srs: string)
    ensures var w := Point2DemList(pc, out, res, srs);
              |w| == 10 && w[0] == "point2dem" && w[1] == pc && w[3] == out && w[4] == "--tr"
              && w[6] == "--t_srs" && w[7] == srs && w[8] == "--nodata-value" && w[9] == "-9999.0"
              && AllDigits(w[5]) && DigitsValue(w[5]) == res
  {
    DecimalValue(res);
  }

  lemma Point2DemListSpaceFree(pc: string, out: string, res: nat, srs: string)
    requires ' ' !in pc && ' ' !in out && ' ' !in srs
    ensures forall k :: 0 <= k < |Point2DemList(pc, out, res, srs)| ==> ' ' !in Point2DemList(pc, out, res, srs)[k]
  {
    var args := Point2DemList(pc, out, res, srs);
    DigitsHaveNoSpace(Decimal(res));
    assert ' ' !in args[0] && ' ' !in args[2] && ' ' !in args[4] && ' ' !in args[6];
    assert ' ' !in args[8] && ' ' !in args[9];
  }

  lemma Point2DemListWords(pc: string, out: string, res: nat, srs: string)
    requires ' ' !in pc && ' ' !in out && ' ' !in srs
    ensures Words(JoinWith(Point2DemList(pc, out, res, srs), ' ')) == Point2DemList(pc, out, res, srs)
  {
    Point2DemListSpaceFree(pc, out, res, srs);
    WordsOfJoin(Point2DemList(pc, out, res, srs));
  }

  /** `point2dem` receives the point cloud, the output prefix, the requested
      resolution, the selected EPSG code and a nodata value of -9999.0, each as
      its own argument, when the paths hold no space. */
  lemma Point2DemWords(outputDir: string, filePath: string, cfg: AspConfig)
    requires ' ' !in PointCloudPath(outputDir) && ' ' !in DemOutput(outputDir, filePath)
    ensures Words(Point2DemCommand(outputDir, filePath, cfg)) == Point2DemArgs(outputDir, filePath, cfg)
    ensures var w := Point2DemArgs(outputDir, filePath, cfg);
              |w| == 10 && w[0] == "point2dem" && w[1] == PointCloudPath(outputDir)
              && w[3] == DemOutput(outputDir, filePath) && w[4] == "--tr" && w[6] == "--t_srs"
              && w[7] == TargetSrs(cfg.coordSystem) && w[8] == "--nodata-value" && w[9] == "-9999.0"
              && AllDigits(w[5]) && DigitsValue(w[5]) == cfg.resolution
  {
    var srs := TargetSrs(cfg.coordSystem);
    SrsHasNoSpace(cfg.coordSystem);
    Point2DemListWords(PointCloudPath(outputDir), DemOutput(outputDir, filePath), cfg.resolution, srs);
    Point2DemListShape(PointCloudPath(outputDir), DemOutput(outputDir, filePath), cfg.resolution, srs);
  }

  lemma StereoListWords(algorithm: string, subpixel: nat, left: string, right: string, prefix: string)
    requires ' ' !in algorithm && ' ' !in left && ' ' !in right && ' ' !in prefix
    ensures Words(JoinWith(StereoList(algorithm, subpixel, left, right, prefix), ' '))
              == StereoList(algorithm, subpixel, left, right, prefix)
    ensures DigitsValue(StereoList(algorithm, subpixel, left, right, prefix)[6]) == subpixel
  {
    var args := StereoList(algorithm, subpixel, left, right, prefix);
    DigitsHaveNoSpace(Decimal(subpixel));
    assert ' ' !in args[0] && ' ' !in args[1] && ' ' !in args[2] && ' ' !in args[3] && ' ' !in args[5];
    assert SpaceFree(args);
    WordsOfJoin(args);
    DecimalValue(subpixel);
  }

  /** A directory without spaces keeps none when a fixed file name is appended. */
  lemma SuffixKeepsNoSpace(dir: string, suffix: string)
    requires ' ' !in dir && forall k :: 0 <= k < |suffix| ==> suffix[k] != ' '
    ensures ' ' !in dir + suffix
  {
    CharNotInAppend(' ', dir, suffix);
  }

  /** `stereo` receives the algorithm, the subpixel mode, then the left and
      right images and the output prefix, when none of them holds a space. */
  lemma StereoWords(outputDir: string, cfg: AspConfig, left: string, right: string)
    requires ' ' !in cfg.algorithm && ' ' !in left && ' ' !in right
    requires ' ' !in StereoDir(outputDir)
    ensures Words(StereoCommand(outputDir, cfg, left, right)) == StereoArgs(outputDir, cfg, left, right)
    ensures DigitsValue(Words(StereoCommand(outputDir, cfg, left, right))[6]) == cfg.subpixel
  {
    SuffixKeepsNoSpace(StereoDir(outputDir), "/stereo");
    StereoListWords(cfg.algorithm, cfg.subpixel, left, right, StereoDir(outputDir) + "/stereo");
  }

  lemma Aster2AspListWords(pattern: string, prefix: string)
    requires ' ' !in pattern && ' ' !in prefix
    ensures Words(JoinWith(Aster2AspList(pattern, prefix), ' ')) == Aster2AspList(pattern, prefix)
  {
    var args := Aster2AspList(pattern, prefix);
    assert ' ' !in args[0] && ' ' !in args[2];
    assert SpaceFree(args);
    WordsOfJoin(args);
  }

  /** The command line's words, before the shell expands `*.tif`, are the
      program, the extracted `.tif` pattern, `-o` and the output prefix. */
  lemma Aster2AspWords(outputDir: string)
    requires ' ' !in ExtractDir(outputDir) && ' ' !in AspOutputDir(outputDir)
    ensures Words(Aster2AspCommand(outputDir)) == Aster2AspArgs(outputDir)
  {
    SuffixKeepsNoSpace(ExtractDir(outputDir), "/*.tif");
    SuffixKeepsNoSpace(AspOutputDir(outputDir), "/asp");
    Aster2AspListWords(ExtractDir(outputDir) + "/*.tif", AspOutputDir(outputDir) + "/asp");
  }

  // ---------------------------------------------------------------------------
  // One archive

  /** What the outside world answers during one run of `run_asp_processing`. */
  datatype AspObservations = AspObservations(
    archiveReadable: bool,      // zip extraction completes
    tifFiles: seq<string>,      // glob of extracted `*.tif`
    aspReady: bool,             // the tool installation is set up
    aster2asp: ToolOutcome,
    band3n: seq<string>,        // glob of `*Band3N.tif`
    band3b: seq<string>,        // glob of `*Band3B.tif`
    stereo: ToolOutcome,
    pointCloudExists: bool,
    point2dem: ToolOutcome,
    demFiles: seq<string>)      // glob of `dem_<base>*DEM.tif`

  /** The pass/fail answers of the nine checks, in the order they are made. */
  function Gates(obs: AspObservations): (g: seq<bool>)
    ensures |g| == 9
  {
    [obs.archiveReadable, |obs.tifFiles| > 0, obs.aspReady, Succeeded(obs.aster2asp),
     |obs.band3n| > 0 && |obs.band3b| > 0, Succeeded(obs.stereo), obs.pointCloudExists,
     Succeeded(obs.point2dem), |obs.demFiles| > 0]
  }

  /** How many of the three tools a run reaches: `aster2asp` once the archive
      is extracted, holds `.tif` files and the tools are ready; `stereo` once
      `aster2asp` succeeded and both band images exist; `point2dem` once
      `stereo` succeeded and the point cloud exists. */
  function ToolsReached(obs: AspObservations): nat
  {
    if !(obs.archiveReadable && |obs.tifFiles| > 0 && obs.aspReady) then 0
    else if !(Succeeded(obs.aster2asp) && |obs.band3n| > 0 && |obs.band3b| > 0) then 1
    else if !(Succeeded(obs.stereo) && obs.pointCloudExists) then 2
    else 3
  }

  /** The DEM `run_asp_processing` returns: the first match of the DEM glob
      once `point2dem` has succeeded. */
  function AspResult(obs: AspObservations): Option<string>
  {
    if ToolsReached(obs) == 3 && Succeeded(obs.point2dem) then FirstMatch(obs.demFiles) else None
  }

  /** Tool `j` (0, 1, 2) runs exactly when every check before its own has
      passed, that is before checks 3, 5 and 7; and a DEM comes back exactly
      when all nine checks pass. */
  lemma {:induction false} ChainMatchesGates(obs: AspObservations)
    ensures ToolsReached(obs) >= 1 <==> PassesBefore(Gates(obs), 3)
    ensures ToolsReached(obs) >= 2 <==> PassesBefore(Gates(obs), 5)
    ensures ToolsReached(obs) >= 3 <==> PassesBefore(Gates(obs), 7)
    ensures AspResult(obs).Some? <==> PassesBefore(Gates(obs), 9)
  {
    var g := Gates(obs);
    forall m | 0 <= m <= 9
      ensures PassesBefore(g, m) <==> forall i :: 0 <= i < m ==> g[i]
    {
    }
    if !g[0] { GateBlocks(g, 0); }
    else if !g[1] { GateBlocks(g, 1); }
    else if !g[2] { GateBlocks(g, 2); }
    else if !g[3] { GateBlocks(g, 3); }
    else if !g[4] { GateBlocks(g, 4); }
    else if !g[5] { GateBlocks(g, 5); }
    else if !g[6] { GateBlocks(g, 6); }
    else if !g[7] { GateBlocks(g, 7); }
    else if !g[8] { GateBlocks(g, 8); }
    else {
      assert PassesBefore(g, 9);
    }
  }

  /** A DEM comes back exactly when every check passes, and it is one of the
      files the DEM search found; a failing check anywhere means no DEM and no
      tool run after it. */
  lemma AspResultNeedsEveryCheck(obs: AspObservations)
    ensures AspResult(obs).Some? <==>
              obs.archiveReadable && |obs.tifFiles| > 0 && obs.aspReady && Succeeded(obs.aster2asp)
              && |obs.band3n| > 0 && |obs.band3b| > 0 && Succeeded(obs.stereo)
              && obs.pointCloudExists && Succeeded(obs.point2dem) && |obs.demFiles| > 0
    ensures AspResult(obs).Some? ==> AspResult(obs).value in obs.demFiles
    ensures forall k: nat :: FailsFirstAt(Gates(obs), k) ==>
              AspResult(obs).None? && (k < 7 ==> ToolsReached(obs) < 3) && (k < 5 ==> ToolsReached(obs) < 2)
              && (k < 3 ==> ToolsReached(obs) == 0)
  {
    ChainMatchesGates(obs);
    forall k: nat | FailsFirstAt(Gates(obs), k)
      ensures AspResult(obs).None? && (k < 7 ==> ToolsReached(obs) < 3) && (k < 5 ==> ToolsReached(obs) < 2)
              && (k < 3 ==> ToolsReached(obs) == 0)
    {
      GateBlocks(Gates(obs), k);
    }
  }

  /** A tool invocation of `run_asp_processing`: which tool, and for `stereo`
      the two band images it is given. */
  datatype ToolRun = Aster2AspRun | StereoRun(left: string, right: string) | Point2DemRun

  /** The shell command a tool invocation runs. */
  function CommandLine(run: ToolRun, filePath: string, outputDir: string, cfg: AspConfig): string
  {
    match run
    case Aster2AspRun => Aster2AspCommand(outputDir)
    case StereoRun(left, right) => StereoCommand(outputDir, cfg, left, right)
    case Point2DemRun => Point2DemCommand(outputDir, filePath, cfg)
  }

  /** The tool runs are, in order, `aster2asp`, `stereo` on the first Band3N
      and Band3B images, and `point2dem`. */
  predicate ToolOrder(runs: seq<ToolRun>, obs: AspObservations)
  {
    |runs| <= 3
    && (|runs| >= 1 ==> runs[0] == Aster2AspRun)
    && (|runs| >= 2 ==> |obs.band3n| > 0 && |obs.band3b| > 0
                        && runs[1] == StereoRun(obs.band3n[0], obs.band3b[0]))
    && (|runs| == 3 ==> runs[2] == Point2DemRun)
  }

  /** `run_asp_processing(file_path, output_dir, ...)`: the DEM path or None,
      and the tools it ran, in order; `CommandLine` gives each one's command. */
  method RunAspProcessing(filePath: string, outputDir: string, cfg: AspConfig, obs: AspObservations)
    returns (dem: Option<string>, runs: seq<ToolRun>)
    ensures dem == AspResult(obs)
    ensures |runs| == ToolsReached(obs)
    ensures ToolOrder(runs, obs)
  {
    dem, runs := None, [];
    if !obs.archiveReadable || |obs.tifFiles| == 0 {
      return;
    }
    if !obs.aspReady {
      return;
    }
    runs := [Aster2AspRun];
    if !Succeeded(obs.aster2asp) {
      return;
    }
    if |obs.band3n| == 0 || |obs.band3b| == 0 {
      return;
    }
    runs := runs + [StereoRun(obs.band3n[0], obs.band3b[0])];
    if !Succeeded(obs.stereo) {
      return;
    }
    if !obs.pointCloudExists {
      return;
    }
    runs := runs + [Point2DemRun];
    if !Succeeded(obs.point2dem) {
      return;
    }
    if |obs.demFiles| > 0 {
      dem := Some(obs.demFiles[0]);
    }
  }

  // ---------------------------------------------------------------------------
  // All archives

  /** The per-archive results that `if result:` keeps, in input order. */
  function Kept(outcomes: seq<Option<string>>): (kept: seq<string>)
    ensures |kept| <= |outcomes|
  {
    if outcomes == [] then []
    else
      var n := |outcomes| - 1;
      Kept(outcomes[..n]) + (if Truthy(outcomes[n]) then [outcomes[n].value] else [])
  }

  /** Keeping works archive by archive: the results of a longer run are those
      of its first part followed by those of the rest, in order and with
      repeats, so a path produced twice is kept twice. */
  lemma {:induction false} KeptAppend(a: seq<Option<string>>, b: seq<Option<string>>)
    ensures Kept(a + b) == Kept(a) + Kept(b)
    decreases |b|
  {
    if b == [] {
      assert a + b == a;
    } else {
      var n := |b| - 1;
      var ab := a + b;
      assert ab[..|ab| - 1] == a + b[..n];
      assert ab[|ab| - 1] == b[n];
      KeptAppend(a, b[..n]);
    }
  }

  /** A single archive's result is kept exactly when it is a non-empty path. */
  lemma KeptOne(outcome: Option<string>)
    ensures Kept([outcome]) == (if Truthy(outcome) then [outcome.value] else [])
  {
    assert [outcome][..0] == [];
  }

  /** A path is kept exactly when some archive produced it. */
  lemma {:induction false} KeptMembership(outcomes: seq<Option<string>>, s: string)
    ensures s in Kept(outcomes) <==>
              exists i :: 0 <= i < |outcomes| && Truthy(outcomes[i]) && outcomes[i].value == s
  {
    if outcomes != [] {
      var n := |outcomes| - 1;
      var init := outcomes[..n];
      var tail := if Truthy(outcomes[n]) then [outcomes[n].value] else [];
      assert Kept(outcomes) == Kept(init) + tail;
      assert s in Kept(outcomes) <==> s in Kept(init) || s in tail;
      KeptMembership(init, s);
      if exists i :: 0 <= i < |outcomes| && Truthy(outcomes[i]) && outcomes[i].value == s {
        var i :| 0 <= i < |outcomes| && Truthy(outcomes[i]) && outcomes[i].value == s;
        if i < n {
          assert init[i] == outcomes[i];
        }
      }
      if s in Kept(init) {
        var i :| 0 <= i < |init| && Truthy(init[i]) && init[i].value == s;
        assert outcomes[i] == init[i];
      }
    }
  }

  /** Extending the processed prefix by one archive. */
  lemma KeptStep(outcomes: seq<Option<string>>, i: nat)
    requires i < |outcomes|
    ensures Kept(outcomes[..i + 1]) ==
              Kept(outcomes[..i]) + (if Truthy(outcomes[i]) then [outcomes[i].value] else [])
  {
    assert outcomes[..i + 1][..i] == outcomes[..i];
  }

  /** When every archive yields a DEM, all of them are kept, in input order. */
  lemma {:induction false} KeptAllTruthy(outcomes: seq<Option<string>>)
    requires forall i :: 0 <= i < |outcomes| ==> Truthy(outcomes[i])
    ensures |Kept(outcomes)| == |outcomes|
    ensures forall i :: 0 <= i < |outcomes| ==> Some(Kept(outcomes)[i]) == outcomes[i]
  {
    if outcomes != [] {
      KeptAllTruthy(outcomes[..|outcomes| - 1]);
    }
  }

  /** The result of each archive, in upload order. */
  function FileOutcomes(perFile: seq<AspObservations>): (outcomes: seq<Option<string>>)
    ensures |outcomes| == |perFile|
    ensures forall i :: 0 <= i < |perFile| ==> outcomes[i] == AspResult(perFile[i])
  {
    seq(|perFile|, i requires 0 <= i < |perFile| => AspResult(perFile[i]))
  }

  /** Where each uploaded file is saved: `temp_dir/<name>`. */
  function SavedPath(tempDir: string, name: string): string
  {
    Join(tempDir, name)
  }

  /** What `process_asp_reconstruction` produces: the kept DEMs, followed by
      the merged DEM when there were at least two and the merge succeeded. */
  function ReconstructionResults(outcomes: seq<Option<string>>, tempDir: string,
                                 mergeObs: Merge.MergeObservations): seq<string>
  {
    var kept := Kept(outcomes);
    if |kept| > 1 && Truthy(Merge.MergeResult(kept, tempDir, mergeObs))
    then kept + [Merge.MergeResult(kept, tempDir, mergeObs).value]
    else kept
  }

  /** The merged DEM is listed only when two or more archives produced a DEM,
      and it is then the last entry, after every per-archive DEM. */
  lemma MergedListedOnlyForTwoOrMore(outcomes: seq<Option<string>>, tempDir: string,
                                     mergeObs: Merge.MergeObservations)
    ensures |Kept(outcomes)| <= 1 ==> ReconstructionResults(outcomes, tempDir, mergeObs) == Kept(outcomes)
    ensures |ReconstructionResults(outcomes, tempDir, mergeObs)| > |Kept(outcomes)| ==>
              |Kept(outcomes)| >= 2
              && ReconstructionResults(outcomes, tempDir, mergeObs) ==
                   Kept(outcomes) + [Merge.MergedPath(tempDir)]
  {
  }

  /** `process_asp_reconstruction`: each uploaded file is saved under
      `temp_dir`, reconstructed, and kept when it yields a DEM; with at least
      two DEMs they are merged into `temp_dir`. `perFile[i]` is what the world
      answers for the `i`-th file. */
  method ProcessAspReconstruction(uploadedNames: seq<string>, tempDir: string, cfg: AspConfig,
                                  perFile: seq<AspObservations>, mergeObs: Merge.MergeObservations)
    returns (results: seq<string>, mergeRan: bool)
    requires |perFile| == |uploadedNames|
    ensures mergeRan <==> |Kept(FileOutcomes(perFile))| > 1
    ensures results == ReconstructionResults(FileOutcomes(perFile), tempDir, mergeObs)
  {
    ghost var outcomes := FileOutcomes(perFile);
    var filePaths := [];
    for i := 0 to |uploadedNames|
      invariant |filePaths| == i
      invariant forall k :: 0 <= k < i ==> filePaths[k] == SavedPath(tempDir, uploadedNames[k])
    {
      filePaths := filePaths + [SavedPath(tempDir, uploadedNames[i])];
    }
    results := [];
    for i := 0 to |filePaths|
      invariant results == Kept(outcomes[..i])
    {
      var result, _ := RunAspProcessing(filePaths[i], tempDir, cfg, perFile[i]);
      assert result == outcomes[i];
      KeptStep(outcomes, i);
      if result.Some? && result.value != "" {
        results := results + [result.value];
      }
    }
    assert outcomes[..|filePaths|] == outcomes;
    mergeRan := |results| > 1;
    if mergeRan {
      var merged, _ := Merge.MergeDems(results, tempDir, mergeObs);
      if merged.Some? && merged.value != "" {
        results := results + [merged.value];
      }
    }
  }

}
