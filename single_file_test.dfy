/**
  The standalone single-archive pipeline: extract one ASTER L1A archive,
  convert it with `aster2asp`, find the nadir and backward images and their
  camera files, run `stereo`, check for the point cloud, run `point2dem` in
  UTM zone 43N, find the DEM and summarise it.

  The run stops at the first of these checks that fails:
    0. the archive exists,
    1. it extracts (a corrupt archive raises, which ends the run),
    2. `aster2asp` exits with 0,
    3. all four of `*Band3N.tif`, `*Band3B.tif`, `*Band3N.xml`, `*Band3B.xml`
       were found,
    4. `stereo` exits with 0,
    5. the point cloud `<stereo prefix>-PC.tif` exists,
    6. `point2dem` exits with 0,
    7. `<stereo prefix>-DEM.tif` was found.
  The tools run just before checks 2, 4 and 6.
*/
module SingleFileTest {

  import opened Wrappers
  import opened Text
  import opened PathOps
  import opened ToolRuns
  import Raster
  import Reconstruction
  import Environment

  /** The command `get_asp_version` runs. */
  const VersionCommand: string := "stereo --version"

  /** `get_asp_version`: the first line of `stereo --version` when it exits
      with 0, "Unknown" otherwise (a failure to start included). */
  function AspVersion(outcome: ToolOutcome, stdout: string): (v: string)
    ensures Succeeded(outcome) ==> '\n' !in v && |v| <= |stdout| && v == stdout[..|v|]
    ensures !Succeeded(outcome) ==> v == "Unknown"
  {
    if Succeeded(outcome) then SplitOn(stdout, '\n')[0] else "Unknown"
  }

  /** The first line is everything before the first line break. */
  lemma AspVersionFirstLine(line: string, rest: string)
    requires '\n' !in line
    ensures AspVersion(Exited(0), line + "\n" + rest) == line
    ensures AspVersion(Exited(0), line) == line
  {
    SplitCons(line, '\n', rest);
    SplitSingle(line, '\n');
  }

  // ---------------------------------------------------------------------------
  // Derived paths

  function ExtractDir(workDir: string, base: string): string
  {
    Join(workDir, base + "_extracted")
  }

  /** `work_dir/<base>_asp/out`. */
  function AspPrefix(workDir: string, base: string): string
  {
    Join(Join(workDir, base + "_asp"), "out")
  }

  /** `work_dir/<base>_stereo/run`. */
  function StereoPrefix(workDir: string, base: string): string
  {
    Join(Join(workDir, base + "_stereo"), "run")
  }

  /** The point cloud `stereo` writes. */
  function PointCloud(workDir: string, base: string): string
  {
    StereoPrefix(workDir, base) + "-PC.tif"
  }

  /** The DEM `point2dem` is expected to have written. */
  function DemPattern(workDir: string, base: string): string
  {
    StereoPrefix(workDir, base) + "-DEM.tif"
  }

  /** The ASP files are searched for in the directory of the ASP prefix,
      `work_dir/<base>_asp`. */
  lemma AspDirOfPrefix(workDir: string, base: string)
    requires '/' !in base
    ensures Dirname(AspPrefix(workDir, base)) == Join(workDir, base + "_asp")
  {
    var d := Join(workDir, base + "_asp");
    assert d[|d| - 1] == 'p';
    DirnameOfJoin(d, "out");
  }

  /** A file named by the stereo prefix and a suffix without a separator
      lies in `work_dir/<base>_stereo`. */
  lemma StereoFileInStereoDir(workDir: string, base: string, suffix: string)
    requires '/' !in base && '/' !in suffix
    ensures Dirname(StereoPrefix(workDir, base) + suffix) == Join(workDir, base + "_stereo")
  {
    var d := Join(workDir, base + "_stereo");
    assert d[|d| - 1] == 'o';
    JoinAppend(d, "run", suffix);
    DirnameOfJoin(d, "run" + suffix);
  }

  /** The point cloud `main` checks for is in the stereo directory. */
  lemma PointCloudInStereoDir(workDir: string, base: string)
    requires '/' !in base
    ensures Dirname(PointCloud(workDir, base)) == Join(workDir, base + "_stereo")
  {
    StereoFileInStereoDir(workDir, base, "-PC.tif");
  }

  /** The DEM `main` searches for is in the stereo directory. */
  lemma DemInStereoDir(workDir: string, base: string)
    requires '/' !in base
    ensures Dirname(DemPattern(workDir, base)) == Join(workDir, base + "_stereo")
  {
    StereoFileInStereoDir(workDir, base, "-DEM.tif");
  }

  /** The point cloud and the DEM both sit in `work_dir/<base>_stereo`, the
      directory the stereo step writes to, and they are different files. */
  lemma StereoOutputsInStereoDir(workDir: string, base: string)
    requires '/' !in base
    ensures Dirname(PointCloud(workDir, base)) == Join(workDir, base + "_stereo")
    ensures Dirname(DemPattern(workDir, base)) == Join(workDir, base + "_stereo")
    ensures PointCloud(workDir, base) != DemPattern(workDir, base)
  {
    PointCloudInStereoDir(workDir, base);
    DemInStereoDir(workDir, base);
  }

  /** Archives with different base names use different stereo prefixes, so
      their point clouds and DEMs do not collide. */
  lemma StereoPrefixesDistinct(workDir: string, base1: string, base2: string)
    requires '/' !in base1 && '/' !in base2 && base1 != base2
    ensures StereoPrefix(workDir, base1) != StereoPrefix(workDir, base2)
  {
    var n1 := base1 + "_stereo";
    var n2 := base2 + "_stereo";
    assert n1[..|n1| - 7] == base1 && n2[..|n2| - 7] == base2;
    assert n1[0] != '/' && n2[0] != '/';
    JoinDistinctNames(workDir, n1, n2);
    var d1 := Join(workDir, n1);
    var d2 := Join(workDir, n2);
    assert d1[|d1| - 1] == n1[|n1| - 1] == 'o';
    assert d2[|d2| - 1] == n2[|n2| - 1] == 'o';
    JoinDistinctDirs(d1, d2, "run");
  }

  // ---------------------------------------------------------------------------
  // The three tool steps

  /** A tool step: the command line it runs and whether it reported success. */
  datatype StepRun = StepRun(command: string, ok: bool)

  function Aster2AspArgs(asterDir: string, outputPrefix: string): seq<string>
  {
    ["aster2asp", asterDir, "-o", outputPrefix]
  }

  /** Fixed ASTER session, block-matching algorithm and subpixel mode 1, then
      left image, right image, left camera, right camera and prefix. */
  function StereoArgs(leftImage: string, rightImage: string, leftCamera: string, rightCamera: string,
                      outputPrefix: string): seq<string>
  {
    ["stereo", "-t", "aster", "--stereo-algorithm", "asp_bm", "--subpixel-mode", "1",
     leftImage, rightImage, leftCamera, rightCamera, outputPrefix]
  }

  /** The DEM command always asks for UTM zone 43N (quoted for the shell) and
      an error image; the output prefix it is given is not passed on. */
  function GenerateDemArgs(pointCloud: string, resolution: nat): seq<string>
  {
    ["point2dem", "--tr", Decimal(resolution), "--t_srs", "'EPSG:32643'", "--errorimage", pointCloud]
  }

  /** `process_aster_to_asp`: True exactly when `aster2asp` exits with 0. */
  function ProcessAsterToAsp(asterDir: string, outputPrefix: string, outcome: ToolOutcome): (run: StepRun)
    ensures run.ok <==> outcome == Exited(0)
  {
    StepRun(JoinWith(Aster2AspArgs(asterDir, outputPrefix), ' '), Succeeded(outcome))
  }

  /** `run_stereo_processing`: True exactly when `stereo` exits with 0. */
  function RunStereoProcessing(leftImage: string, rightImage: string, leftCamera: string, rightCamera: string,
                               outputPrefix: string, outcome: ToolOutcome): (run: StepRun)
    ensures run.ok <==> outcome == Exited(0)
  {
    StepRun(JoinWith(StereoArgs(leftImage, rightImage, leftCamera, rightCamera, outputPrefix), ' '),
            Succeeded(outcome))
  }

  /** `generate_dem`: True exactly when `point2dem` exits with 0. */
  function GenerateDem(pointCloud: string, outputPrefix: string, resolution: nat, outcome: ToolOutcome): (run: StepRun)
    ensures run.ok <==> outcome == Exited(0)
  {
    StepRun(JoinWith(GenerateDemArgs(pointCloud, resolution), ' '), Succeeded(outcome))
  }

  /** The shell hands `aster2asp` its input directory and prefix as two
      arguments when they hold no space. */
  lemma ConversionCommandSplits(asterDir: string, aspPrefix: string, outcome: ToolOutcome)
    requires ' ' !in asterDir && ' ' !in aspPrefix
    ensures Words(ProcessAsterToAsp(asterDir, aspPrefix, outcome).command) == Aster2AspArgs(asterDir, aspPrefix)
  {
    var a := Aster2AspArgs(asterDir, aspPrefix);
    assert forall k :: 0 <= k < |a| ==> ' ' !in a[k];
    SplitJoin(a, ' ');
  }

  /** The shell hands `stereo` the fixed session settings and then the left
      image, right image, left camera, right camera and prefix, in this order. */
  lemma StereoCommandSplits(leftImage: string, rightImage: string, leftCamera: string,
                            rightCamera: string, stereoPrefix: string, outcome: ToolOutcome)
    requires ' ' !in leftImage && ' ' !in rightImage && ' ' !in leftCamera && ' ' !in rightCamera
    requires ' ' !in stereoPrefix
    ensures Words(RunStereoProcessing(leftImage, rightImage, leftCamera, rightCamera, stereoPrefix, outcome).command)
              == StereoArgs(leftImage, rightImage, leftCamera, rightCamera, stereoPrefix)
  {
    var s := StereoArgs(leftImage, rightImage, leftCamera, rightCamera, stereoPrefix);
    assert forall k :: 0 <= k < |s| ==> ' ' !in s[k];
    SplitJoin(s, ' ');
  }

  /** The shell hands `point2dem` the resolution, which reads back as the
      number given, the fixed UTM 43N code, the error-image flag and the point
      cloud. */
  lemma DemCommandSplits(pointCloud: string, stereoPrefix: string, resolution: nat, outcome: ToolOutcome)
    requires ' ' !in pointCloud
    ensures Words(GenerateDem(pointCloud, stereoPrefix, resolution, outcome).command)
              == GenerateDemArgs(pointCloud, resolution)
    ensures DigitsValue(Words(GenerateDem(pointCloud, stereoPrefix, resolution, outcome).command)[2]) == resolution
  {
    var g := GenerateDemArgs(pointCloud, resolution);
    Reconstruction.DigitsHaveNoSpace(Decimal(resolution));
    assert forall k :: 0 <= k < |g| ==> ' ' !in g[k];
    SplitJoin(g, ' ');
    DecimalValue(resolution);
  }

  /** The DEM command does not depend on the prefix it is handed. */
  lemma GenerateDemIgnoresPrefix(pointCloud: string, prefix1: string, prefix2: string, resolution: nat,
                                 outcome: ToolOutcome)
    ensures GenerateDem(pointCloud, prefix1, resolution, outcome) == GenerateDem(pointCloud, prefix2, resolution, outcome)
  {
  }

  // ---------------------------------------------------------------------------
  // main

  /** Where a run stopped, one stage per check. */
  datatype Stage =
    | ZipMissing | ExtractFailed | ConversionFailed | FilesMissing
    | StereoFailed | PointCloudMissing | DemGenerationFailed | NoDemFound

  /** How a run ends: stopped at a check, or with a DEM whose statistics were
      read, or with a DEM whose statistics could not be read. */
  datatype Report =
    | StoppedAt(stage: Stage)
    | Finished(demFile: string, stats: Raster.DemStats)
    | StatsUnreadable(demFile: string)

  /** What the outside world answers during one run of `main`: the version
      probe's outcome and output, then one answer per check. `raster` is the
      masked band that reading the DEM gives, None if reading raises. */
  datatype SingleObservations = SingleObservations(
    versionProbe: ToolOutcome,
    versionOutput: string,
    zipExists: bool,
    extractOk: bool,
    aster2asp: ToolOutcome,
    leftImages: seq<string>,
    rightImages: seq<string>,
    leftCameras: seq<string>,
    rightCameras: seq<string>,
    stereo: ToolOutcome,
    pointCloudExists: bool,
    point2dem: ToolOutcome,
    demExists: bool,
    raster: Option<seq<Raster.Cell>>)

  predicate AllFourFound(obs: SingleObservations)
  {
    |obs.leftImages| > 0 && |obs.rightImages| > 0 && |obs.leftCameras| > 0 && |obs.rightCameras| > 0
  }

  /** The pass/fail answers of the eight checks, in order. */
  function Gates(obs: SingleObservations): (g: seq<bool>)
    ensures |g| == 8
  {
    [obs.zipExists, obs.extractOk, Succeeded(obs.aster2asp), AllFourFound(obs),
     Succeeded(obs.stereo), obs.pointCloudExists, Succeeded(obs.point2dem), obs.demExists]
  }

  function StageAt(k: nat): Stage
    requires k < 8
  {
    [ZipMissing, ExtractFailed, ConversionFailed, FilesMissing,
     StereoFailed, PointCloudMissing, DemGenerationFailed, NoDemFound][k]
  }

  /** How many of the three pipeline tools a run reaches. */
  function ToolsReached(obs: SingleObservations): nat
  {
    if !(obs.zipExists && obs.extractOk) then 0
    else if !(Succeeded(obs.aster2asp) && AllFourFound(obs)) then 1
    else if !(Succeeded(obs.stereo) && obs.pointCloudExists) then 2
    else 3
  }

  /** How `main` ends when the DEM it looks for is `dem`. The search for the
      DEM has no wildcard, so it finds `dem` itself or nothing. */
  function Outcome(dem: string, obs: SingleObservations): Report
  {
    if !obs.zipExists then StoppedAt(ZipMissing)
    else if !obs.extractOk then StoppedAt(ExtractFailed)
    else if !Succeeded(obs.aster2asp) then StoppedAt(ConversionFailed)
    else if !AllFourFound(obs) then StoppedAt(FilesMissing)
    else if !Succeeded(obs.stereo) then StoppedAt(StereoFailed)
    else if !obs.pointCloudExists then StoppedAt(PointCloudMissing)
    else if !Succeeded(obs.point2dem) then StoppedAt(DemGenerationFailed)
    else if !obs.demExists then StoppedAt(NoDemFound)
    else
      match Raster.GetDemStats(obs.raster)
      case Some(stats) => Finished(dem, stats)
      case None => StatsUnreadable(dem)
  }

  /** A run stops exactly at its first failing check and runs no tool after
      it; once every check passes it ends with the DEM it looked for, with
      statistics exactly when the raster reads and is not fully masked. */
  lemma {:induction false} OutcomeStopsAtFirstFailure(dem: string, obs: SingleObservations)
    ensures forall k: nat :: FailsFirstAt(Gates(obs), k) ==>
              Outcome(dem, obs) == StoppedAt(StageAt(k))
              && (k < 6 ==> ToolsReached(obs) < 3) && (k < 4 ==> ToolsReached(obs) < 2)
              && (k < 2 ==> ToolsReached(obs) == 0)
    ensures PassesBefore(Gates(obs), 8) ==>
              ToolsReached(obs) == 3 && !Outcome(dem, obs).StoppedAt? && Outcome(dem, obs).demFile == dem
              && (Outcome(dem, obs).Finished? <==> obs.raster.Some? && !Raster.AllMasked(obs.raster.value))
  {
    var g := Gates(obs);
    forall k: nat | FailsFirstAt(g, k)
      ensures Outcome(dem, obs) == StoppedAt(StageAt(k))
              && (k < 6 ==> ToolsReached(obs) < 3) && (k < 4 ==> ToolsReached(obs) < 2)
              && (k < 2 ==> ToolsReached(obs) == 0)
    {
      assert !g[k];
      if k > 0 { assert g[0]; }
      if k > 1 { assert g[1]; }
      if k > 2 { assert g[2]; }
      if k > 3 { assert g[3]; }
      if k > 4 { assert g[4]; }
      if k > 5 { assert g[5]; }
      if k > 6 { assert g[6]; }
    }
    if PassesBefore(g, 8) {
      assert g[0] && g[1] && g[2] && g[3] && g[4] && g[5] && g[6] && g[7];
    }
  }

  /** A tool call of `main`: the version probe, then the pipeline tools;
      `stereo` is given the left and right images and cameras. */
  datatype ToolCall =
    | VersionCall
    | ConversionCall
    | StereoCall(leftImage: string, rightImage: string, leftCamera: string, rightCamera: string)
    | DemCall

  /** The step a tool call of the run on `zipFile` runs: the version probe,
      `aster2asp` on the extraction directory, `stereo` with the stereo prefix,
      `point2dem` on the point cloud at 30 m, all named after the archive. */
  function CallRun(call: ToolCall, workDir: string, zipFile: string, obs: SingleObservations): StepRun
  {
    var base := Reconstruction.BaseName(zipFile);
    match call
    case VersionCall =>
      StepRun(VersionCommand, Succeeded(obs.versionProbe))
    case ConversionCall =>
      ProcessAsterToAsp(ExtractDir(workDir, base), AspPrefix(workDir, base), obs.aster2asp)
    case StereoCall(leftImage, rightImage, leftCamera, rightCamera) =>
      RunStereoProcessing(leftImage, rightImage, leftCamera, rightCamera, StereoPrefix(workDir, base), obs.stereo)
    case DemCall =>
      GenerateDem(PointCloud(workDir, base), StereoPrefix(workDir, base), 30, obs.point2dem)
  }

  /** The pipeline's calls are, in order, `aster2asp`, `stereo` on the first
      match of each of the four searches, and `point2dem`. */
  predicate PipelineOrder(calls: seq<ToolCall>, obs: SingleObservations)
  {
    |calls| <= 3
    && (|calls| >= 1 ==> calls[0] == ConversionCall)
    && (|calls| >= 2 ==> AllFourFound(obs)
                         && calls[1] == StereoCall(obs.leftImages[0], obs.rightImages[0],
                                                   obs.leftCameras[0], obs.rightCameras[0]))
    && (|calls| == 3 ==> calls[2] == DemCall)
  }

  /** All the calls of `main`: the version probe, then the pipeline's. */
  predicate CallOrder(calls: seq<ToolCall>, obs: SingleObservations)
  {
    |calls| >= 1 && calls[0] == VersionCall && PipelineOrder(calls[1..], obs)
  }

  /** The body of `main` after the setup, on the archive with base name
      `base` under `workDir`: how the run ends and the pipeline tools it called, in order.
      The DEM looked for is `<stereo prefix>-DEM.tif`. */
  method RunPipeline(workDir: string, base: string, obs: SingleObservations)
    returns (report: Report, calls: seq<ToolCall>)
    ensures report == Outcome(DemPattern(workDir, base), obs)
    ensures |calls| == ToolsReached(obs)
    ensures PipelineOrder(calls, obs)
  {
    calls := [];
    if !obs.zipExists {
      return StoppedAt(ZipMissing), calls;
    }
    if !obs.extractOk {
      return StoppedAt(ExtractFailed), calls;
    }
    calls := calls + [ConversionCall];
    if !Succeeded(obs.aster2asp) {
      return StoppedAt(ConversionFailed), calls;
    }
    if !AllFourFound(obs) {
      return StoppedAt(FilesMissing), calls;
    }
    calls := calls + [StereoCall(obs.leftImages[0], obs.rightImages[0], obs.leftCameras[0], obs.rightCameras[0])];
    if !Succeeded(obs.stereo) {
      return StoppedAt(StereoFailed), calls;
    }
    if !obs.pointCloudExists {
      return StoppedAt(PointCloudMissing), calls;
    }
    calls := calls + [DemCall];
    if !Succeeded(obs.point2dem) {
      return StoppedAt(DemGenerationFailed), calls;
    }
    if !obs.demExists {
      return StoppedAt(NoDemFound), calls;
    }
    var demFile := DemPattern(workDir, base);
    var stats := Raster.GetDemStats(obs.raster);
    if stats.Some? {
      report := Finished(demFile, stats.value);
    } else {
      report := StatsUnreadable(demFile);
    }
  }

  /** `main`, with the ASP tools in `aspBin`: the environment the setup leaves,
      the version it reports, how the run ends, and the tools it called, in
      order, the version probe first; `CallRun` gives each one's step. */
  method RunSingleFile(zipFile: string, workDir: string, env: map<string, string>, aspBin: string,
                       apiKey: string, obs: SingleObservations)
    returns (env': map<string, string>, version: string, report: Report, calls: seq<ToolCall>)
    ensures env' == Environment.SetupEnvironment(env, aspBin, apiKey)
    ensures version == AspVersion(obs.versionProbe, obs.versionOutput)
    ensures report == Outcome(DemPattern(workDir, Reconstruction.BaseName(zipFile)), obs)
    ensures |calls| == 1 + ToolsReached(obs)
    ensures CallOrder(calls, obs)
  {
    env' := Environment.SetupEnvironment(env, aspBin, apiKey);
    version := AspVersion(obs.versionProbe, obs.versionOutput);
    var pipelineCalls;
    report, pipelineCalls := RunPipeline(workDir, Reconstruction.BaseName(zipFile), obs);
    calls := [VersionCall] + pipelineCalls;
    assert calls[1..] == pipelineCalls;
  }

}
