# ASTER DEM orchestration, modelled in Dafny

This project models the orchestration logic of an ASTER L1A stereo-to-DEM
application and of its standalone single-archive pipeline. The ASTER L1A
archives are turned into digital elevation models with the NASA Ames Stereo
Pipeline tools `aster2asp`, `stereo` and `point2dem`. The DEMs are then
merged, keeping the highest elevation per pixel, and coregistered against
COP30 or ICESat-2 references by an external script.

Every external effect is an input of the model:

- a tool run is a `ToolOutcome`: `Exited(code)`, `TimedOut` or `LaunchFailed`;
- a `glob` is the list it returned;
- an `os.path.exists` answer is a boolean or a set of existing paths;
- a masked raster read is an optional sequence of cells.

Each entry point is then a function of these inputs, or a method proved
against one. The model decides which tools run, with which command lines,
where the run stops, and what comes back.

Modules:

- `Wrappers`: `Option`.
- `Text`: substring search, splitting and joining on a separator, and decimal and zero-padded formatting.
- `PathOps`: `os.path.join`, `basename`, `dirname` and `splitext` on `/`-separated paths.
- `ToolRuns`: tool outcomes, first glob match, Python truthiness of an optional path, and gate chains.
- `Environment`: the guarded PATH prepend and the setup that also sets the API key.
- `Raster`: masked rasters, the two statistics readers, and the per-pixel maximum composite.
- `Merge`: `merge_dems`.
- `Reconstruction`: `run_asp_processing` and `process_asp_reconstruction`.
- `Coregistration`: the two runners and `process_coregistration`.
- `Workflow`: the processing summary of the end-to-end page.
- `SingleFileTest`: the standalone pipeline's `main` and its helpers.

Two behaviours of the code worth noting:

- In the ensemble, a failed ICESat-2 step makes the whole request return nothing; the COP30 result is not kept.
- Every coordinate-system choice except WGS84 maps to the fixed `EPSG:32643`, which is UTM zone 43N. No zone is derived from the data's location, and the custom code the user types is ignored.

## Model

| member | source | states |
|---|---|---|
| Environment.PrependToPath | test_corrected_single.py:19-22 | After the update PATH contains the tool directory, and the old PATH is its suffix. A PATH that already contains the directory comes back unchanged. |
| Environment.PrependIdempotent | professional_dem_app.py:83-84 | Applying the guarded prepend twice gives the same PATH as once. The runners repeat the same rule at 776-778 and 809-811. |
| Environment.PrependPutsBinFirst | test_corrected_single.py:21-22 | When it prepends, the tool directory becomes the first PATH entry, followed by the old entries in their old order. |
| Environment.PrependSkippedForLongerEntry | test_corrected_single.py:21 | The test is a substring test. A PATH whose first entry merely extends the tool directory's name is left alone, although the directory is not its first entry. |
| Environment.SetupPath | test_corrected_single.py:17-22 | PATH becomes the guarded prepend of the old PATH (empty when unset), so it contains the directory. Every other variable is unchanged, and no other key is added. |
| Environment.SetupPathIdempotent | test_corrected_single.py:17-22 | A second setup leaves the environment as the first one left it. |
| Environment.SetupEnvironment | test_corrected_single.py:17-24 | PATH becomes the guarded prepend of the old PATH and `OPENTOPOGRAPHY_API_KEY` holds the key, whatever it held before. Every other variable is unchanged, and exactly these two keys are added. |
| Environment.SetupEnvironmentIdempotent | test_corrected_single.py:17-24 | Running the whole setup twice leaves the environment as one run left it. |
| Raster.CountValid | test_corrected_single.py:133 | The valid-pixel count is at most the size, and it is zero exactly when every pixel is masked. A single pixel counts 1 exactly when it holds an elevation. |
| Raster.CountValidAppend | test_corrected_single.py:133 | The count adds up over any split of the raster, so with the one-pixel case it is the number of unmasked pixels. |
| Raster.MinValid | test_corrected_single.py:129 | It is an elevation of some valid pixel and at most every valid elevation. |
| Raster.MaxValid | test_corrected_single.py:130 | It is an elevation of some valid pixel and at least every valid elevation. |
| Raster.GetDemStats | test_corrected_single.py:120-143 | None exactly when the read fails or every pixel is masked. Otherwise the minimum and the maximum are elevations of valid pixels that bound every valid elevation, so they are `data.min()` and `data.max()`. The valid count is `CountValid` and the total is the size. |
| Raster.DisplayRange | professional_dem_app.py:461-470 | A fully masked raster shows (0, 0). Otherwise it shows the valid minimum and maximum: both are attained by valid pixels and bound every valid elevation. |
| Raster.SummariesAgreeUnlessAllMasked | professional_dem_app.py:461-470 | The two readers agree on min and max except on a fully masked raster, where one gives None and the other zeros. |
| Raster.CompositeAt | professional_dem_app.py:870 | A composite pixel is nodata exactly when every tile is. Otherwise it is some tile's elevation and no tile is higher. |
| Raster.Composite | professional_dem_app.py:870 | The composite has the grid's size and is the per-pixel maximum. |
| Raster.CompositeOrderIndependent | professional_dem_app.py:860-870 | The order in which the tiles are found and opened does not change the mosaic. |
| Raster.ThreeFlatTiles | professional_dem_app.py:870 | Flat tiles at 100, 150 and 200 m composite to a flat 200 m tile. |
| Merge.TempName | professional_dem_app.py:852 | The temporary name holds no separator, so it lands inside `temp_dems`. |
| Merge.TempNameInjective | professional_dem_app.py:852 | Distinct input positions get distinct `dem_{i:03d}.tif` names. |
| Merge.CopyPlan | professional_dem_app.py:850-853 | There are never more copies than inputs. |
| Merge.CopiedPositionsExact | professional_dem_app.py:850-851 | A position is copied exactly when its input exists. |
| Merge.CopiedPositionsIncrease | professional_dem_app.py:850-851 | Positions are copied in increasing input order, so none twice. |
| Merge.CopyPlanSound | professional_dem_app.py:850-853 | Every copy is of an existing input, to the name of its position in the input list. |
| Merge.CopyPlanComplete | professional_dem_app.py:850-853 | Every existing input is copied. |
| Merge.CopyPlanTargetsDistinct | professional_dem_app.py:850-853 | No two copies share a target, so no copy overwrites another. |
| Merge.MergeResult | professional_dem_app.py:833-899 | A result is always `output_dir/merged_dem.tif`. It needs no exception and an existing input. A single existing input always gives the merged path. |
| Merge.MergeNeedsAnExistingInput | professional_dem_app.py:847-867 | With several inputs and no exception, a mosaic is written exactly when some input exists. |
| Merge.MergeDems | professional_dem_app.py:833-899 | Returns `MergeResult`. A single input is copied to the merged path; otherwise the copies made are exactly the copy plan, in input order. |
| Reconstruction.TargetSrs | professional_dem_app.py:690-695 | `EPSG:4326` exactly for the WGS84 choice; every other choice, custom included, gives `EPSG:32643`. |
| Reconstruction.BaseName | professional_dem_app.py:660-661 | `splitext(basename(path))[0]` holds no separator. |
| Reconstruction.DemOutput | professional_dem_app.py:742 | The DEM prefix's last component is `dem_<base>`. |
| Reconstruction.BaseNameOfArchive | professional_dem_app.py:660-661 | The base name of `dir/<stem>.zip` is `<stem>`. |
| Reconstruction.DemOutputOfArchive | professional_dem_app.py:742 | The archive `dir/<stem>.zip` writes under `output_dir/dem_<stem>`. |
| Reconstruction.DemOutputsDistinct | professional_dem_app.py:742 | Archives with different base names write to different `point2dem` prefixes. |
| Reconstruction.Aster2AspWords | professional_dem_app.py:703-708 | The words of the command line, before the shell expands `*.tif`, are `aster2asp`, the extracted `.tif` pattern, `-o` and the `asp/asp` output prefix. The expansion itself is not modelled (see "## Left out"). |
| Reconstruction.StereoWords | professional_dem_app.py:722-730 | `stereo` gets the chosen algorithm, the subpixel mode (which reads back as the number chosen), the first Band3N and Band3B images and the stereo prefix. |
| Reconstruction.Point2DemWords | professional_dem_app.py:742-749 | `point2dem` gets the point cloud, `-o dem_<base>`, `--tr` with the resolution (which reads back as the number chosen), `--t_srs` with the selected code, and `--nodata-value -9999.0`. |
| Reconstruction.ChainMatchesGates | professional_dem_app.py:670-758 | Each tool runs exactly when every check before it has passed. A DEM comes back exactly when all nine checks pass. |
| Reconstruction.AspResultNeedsEveryCheck | professional_dem_app.py:670-765 | A DEM comes back exactly when extraction, the `.tif` files, setup, the three exit codes, the band images, the point cloud and the DEM search all pass, and it is a file the search found. At the first failing check the result is None and no later tool runs. |
| Reconstruction.RunAspProcessing | professional_dem_app.py:657-765 | Returns the specified result and runs exactly the tools the chain reaches, in order: `aster2asp`, then `stereo` on the first Band3N and Band3B images, then `point2dem`. `CommandLine` gives each run's shell command. |
| Reconstruction.Kept | professional_dem_app.py:547-556 | No more results are kept than files were processed. |
| Reconstruction.KeptAppend | professional_dem_app.py:548-556 | The kept results of a run are those of its first part followed by those of the rest, in input order and with repeats. |
| Reconstruction.KeptOne | professional_dem_app.py:553-556 | A single file's result is kept exactly when it is a non-empty path. |
| Reconstruction.KeptMembership | professional_dem_app.py:553-556 | A path is kept exactly when some file's result was a non-empty path. |
| Reconstruction.KeptAllTruthy | professional_dem_app.py:547-556 | When every file succeeds, every result is kept, in upload order. |
| Reconstruction.MergedListedOnlyForTwoOrMore | professional_dem_app.py:559-564 | With at most one DEM the results are the kept DEMs alone. A merged DEM is listed only after two or more, and only as the last entry. |
| Reconstruction.ProcessAspReconstruction | professional_dem_app.py:522-573 | The merge runs exactly when more than one file yielded a DEM, and the results are the kept DEMs followed by the merged DEM when the merge returned one. |
| Coregistration.ScriptArgv | professional_dem_app.py:779-784 | The script gets the reference, the DEM and the output directory at fixed positions. |
| Coregistration.Classify | professional_dem_app.py:788-792 | A path comes back exactly when the exit code is 0 and the output search matched, and it is the first match. |
| Coregistration.RunCop30 | professional_dem_app.py:767-798 | The COP30 runner asks for `cop30`. It returns a path under the rule above and shows an error exactly when the script failed, timed out or could not start. |
| Coregistration.RunIceSat2 | professional_dem_app.py:800-831 | The ICESat-2 runner asks for `icesat2`, returns by the same rule, and shows a warning exactly when the script failed. |
| Coregistration.RunnersClassifyAlike | professional_dem_app.py:788-794 | On the same observation both runners return the same thing and fail alike; they differ only in the reference and in how they report failure. |
| Coregistration.Dispatch | professional_dem_app.py:593-603 | COP30 runs alone exactly when the choice contains "COP30". ICESat-2 runs alone exactly when it contains "ICESat-2" but not "COP30". |
| Coregistration.EnsembleLabelDispatchedToCop30 | professional_dem_app.py:289-291 | The ensemble label contains "COP30", so it is dispatched to COP30 alone and no form choice reaches the ensemble branch. |
| Coregistration.IntendedDispatch | professional_dem_app.py:593-613 | A choice mentioning "Ensemble" goes to the ensemble; any other choice is dispatched as before. |
| Coregistration.IntendedDispatchReachesEveryBranch | professional_dem_app.py:289-291 | With the ensemble test first, each of the three labels reaches its own branch. |
| Coregistration.ProcessCoregistration | professional_dem_app.py:575-624 | A choice mentioning "COP30" makes one call, to the COP30 script on the uploaded DEM, and answers what that run classifies. Otherwise a choice mentioning "ICESat-2" does the same with ICESat-2. Any other choice runs the ensemble chain. |
| Coregistration.CoregisterOn | professional_dem_app.py:588-613 | One or two runner calls are made. The COP30 branch makes one call, to the COP30 script on `temp_dir/input_dem.tif`, and returns what the COP30 run classifies; the ICESat-2 branch does the same with ICESat-2. The ensemble always starts with the COP30 call on the uploaded DEM. |
| Coregistration.EnsembleStopsWhenCop30Fails | professional_dem_app.py:605-611 | When COP30 returns nothing, the request fails and ICESat-2 never runs. |
| Coregistration.EnsembleFeedsCop30Output | professional_dem_app.py:606-609 | ICESat-2 refines COP30's output, not the uploaded DEM, and its answer is the request's answer. |
| Coregistration.EnsembleIceFailureGivesNone | professional_dem_app.py:606-611 | A successful COP30 step is dropped when ICESat-2 fails; the request returns nothing. |
| Coregistration.IceSat2InputIsKnown | professional_dem_app.py:593-613 | ICESat-2 only ever runs on the uploaded DEM or on a DEM that COP30 returned. |
| Coregistration.EnsembleChoiceRunsCop30Alone | professional_dem_app.py:593-597 | As written, the ensemble choice behaves exactly like the COP30 choice: one call, to the COP30 script on the uploaded DEM, whose classified result is the answer. |
| Coregistration.IntendedProcessCoregistration | professional_dem_app.py:603-611 | A choice mentioning "Ensemble" runs the ensemble chain. |
| Coregistration.IntendedEnsembleRefines | professional_dem_app.py:603-611 | With the corrected dispatch, the ensemble choice runs ICESat-2 on COP30's output whenever COP30 returns a DEM. |
| Workflow.LinesDistinct | professional_dem_app.py:416-436 | Different steps show different lines. |
| Workflow.MergeChoices | professional_dem_app.py:385-388 | Of the radio answers, exactly the two that offer a merged DEM contain "Merged"; "Single DEM" does not. |
| Workflow.PlannedSteps | professional_dem_app.py:416-436 | The list starts with the three reconstruction steps. It lists the merge exactly when there are several files and the option contains "Merged", and each coregistration step exactly for its methods. The validation step is listed exactly when requested, and then last. |
| Workflow.PlannedInOrder | professional_dem_app.py:416-436 | The steps are listed in increasing order of their numbers. |
| Workflow.PlanWorkflowSteps | professional_dem_app.py:416-436 | The list grown by appends is the planned list. |
| Workflow.SummaryBounds | professional_dem_app.py:385-436 | The summary has between four and seven steps. A single archive never lists the merge, and the radio answers decide the merge as their wording says. |
| SingleFileTest.AspVersion | test_corrected_single.py:31-37 | On a zero exit the result is the first line of the output; otherwise it is "Unknown". |
| SingleFileTest.AspVersionFirstLine | test_corrected_single.py:35 | The version is everything before the first line break, or the whole output when it has none. |
| SingleFileTest.PointCloudInStereoDir | test_corrected_single.py:205 | The point cloud checked for lies in `work_dir/<base>_stereo`. |
| SingleFileTest.DemInStereoDir | test_corrected_single.py:215 | The DEM searched for lies in `work_dir/<base>_stereo`. |
| SingleFileTest.StereoOutputsInStereoDir | test_corrected_single.py:195-215 | The point cloud and the DEM searched for both lie in `work_dir/<base>_stereo`, the directory of the stereo prefix, and they are different files. |
| SingleFileTest.AspDirOfPrefix | test_corrected_single.py:173-178 | The ASP files are searched for in `work_dir/<base>_asp`, the directory of the `out` prefix. |
| SingleFileTest.StereoPrefixesDistinct | test_corrected_single.py:195 | Archives with different base names get different stereo prefixes. |
| SingleFileTest.ProcessAsterToAsp | test_corrected_single.py:50-72 | Returns True exactly when `aster2asp` exits with 0. |
| SingleFileTest.RunStereoProcessing | test_corrected_single.py:74-95 | Returns True exactly when `stereo` exits with 0. |
| SingleFileTest.GenerateDem | test_corrected_single.py:97-118 | Returns True exactly when `point2dem` exits with 0. |
| SingleFileTest.ConversionCommandSplits | test_corrected_single.py:58 | `aster2asp` gets the directory, `-o` and the prefix as separate words. |
| SingleFileTest.StereoCommandSplits | test_corrected_single.py:81 | `stereo` gets `-t aster --stereo-algorithm asp_bm --subpixel-mode 1`, then the left image, right image, left camera, right camera and prefix, in that order. |
| SingleFileTest.DemCommandSplits | test_corrected_single.py:102-104 | `point2dem` gets `--tr` with the resolution (which reads back as that number), the word `'EPSG:32643'` as written in the command, quotes included, then `--errorimage` and the point cloud. |
| SingleFileTest.GenerateDemIgnoresPrefix | test_corrected_single.py:97-104 | The DEM step does not depend on the output prefix it is given. |
| SingleFileTest.OutcomeStopsAtFirstFailure | test_corrected_single.py:152-238 | The run stops at exactly its first failing check, and no tool runs after it. Once every check passes, it ends with the DEM it searched for, with statistics exactly when the raster reads and is not fully masked. |
| SingleFileTest.RunPipeline | test_corrected_single.py:149-241 | Returns the specified outcome, whose DEM is `<stereo prefix>-DEM.tif` for the archive's base name. It calls exactly the tools the chain reaches, in order: `aster2asp`, then `stereo` on the first match of each of the four searches, then `point2dem`. |
| SingleFileTest.RunSingleFile | test_corrected_single.py:145-241 | First comes the setup: it returns the environment `SetupEnvironment` gives and the version `AspVersion` reports, and the version probe is the first call. Then come the outcome and the pipeline calls of `RunPipeline` for `splitext(basename(zip_file))[0]`. `CallRun` gives each call's step, named after that base: `stereo --version`, `aster2asp` on the extraction directory, `stereo` with the stereo prefix, and `point2dem` on the point cloud at 30 m. |

## Left out

- All Streamlit page logic is left out: layout, styling, widgets, progress bars, download buttons, result display and the coverage map. It is presentation, with no decisions in it.
- `process_end_to_end` is left out; it only advances a progress bar.
- The cloud installer `setup_asp_for_cloud` is left out, apart from its PATH rule and its answer ("ready or not"). It downloads and unpacks files over the network.
- Running processes, the shell's expansion of `*.tif` and timeout enforcement are not modelled. Each tool run is an outcome input.
- Zip extraction, `glob`, `shutil.copy2`, `rmtree`, temporary directories and writing the uploaded bytes are inputs of the model: the lists, booleans and sets they produce.
- The way `rasterio` reads, merges, copies metadata and closes files is not modelled. `Raster.Composite` states the per-pixel maximum over integer tiles on one grid as a specification of `method='max'`; it is not tied to the bytes that `merge_dems` writes.
- Raster.GetDemStats: elevations are whole numbers. The mean, the standard deviation, bounds, CRS, shape and file size of the dictionary are not modelled; they are floating point or library metadata.
- The `:.1f` formatting, the processing time and the "above 5000 m" message are left out; they are floating point and printing.
- The hard-coded API key value, ASP directory, script location, archive path and home-directory paths become parameters of the model. `Environment.SetupEnvironment` and `SingleFileTest.RunSingleFile` take the key and the directory.
- `os.environ` is modelled as an immutable map passed in and returned. The change to the running process's environment is not modelled.
- Reconstruction.RunAspProcessing: `filter_mode` is accepted and never used, and nothing observes it. The tool timeouts fold into `TimedOut`, and any exception folds into the check it interrupts.
- Reconstruction.AspResultNeedsEveryCheck: each archive's search results are inputs. Files left by earlier archives of the same request are not modelled: the `asp_work` directories are shared, and the DEM search `dem_<base>*DEM.tif` is a prefix match.
- Merge.MergeDems: the glob of `temp_dems/*.tif` is taken to find exactly this call's copies, so a directory left over from an earlier call is not modelled. Any exception from copying, opening, merging or writing is one `ioOk` flag.
- Reconstruction.ProcessAspReconstruction and Coregistration.ProcessCoregistration: the outer exception handler, which only shows an error, is not modelled.
- Environment.SetupPath and Environment.SetupEnvironment: with an empty tool directory and PATH unset, the model sets PATH to the empty string, while the code's substring test (`"" in ""`) leaves PATH unset. The code's directory is a fixed non-empty path, so this case does not arise.
- Text.Words: the shell's word splitting is modelled only for arguments without spaces. Quoting is not modelled.
- SingleFileTest.RunSingleFile: printing, the timing, and the directory creation before each tool are not modelled. A failure to create the directory would be caught by the outer handler, and no run is made.
- SingleFileTest.RunPipeline: the DEM search `glob(<stereo prefix>-DEM.tif)` has no wildcard, so it is modelled as an existence test on that one path. A work directory or base name that itself contains `*`, `?` or `[` would make it a pattern; that case is not modelled.

## Findings

| source | as written | input that shows it | evidently intended | confidence | as-written member | corrected member |
|---|---|---|---|---|---|---|
| professional_dem_app.py:593-613 | the choice is tested for "COP30" before the ensemble case, and the ensemble label contains "COP30" | the form choice "🔄 Ensemble (COP30 + ICESat-2)" from lines 289-291 | the ensemble choice runs COP30 and then refines with ICESat-2 | not executed | Coregistration.EnsembleLabelDispatchedToCop30 | Coregistration.IntendedDispatchReachesEveryBranch |
