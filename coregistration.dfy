/**
  DEM coregistration: the two runners that call the external coregistration
  script against a COP30 or an ICESat-2 reference, and `process_coregistration`,
  which picks a runner from the method label the user chose, or chains COP30
  into ICESat-2 for the ensemble.

  A runner's run is reduced to what it observes: how the script ended and what
  the output search found. The script itself is not part of this model.
*/
module Coregistration {

  import opened Wrappers
  import opened Text
  import opened PathOps
  import opened ToolRuns

  // ---------------------------------------------------------------------------
  // Runners

  /** What the outside world answers during one runner call: how the script
      ended, and the list the output search returned (`*COP30*DEM.tif` or
      `*ICESat2*DEM.tif` in the output directory). */
  datatype RunObservation = RunObservation(outcome: ToolOutcome, outputs: seq<string>)

  /** What a failed run shows: `st.error` for COP30, `st.warning` for ICESat-2. */
  datatype Notice = NoNotice | ErrorNotice | WarningNotice

  /** One runner call: the argument vector of the script run, the path it
      returns, and the notice it shows. */
  datatype RunReport = RunReport(argv: seq<string>, result: Option<string>, notice: Notice)

  /** The script's argument vector; `reference` is "cop30" or "icesat2". The
      displacement, outlier and elevation-filter settings are not passed on. */
  function ScriptArgv(script: string, reference: string, demPath: string, outputDir: string): (argv: seq<string>)
    ensures |argv| == 8 && argv[3] == reference && argv[5] == demPath && argv[7] == outputDir
  {
    ["python", script, "--method", reference, "--dem-file", demPath, "--output-dir", outputDir]
  }

  /** What a runner returns once the script has run: the first output match
      after a zero exit code, None otherwise. */
  function Classify(obs: RunObservation): (r: Option<string>)
    ensures r.Some? <==> Succeeded(obs.outcome) && |obs.outputs| > 0
    ensures r.Some? ==> r.value == obs.outputs[0]
  {
    if Succeeded(obs.outcome) then FirstMatch(obs.outputs) else None
  }

  /** `run_cop30_coregistration(dem_path, output_dir, ...)`. A non-zero exit,
      a timeout or an exception shows an error; a zero exit with no output
      match returns None silently. */
  function RunCop30(script: string, demPath: string, outputDir: string, obs: RunObservation): (rep: RunReport)
    ensures rep.argv == ScriptArgv(script, "cop30", demPath, outputDir)
    ensures rep.result.Some? <==> Succeeded(obs.outcome) && |obs.outputs| > 0
    ensures rep.result.Some? ==> rep.result.value == obs.outputs[0]
    ensures rep.notice == ErrorNotice <==> !Succeeded(obs.outcome)
    ensures rep.notice != WarningNotice
  {
    RunReport(ScriptArgv(script, "cop30", demPath, outputDir), Classify(obs),
              if Succeeded(obs.outcome) then NoNotice else ErrorNotice)
  }

  /** `run_icesat2_coregistration(dem_path, output_dir, ...)`: as the COP30
      runner, but its failures are shown as warnings. */
  function RunIceSat2(script: string, demPath: string, outputDir: string, obs: RunObservation): (rep: RunReport)
    ensures rep.argv == ScriptArgv(script, "icesat2", demPath, outputDir)
    ensures rep.result.Some? <==> Succeeded(obs.outcome) && |obs.outputs| > 0
    ensures rep.result.Some? ==> rep.result.value == obs.outputs[0]
    ensures rep.notice == WarningNotice <==> !Succeeded(obs.outcome)
    ensures rep.notice != ErrorNotice
  {
    RunReport(ScriptArgv(script, "icesat2", demPath, outputDir), Classify(obs),
              if Succeeded(obs.outcome) then NoNotice else WarningNotice)
  }

  /** On the same observation the two runners return the same thing and fail
      in the same cases; they differ in the reference they ask for and in how
      loudly they report a failure. */
  lemma RunnersClassifyAlike(script: string, demPath: string, outputDir: string, obs: RunObservation)
    ensures RunCop30(script, demPath, outputDir, obs).result == RunIceSat2(script, demPath, outputDir, obs).result
    ensures (RunCop30(script, demPath, outputDir, obs).notice == ErrorNotice)
            == (RunIceSat2(script, demPath, outputDir, obs).notice == WarningNotice)
    ensures RunCop30(script, demPath, outputDir, obs).argv[3] != RunIceSat2(script, demPath, outputDir, obs).argv[3]
  {
  }

  // ---------------------------------------------------------------------------
  // Choosing a method

  /** The three choices of the coregistration form, as displayed. */
  const Cop30Label: string := "\U{1F30D} COP30 " + "(Recommended " + "- Global Coverage)"
  const IceSat2Label: string := "\U{1F6F0}\U{FE0F} ICESat-2 " + "(High Accuracy " + "- Where Available)"
  const EnsembleLabel: string := "\U{1F504} Ensemble " + "(COP30 + ICESat-2)"

  datatype Branch = Cop30Branch | IceSat2Branch | EnsembleBranch

  /** The branch `process_coregistration` takes: a choice mentioning "COP30"
      runs COP30 alone, else one mentioning "ICESat-2" runs ICESat-2 alone,
      and anything else runs the ensemble. */
  function Dispatch(choice: string): (b: Branch)
    ensures b == Cop30Branch <==> Contains(choice, "COP30")
    ensures b == IceSat2Branch <==> !Contains(choice, "COP30") && Contains(choice, "ICESat-2")
  {
    if Contains(choice, "COP30") then Cop30Branch
    else if Contains(choice, "ICESat-2") then IceSat2Branch
    else EnsembleBranch
  }

  lemma Cop30LabelMentions()
    ensures Contains(Cop30Label, "COP30")
    ensures !Contains(Cop30Label, "Ensemble")
  {
    var s := Cop30Label;
    assert s[2] == 'C' && s[3] == 'O' && s[4] == 'P' && s[5] == '3' && s[6] == '0';
    assert OccursAt(s, "COP30", 2);
    Cop30LabelLacksEnsemble();
  }

  lemma Cop30LabelLacksEnsemble()
    ensures !Contains(Cop30Label, "Ensemble")
  {
    CharNotInConcat('E', "\U{1F30D} COP30 ", "(Recommended ", "- Global Coverage)");
    MissingCharRulesOut(Cop30Label, "Ensemble", 0);
  }

  lemma IceSat2LabelMentions()
    ensures !Contains(IceSat2Label, "COP30")
    ensures Contains(IceSat2Label, "ICESat-2")
    ensures !Contains(IceSat2Label, "Ensemble")
  {
    IceSat2LabelLacksCop30();
    var s := IceSat2Label;
    assert s[3] == 'I' && s[4] == 'C' && s[5] == 'E' && s[6] == 'S' && s[7] == 'a' && s[8] == 't' && s[9] == '-' && s[10] == '2';
    assert OccursAt(s, "ICESat-2", 3);
    IceSat2LabelLacksEnsemble();
  }

  lemma IceSat2LabelLacksCop30()
    ensures !Contains(IceSat2Label, "COP30")
  {
    CharNotInConcat('P', "\U{1F6F0}\U{FE0F} ICESat-2 ", "(High Accuracy ", "- Where Available)");
    MissingCharRulesOut(IceSat2Label, "COP30", 2);
  }

  lemma IceSat2LabelLacksEnsemble()
    ensures !Contains(IceSat2Label, "Ensemble")
  {
    CharNotInConcat('m', "\U{1F6F0}\U{FE0F} ICESat-2 ", "(High Accuracy ", "- Where Available)");
    assert "Ensemble"[4] == 'm';
    MissingCharRulesOut(IceSat2Label, "Ensemble", 4);
  }

  lemma EnsembleLabelMentions()
    ensures Contains(EnsembleLabel, "COP30")
    ensures Contains(EnsembleLabel, "Ensemble")
  {
    var s := EnsembleLabel;
    assert s[12] == 'C' && s[13] == 'O' && s[14] == 'P' && s[15] == '3' && s[16] == '0';
    assert OccursAt(s, "COP30", 12);
    assert s[2] == 'E' && s[3] == 'n' && s[4] == 's' && s[5] == 'e' && s[6] == 'm' && s[7] == 'b' && s[8] == 'l' && s[9] == 'e';
    assert OccursAt(s, "Ensemble", 2);
  }

  /** As written, the ensemble choice mentions "COP30" and so runs COP30
      alone: none of the three choices reaches the ensemble branch. */
  lemma EnsembleLabelDispatchedToCop30()
    ensures Dispatch(Cop30Label) == Cop30Branch
    ensures Dispatch(IceSat2Label) == IceSat2Branch
    ensures Dispatch(EnsembleLabel) == Cop30Branch
    ensures forall choice :: choice in {Cop30Label, IceSat2Label, EnsembleLabel} ==> Dispatch(choice) != EnsembleBranch
  {
    Cop30LabelMentions();
    IceSat2LabelMentions();
    EnsembleLabelMentions();
  }

  /** The dispatch the three choices call for: a choice mentioning "Ensemble"
      is tested first. */
  function IntendedDispatch(choice: string): (b: Branch)
    ensures Contains(choice, "Ensemble") ==> b == EnsembleBranch
    ensures !Contains(choice, "Ensemble") ==> b == Dispatch(choice)
  {
    if Contains(choice, "Ensemble") then EnsembleBranch else Dispatch(choice)
  }

  /** With the intended order every choice reaches its own branch. */
  lemma IntendedDispatchReachesEveryBranch()
    ensures IntendedDispatch(Cop30Label) == Cop30Branch
    ensures IntendedDispatch(IceSat2Label) == IceSat2Branch
    ensures IntendedDispatch(EnsembleLabel) == EnsembleBranch
  {
    Cop30LabelMentions();
    IceSat2LabelMentions();
    EnsembleLabelMentions();
  }

  // ---------------------------------------------------------------------------
  // process_coregistration

  /** Where the uploaded DEM is saved. */
  function InputDemPath(tempDir: string): string
  {
    Join(tempDir, "input_dem.tif")
  }

  /** The outcome of one coregistration request: the coregistered DEM (None
      means "Coregistration failed" is shown) and the runner calls, in order. */
  datatype CoregOutcome = CoregOutcome(result: Option<string>, runs: seq<RunReport>)

  /** `process_coregistration` on a branch. `cop30Obs` and `iceObs` are what
      the COP30 and ICESat-2 runs observe when they happen. */
  function CoregisterOn(b: Branch, script: string, tempDir: string,
                        cop30Obs: RunObservation, iceObs: RunObservation): (out: CoregOutcome)
    ensures 1 <= |out.runs| <= 2
    ensures b != EnsembleBranch ==> |out.runs| == 1 && out.result == out.runs[0].result
                                    && |out.runs[0].argv| == 8 && out.runs[0].argv[5] == InputDemPath(tempDir)
    ensures b == Cop30Branch ==> out.runs[0].argv == ScriptArgv(script, "cop30", InputDemPath(tempDir), tempDir)
                                 && out.result == Classify(cop30Obs)
    ensures b == IceSat2Branch ==> out.runs[0].argv == ScriptArgv(script, "icesat2", InputDemPath(tempDir), tempDir)
                                   && out.result == Classify(iceObs)
    ensures b == EnsembleBranch ==> out.runs[0].argv == ScriptArgv(script, "cop30", InputDemPath(tempDir), tempDir)
  {
    var demPath := InputDemPath(tempDir);
    match b
    case Cop30Branch =>
      var r := RunCop30(script, demPath, tempDir, cop30Obs);
      CoregOutcome(r.result, [r])
    case IceSat2Branch =>
      var r := RunIceSat2(script, demPath, tempDir, iceObs);
      CoregOutcome(r.result, [r])
    case EnsembleBranch =>
      var c := RunCop30(script, demPath, tempDir, cop30Obs);
      if Truthy(c.result) then
        var i := RunIceSat2(script, c.result.value, tempDir, iceObs);
        CoregOutcome(i.result, [c, i])
      else
        CoregOutcome(None, [c])
  }

  /** `process_coregistration(uploaded_dem, method, ...)` as written. */
  function ProcessCoregistration(choice: string, script: string, tempDir: string,
                                 cop30Obs: RunObservation, iceObs: RunObservation): (out: CoregOutcome)
    ensures Contains(choice, "COP30") ==>
              |out.runs| == 1 && out.result == Classify(cop30Obs)
              && out.runs[0].argv == ScriptArgv(script, "cop30", InputDemPath(tempDir), tempDir)
    ensures !Contains(choice, "COP30") && Contains(choice, "ICESat-2") ==>
              |out.runs| == 1 && out.result == Classify(iceObs)
              && out.runs[0].argv == ScriptArgv(script, "icesat2", InputDemPath(tempDir), tempDir)
    ensures !Contains(choice, "COP30") && !Contains(choice, "ICESat-2") ==>
              out == CoregisterOn(EnsembleBranch, script, tempDir, cop30Obs, iceObs)
  {
    CoregisterOn(Dispatch(choice), script, tempDir, cop30Obs, iceObs)
  }

  /** In the ensemble, COP30 runs first on the uploaded DEM; when it returns
      nothing, the request fails and ICESat-2 never runs. */
  lemma EnsembleStopsWhenCop30Fails(script: string, tempDir: string,
                                    cop30Obs: RunObservation, iceObs: RunObservation)
    requires !(Succeeded(cop30Obs.outcome) && |cop30Obs.outputs| > 0 && cop30Obs.outputs[0] != "")
    ensures CoregisterOn(EnsembleBranch, script, tempDir, cop30Obs, iceObs).result.None?
    ensures |CoregisterOn(EnsembleBranch, script, tempDir, cop30Obs, iceObs).runs| == 1
    ensures CoregisterOn(EnsembleBranch, script, tempDir, cop30Obs, iceObs).runs[0].argv
              == ScriptArgv(script, "cop30", InputDemPath(tempDir), tempDir)
  {
  }

  /** In the ensemble, ICESat-2 refines COP30's output, not the uploaded DEM,
      and its answer is the answer of the request. */
  lemma EnsembleFeedsCop30Output(script: string, tempDir: string,
                                 cop30Obs: RunObservation, iceObs: RunObservation)
    requires Succeeded(cop30Obs.outcome) && |cop30Obs.outputs| > 0 && cop30Obs.outputs[0] != ""
    ensures |CoregisterOn(EnsembleBranch, script, tempDir, cop30Obs, iceObs).runs| == 2
    ensures CoregisterOn(EnsembleBranch, script, tempDir, cop30Obs, iceObs).runs[1].argv
              == ScriptArgv(script, "icesat2", cop30Obs.outputs[0], tempDir)
    ensures CoregisterOn(EnsembleBranch, script, tempDir, cop30Obs, iceObs).result
              == Classify(iceObs)
  {
  }

  /** A successful COP30 step is not kept when the ICESat-2 step fails: the
      ensemble then returns nothing at all. */
  lemma EnsembleIceFailureGivesNone(script: string, tempDir: string,
                                    cop30Obs: RunObservation, iceObs: RunObservation)
    requires Succeeded(cop30Obs.outcome) && |cop30Obs.outputs| > 0 && cop30Obs.outputs[0] != ""
    requires !Succeeded(iceObs.outcome) || |iceObs.outputs| == 0
    ensures RunCop30(script, InputDemPath(tempDir), tempDir, cop30Obs).result.Some?
    ensures CoregisterOn(EnsembleBranch, script, tempDir, cop30Obs, iceObs).result.None?
    ensures CoregisterOn(EnsembleBranch, script, tempDir, cop30Obs, iceObs).runs[1].notice
              == (if Succeeded(iceObs.outcome) then NoNotice else WarningNotice)
  {
  }

  /** ICESat-2 only ever runs on the uploaded DEM or on a DEM COP30 returned. */
  lemma IceSat2InputIsKnown(choice: string, script: string, tempDir: string,
                            cop30Obs: RunObservation, iceObs: RunObservation)
    ensures forall r :: (r in ProcessCoregistration(choice, script, tempDir, cop30Obs, iceObs).runs
                         && |r.argv| == 8 && r.argv[3] == "icesat2") ==>
              r.argv[5] == InputDemPath(tempDir) || r.argv[5] in cop30Obs.outputs
  {
  }

  /** The ensemble as written is never reached from the form: the ensemble
      choice behaves exactly like the COP30 choice. */
  lemma EnsembleChoiceRunsCop30Alone(script: string, tempDir: string,
                                     cop30Obs: RunObservation, iceObs: RunObservation)
    ensures ProcessCoregistration(EnsembleLabel, script, tempDir, cop30Obs, iceObs)
            == ProcessCoregistration(Cop30Label, script, tempDir, cop30Obs, iceObs)
    ensures |ProcessCoregistration(EnsembleLabel, script, tempDir, cop30Obs, iceObs).runs| == 1
    ensures ProcessCoregistration(EnsembleLabel, script, tempDir, cop30Obs, iceObs).runs[0].argv
              == ScriptArgv(script, "cop30", InputDemPath(tempDir), tempDir)
    ensures ProcessCoregistration(EnsembleLabel, script, tempDir, cop30Obs, iceObs).result == Classify(cop30Obs)
  {
    EnsembleLabelDispatchedToCop30();
  }

  /** The corrected request: dispatch in the intended order. */
  function IntendedProcessCoregistration(choice: string, script: string, tempDir: string,
                                         cop30Obs: RunObservation, iceObs: RunObservation): (out: CoregOutcome)
    ensures Contains(choice, "Ensemble") ==>
              out == CoregisterOn(EnsembleBranch, script, tempDir, cop30Obs, iceObs)
  {
    CoregisterOn(IntendedDispatch(choice), script, tempDir, cop30Obs, iceObs)
  }

  /** With the corrected dispatch, the ensemble choice runs ICESat-2 on COP30's
      output whenever COP30 returns a DEM. */
  lemma IntendedEnsembleRefines(script: string, tempDir: string,
                                cop30Obs: RunObservation, iceObs: RunObservation)
    requires Succeeded(cop30Obs.outcome) && |cop30Obs.outputs| > 0 && cop30Obs.outputs[0] != ""
    ensures |IntendedProcessCoregistration(EnsembleLabel, script, tempDir, cop30Obs, iceObs).runs| == 2
    ensures IntendedProcessCoregistration(EnsembleLabel, script, tempDir, cop30Obs, iceObs).runs[1].argv
              == ScriptArgv(script, "icesat2", cop30Obs.outputs[0], tempDir)
  {
    EnsembleLabelMentions();
    EnsembleFeedsCop30Output(script, tempDir, cop30Obs, iceObs);
  }

}
