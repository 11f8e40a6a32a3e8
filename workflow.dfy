/**
  The processing summary of the end-to-end page: the list of steps it shows,
  which follows from the number of uploaded archives, the multiple-file choice,
  the coregistration method and whether a validation report is requested.
*/
module Workflow {

  import opened Text

  datatype Step =
    | Convert         // ASTER L1A to ASP format
    | Stereo          // stereo processing and point cloud
    | GenerateDem     // DEM at the chosen resolution
    | MergeDems       // merging, keeping the highest elevations
    | Cop30           // COP30 coregistration
    | IceSat2         // ICESat-2 coregistration
    | IceSat2Refine   // ICESat-2 refinement after COP30
    | Validation      // validation report

  /** The number printed in front of a step. */
  function Number(s: Step): nat
  {
    match s
    case Convert => 1
    case Stereo => 2
    case GenerateDem => 3
    case MergeDems => 4
    case Cop30 => 5
    case IceSat2 => 5
    case IceSat2Refine => 6
    case Validation => 7
  }

  /** The text of a step after its number. */
  function Title(s: Step): (title: string)
    ensures |title| > 3
  {
    match s
    case Convert => "\U{1F6F0}\U{FE0F} ASTER L1A to ASP format conversion"
    case Stereo => "\U{1F504} Stereo processing and point cloud generation"
    case GenerateDem => "\U{1F5FB} DEM generation with specified resolution"
    case MergeDems => "\U{1F517} DEM merging with elevation preservation"
    case Cop30 => "\U{1F30D} COP30 coregistration"
    case IceSat2 => "\U{1F6F0}\U{FE0F} ICESat-2 coregistration"
    case IceSat2Refine => "\U{1F6F0}\U{FE0F} ICESat-2 refinement"
    case Validation => "\U{1F4CA} Validation report generation"
  }

  /** The line shown for a step: its number, a full stop, and its text. */
  function Line(s: Step): (line: string)
    ensures |line| > 3 && line[0] == DigitChar(Number(s)) && line[1] == '.' && line[2] == ' '
    ensures line[3..] == Title(s)
  {
    [DigitChar(Number(s))] + ". " + Title(s)
  }

  /** Distinct steps show distinct lines. */
  lemma LinesDistinct(s: Step, t: Step)
    requires s != t
    ensures Line(s) != Line(t)
  {
    if Number(s) == Number(t) {
      assert Title(s)[3] != Title(t)[3];
    }
  }

  /** The multiple-file choice: the radio's answer with more than one archive,
      "Single DEM" otherwise. */
  function MergeOption(numFiles: nat, radioChoice: string): (option: string)
    ensures numFiles <= 1 ==> option == SingleDem
    ensures numFiles > 1 ==> option == radioChoice
  {
    if numFiles > 1 then radioChoice else SingleDem
  }

  /** The radio's three answers and the fixed answer for a single archive. */
  const IndividualOnly: string := "Generate Individual " + "DEMs Only"
  const IndividualAndMerged: string := "Generate Individual " + "+ Merged DEM"
  const MergedOnly: string := "Generate Merged " + "DEM Only"
  const SingleDem: string := "Single DEM"
  const MergedWord: string := "Merged"

  /** Of the three radio answers, the two that mention merging ask for it. */
  lemma MergeChoices()
    ensures !Contains(IndividualOnly, MergedWord)
    ensures Contains(IndividualAndMerged, MergedWord)
    ensures Contains(MergedOnly, MergedWord)
    ensures !Contains(SingleDem, MergedWord)
  {
    IndividualOnlyLacksMerged();
    MergingChoicesMentionMerged();
    assert MergedWord[2] == 'r' && 'r' !in SingleDem;
    MissingCharRulesOut(SingleDem, MergedWord, 2);
  }

  lemma IndividualOnlyLacksMerged()
    ensures !Contains(IndividualOnly, MergedWord)
  {
    assert 'g' !in "Generate Individual " && 'g' !in "DEMs Only";
    assert MergedWord[3] == 'g' && 'g' !in IndividualOnly;
    MissingCharRulesOut(IndividualOnly, MergedWord, 3);
  }

  lemma MergingChoicesMentionMerged()
    ensures Contains(IndividualAndMerged, MergedWord)
    ensures Contains(MergedOnly, MergedWord)
  {
    var a := IndividualAndMerged;
    assert a[22] == 'M' && a[23] == 'e' && a[24] == 'r' && a[25] == 'g' && a[26] == 'e' && a[27] == 'd';
    assert OccursAt(a, MergedWord, 22);
    var b := MergedOnly;
    assert b[9] == 'M' && b[10] == 'e' && b[11] == 'r' && b[12] == 'g' && b[13] == 'e' && b[14] == 'd';
    assert OccursAt(b, MergedWord, 9);
  }

  /** Whether the merge step is listed. */
  predicate WantsMerge(numFiles: nat, mergeOption: string)
  {
    numFiles > 1 && Contains(mergeOption, MergedWord)
  }

  /** The coregistration steps a method contributes. */
  function CoregSteps(coregMethod: string): (steps: seq<Step>)
    ensures coregMethod == "COP30 Only" ==> steps == [Cop30]
    ensures coregMethod == "ICESat-2 Only" ==> steps == [IceSat2]
    ensures coregMethod != "COP30 Only" && coregMethod != "ICESat-2 Only" ==> steps == [Cop30, IceSat2Refine]
  {
    if coregMethod == "COP30 Only" then [Cop30]
    else if coregMethod == "ICESat-2 Only" then [IceSat2]
    else [Cop30, IceSat2Refine]
  }

  /** Steps are listed in increasing order of their numbers, so none twice. */
  predicate InOrder(steps: seq<Step>)
  {
    forall i, j :: 0 <= i < j < |steps| ==> Number(steps[i]) < Number(steps[j])
  }

  /** The summary list: the three reconstruction steps, the merge when it is
      wanted, the coregistration steps, and the validation report last. */
  function Planned(numFiles: nat, mergeOption: string, coregMethod: string, validation: bool): seq<Step>
  {
    [Convert, Stereo, GenerateDem]
      + (if WantsMerge(numFiles, mergeOption) then [MergeDems] else [])
      + CoregSteps(coregMethod)
      + (if validation then [Validation] else [])
  }

  /** Which steps are listed. */
  lemma {:induction false} PlannedSteps(numFiles: nat, mergeOption: string, coregMethod: string, validation: bool)
    ensures var steps := Planned(numFiles, mergeOption, coregMethod, validation);
      && |steps| >= 4 && steps[..3] == [Convert, Stereo, GenerateDem]
      && (MergeDems in steps <==> WantsMerge(numFiles, mergeOption))
      && (Cop30 in steps <==> coregMethod != "ICESat-2 Only")
      && (IceSat2 in steps <==> coregMethod == "ICESat-2 Only")
      && (IceSat2Refine in steps <==> coregMethod != "COP30 Only" && coregMethod != "ICESat-2 Only")
      && (Validation in steps <==> validation)
      && (validation ==> steps[|steps| - 1] == Validation)
  {
    var base: seq<Step> := [Convert, Stereo, GenerateDem];
    var merge: seq<Step> := if WantsMerge(numFiles, mergeOption) then [MergeDems] else [];
    var coreg := CoregSteps(coregMethod);
    var report: seq<Step> := if validation then [Validation] else [];
    var steps := base + merge + coreg + report;
    assert steps == Planned(numFiles, mergeOption, coregMethod, validation);
    assert steps[..3] == base;
    forall s ensures s in steps <==> s in base || s in merge || s in coreg || s in report {
    }
  }

  /** Steps are listed in increasing order of their numbers. */
  lemma {:induction false} PlannedInOrder(numFiles: nat, mergeOption: string, coregMethod: string, validation: bool)
    ensures InOrder(Planned(numFiles, mergeOption, coregMethod, validation))
  {
    var head: seq<Step> := [Convert, Stereo, GenerateDem]
      + (if WantsMerge(numFiles, mergeOption) then [MergeDems] else []);
    var coreg := CoregSteps(coregMethod);
    var report: seq<Step> := if validation then [Validation] else [];
    var steps := head + coreg + report;
    assert steps == Planned(numFiles, mergeOption, coregMethod, validation);
    assert forall k :: 0 <= k < |head| ==> Number(head[k]) <= 4;
    assert forall k :: 0 <= k < |coreg| ==> 5 <= Number(coreg[k]) <= 6;
    assert InOrder(head) && InOrder(coreg);
    AppendInOrder(head, coreg, 4);
    AppendInOrder(head + coreg, report, 6);
  }

  lemma AppendInOrder(a: seq<Step>, b: seq<Step>, bound: nat)
    requires InOrder(a) && InOrder(b)
    requires forall k :: 0 <= k < |a| ==> Number(a[k]) <= bound
    requires forall k :: 0 <= k < |b| ==> bound < Number(b[k])
    ensures InOrder(a + b)
  {
  }

  /** The summary list, grown the way the page grows it. */
  method PlanWorkflowSteps(numFiles: nat, mergeOption: string, coregMethod: string, validation: bool)
    returns (steps: seq<Step>)
    ensures steps == Planned(numFiles, mergeOption, coregMethod, validation)
  {
    steps := [Convert, Stereo, GenerateDem];
    if numFiles > 1 && Contains(mergeOption, MergedWord) {
      steps := steps + [MergeDems];
    }
    if coregMethod == "COP30 Only" {
      steps := steps + [Cop30];
    } else if coregMethod == "ICESat-2 Only" {
      steps := steps + [IceSat2];
    } else {
      steps := steps + [Cop30, IceSat2Refine];
    }
    if validation {
      steps := steps + [Validation];
    }
  }

  /** The shortest summary has four steps and the longest seven; a single
      archive never lists the merge, whatever the radio said. */
  lemma SummaryBounds(numFiles: nat, radioChoice: string, coregMethod: string, validation: bool)
    ensures 4 <= |Planned(numFiles, radioChoice, coregMethod, validation)| <= 7
    ensures numFiles <= 1 ==> !WantsMerge(numFiles, MergeOption(numFiles, radioChoice))
    ensures numFiles > 1 && radioChoice == IndividualOnly ==>
              !WantsMerge(numFiles, MergeOption(numFiles, radioChoice))
    ensures numFiles > 1 && (radioChoice == IndividualAndMerged || radioChoice == MergedOnly) ==>
              WantsMerge(numFiles, MergeOption(numFiles, radioChoice))
  {
    MergeChoices();
  }

}
