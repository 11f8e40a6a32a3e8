/**
  How the orchestrator reads what an external step did. A tool run is reduced
  to what the caller observes (its return code, a timeout, or a failure to
  start), a file search to the list `glob` returned, and a chain of checks to
  the sequence of their pass/fail answers.
*/
module ToolRuns {

  import opened Wrappers

  /** What `subprocess.run` produced: the process exited with a code, the
      timeout expired (`TimeoutExpired`), or the call raised before or while
      running the command. */
  datatype ToolOutcome = Exited(code: int) | TimedOut | LaunchFailed

  /** The success test every runner applies: `returncode == 0`. A timeout or an
      exception is a failure. */
  predicate Succeeded(o: ToolOutcome)
  {
    o.Exited? && o.code == 0
  }

  /** `files[0] if files else None`. */
  function FirstMatch(files: seq<string>): (r: Option<string>)
    ensures r.Some? <==> |files| > 0
    ensures r.Some? ==> r.value == files[0] && r.value in files
  {
    if |files| == 0 then None else Some(files[0])
  }

  /** Python's truth test `if result:` on an optional path: present and not empty. */
  predicate Truthy(r: Option<string>)
  {
    r.Some? && r.value != ""
  }

  // ---------------------------------------------------------------------------
  // Chains of checks. `gates[i]` says whether check `i` passed; a chain runs its
  // checks in order and stops at the first one that fails.

  /** Every check before index `k` passed, so check `k` (or the step it guards) is reached. */
  predicate PassesBefore(gates: seq<bool>, k: nat)
    requires k <= |gates|
  {
    forall i :: 0 <= i < k ==> gates[i]
  }

  /** Check `k` is the first one that fails. */
  predicate FailsFirstAt(gates: seq<bool>, k: nat)
  {
    k < |gates| && PassesBefore(gates, k) && !gates[k]
  }

  /** A failed check blocks everything after it. */
  lemma GateBlocks(gates: seq<bool>, k: nat)
    requires k < |gates| && !gates[k]
    ensures forall m :: k < m <= |gates| ==> !PassesBefore(gates, m)
  {
  }

}
