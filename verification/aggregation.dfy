/**
 The rule that derives a deployment's overall status from the statuses of its
 steps. The server scans the steps once, collecting three flags and stopping at
 the first failed step, then decides by precedence: failed, running, completed,
 and otherwise keeps the status the deployment already has.
 */
module Aggregation {
  import opened Models

  /** The three flags of the scan. */
  datatype Flags = Flags(allCompleted: bool, anyFailed: bool, anyRunning: bool)

  const Start: Flags := Flags(true, false, false)

  ghost predicate AllCompleted(statuses: seq<string>) {
    forall i :: 0 <= i < |statuses| ==> statuses[i] == Completed
  }

  /** The scan as the server runs it, including the `break` at the first failed step. */
  function Scan(statuses: seq<string>, acc: Flags): (r: Flags)
    ensures r.anyFailed == (acc.anyFailed || Failed in statuses)
    ensures !r.anyFailed ==> r.anyRunning == (acc.anyRunning || Running in statuses)
    ensures !r.anyFailed ==> r.allCompleted == (acc.allCompleted && AllCompleted(statuses))
    decreases |statuses|
  {
    if |statuses| == 0 then acc
    else if statuses[0] == Failed then acc.(anyFailed := true)
    else
      var seenRunning := if statuses[0] == Running then acc.(anyRunning := true) else acc;
      var next := if statuses[0] != Completed then seenRunning.(allCompleted := false) else seenRunning;
      Scan(statuses[1..], next)
  }

  /** The same scan without the early exit. */
  function FullScan(statuses: seq<string>, acc: Flags): (r: Flags)
    ensures r.anyFailed == (acc.anyFailed || Failed in statuses)
    ensures r.anyRunning == (acc.anyRunning || Running in statuses)
    decreases |statuses|
  {
    if |statuses| == 0 then acc
    else
      var seenFailed := if statuses[0] == Failed then acc.(anyFailed := true) else acc;
      var seenRunning := if statuses[0] == Running then seenFailed.(anyRunning := true) else seenFailed;
      var next := if statuses[0] != Completed then seenRunning.(allCompleted := false) else seenRunning;
      FullScan(statuses[1..], next)
  }

  lemma {:induction false} FullScanAllCompleted(statuses: seq<string>, acc: Flags)
    ensures FullScan(statuses, acc).allCompleted == (acc.allCompleted && AllCompleted(statuses))
    decreases |statuses|
  {
    if |statuses| > 0 {
      var seenFailed := if statuses[0] == Failed then acc.(anyFailed := true) else acc;
      var seenRunning := if statuses[0] == Running then seenFailed.(anyRunning := true) else seenFailed;
      var next := if statuses[0] != Completed then seenRunning.(allCompleted := false) else seenRunning;
      FullScanAllCompleted(statuses[1..], next);
    }
  }

  /** The precedence applied to the flags; `current` survives when no rule fires. */
  function Decide(current: string, f: Flags): string {
    if f.anyFailed then Failed
    else if f.anyRunning then Running
    else if f.allCompleted then Completed
    else current
  }

  /** The deployment status after a recomputation over the given step statuses. */
  function NextStatus(current: string, statuses: seq<string>): (r: string)
    ensures Failed in statuses ==> r == Failed
    ensures Failed !in statuses && Running in statuses ==> r == Running
    ensures Failed !in statuses && Running !in statuses && AllCompleted(statuses) ==> r == Completed
    ensures Failed !in statuses && Running !in statuses && !AllCompleted(statuses) ==> r == current
  {
    Decide(current, Scan(statuses, Start))
  }

  /** Stopping at the first failed step does not change the decision. */
  lemma BreakIsImmaterial(current: string, statuses: seq<string>)
    ensures Decide(current, Scan(statuses, Start)) == Decide(current, FullScan(statuses, Start))
  {
    FullScanAllCompleted(statuses, Start);
  }

  /** The result depends only on which statuses occur, not on their order or multiplicity. */
  lemma {:induction false} OnlyOccurrencesMatter(current: string, a: seq<string>, b: seq<string>)
    requires forall x :: x in a <==> x in b
    ensures NextStatus(current, a) == NextStatus(current, b)
  {
    if AllCompleted(a) {
      forall i | 0 <= i < |b| ensures b[i] == Completed {
        assert b[i] in a;
      }
    }
    if AllCompleted(b) {
      forall i | 0 <= i < |a| ensures a[i] == Completed {
        assert a[i] in b;
      }
    }
  }

  /** In particular a permutation of the steps leaves the result unchanged. */
  lemma PermutationInvariant(current: string, a: seq<string>, b: seq<string>)
    requires multiset(a) == multiset(b)
    ensures NextStatus(current, a) == NextStatus(current, b)
  {
    forall x ensures x in a <==> x in b {
      assert x in a <==> x in multiset(a);
      assert x in b <==> x in multiset(b);
    }
    OnlyOccurrencesMatter(current, a, b);
  }

  /** A deployment without steps is reported completed: `allCompleted` starts true. */
  lemma NoStepsMeansCompleted(current: string)
    ensures NextStatus(current, []) == Completed
  {
  }

  /** A status outside the documented four blocks completion without firing a rule, so the current status stays. */
  lemma UnknownStatusKeepsCurrent(current: string, statuses: seq<string>, unknown: string)
    requires unknown in statuses && unknown !in {Pending, Running, Completed, Failed}
    requires Failed !in statuses && Running !in statuses
    ensures NextStatus(current, statuses) == current
  {
    var i :| 0 <= i < |statuses| && statuses[i] == unknown;
    assert !AllCompleted(statuses);
  }
}
