/**
 The provisioning callback handler: locate the step named by the request, overwrite
 its status and message, maintain its timestamps, save it, then recompute the
 owning deployment's status from all of its steps.
 */
module Infra {
  import opened Options
  import opened Models
  import opened Persistence
  import opened Aggregation

  /** The update of one step by one callback. */
  function ApplyCallback(step: DeploymentStep, status: string, message: string, now: Time): (r: DeploymentStep)
    ensures r.id == step.id && r.deploymentId == step.deploymentId && r.stepName == step.stepName
    ensures r.status == status && r.message == message
    // `started_at` is written once: at the first running callback, never afterwards
    ensures step.startedAt.Some? ==> r.startedAt == step.startedAt
    ensures status == Running ==> r.startedAt.Some?
    ensures r.startedAt != step.startedAt ==> status == Running && step.startedAt.None? && r.startedAt == Some(now)
    // `completed_at` is rewritten by every terminal callback and kept otherwise
    ensures status == Completed || status == Failed ==> r.completedAt == Some(now)
    ensures status != Completed && status != Failed ==> r.completedAt == step.completedAt
  {
    var started := if status == Running && step.startedAt.None? then Some(now) else step.startedAt;
    var completed := if status == Completed || status == Failed then Some(now) else step.completedAt;
    step.(status := status, message := message, startedAt := started, completedAt := completed)
  }

  /** One delivered callback for a fixed step: what it reports and when it arrived. */
  datatype Call = Call(status: string, message: string, now: Time)

  predicate IsTerminal(status: string) {
    status == Completed || status == Failed
  }

  /** A step after a series of callbacks, the last one applied last. */
  function ApplyAll(step: DeploymentStep, calls: seq<Call>): DeploymentStep
    decreases |calls|
  {
    if |calls| == 0 then step
    else
      var last := calls[|calls| - 1];
      ApplyCallback(ApplyAll(step, calls[..|calls| - 1]), last.status, last.message, last.now)
  }

  /** Arrival time of the first running callback, if any. */
  function FirstRunning(calls: seq<Call>): Option<Time>
    decreases |calls|
  {
    if |calls| == 0 then None
    else if calls[0].status == Running then Some(calls[0].now)
    else FirstRunning(calls[1..])
  }

  /** Arrival time of the last completed or failed callback, if any. */
  function LastTerminal(calls: seq<Call>): Option<Time>
    decreases |calls|
  {
    if |calls| == 0 then None
    else if IsTerminal(calls[|calls| - 1].status) then Some(calls[|calls| - 1].now)
    else LastTerminal(calls[..|calls| - 1])
  }

  lemma {:induction false} FirstRunningSnoc(calls: seq<Call>, c: Call)
    ensures FirstRunning(calls + [c]) ==
      if FirstRunning(calls).Some? then FirstRunning(calls)
      else if c.status == Running then Some(c.now) else None
    decreases |calls|
  {
    if |calls| > 0 {
      assert (calls + [c])[1..] == calls[1..] + [c];
      FirstRunningSnoc(calls[1..], c);
    }
  }

  /** Over any series of callbacks, `started_at` is the time of the first running one, unless it was already set. */
  lemma {:induction false} StartedAtIsFirstRunning(step: DeploymentStep, calls: seq<Call>)
    ensures ApplyAll(step, calls).startedAt ==
      if step.startedAt.Some? then step.startedAt else FirstRunning(calls)
    decreases |calls|
  {
    if |calls| > 0 {
      var init := calls[..|calls| - 1];
      var last := calls[|calls| - 1];
      StartedAtIsFirstRunning(step, init);
      FirstRunningSnoc(init, last);
      assert init + [last] == calls;
    }
  }

  /** Over any series of callbacks, `completed_at` is the time of the last terminal one, or its old value if none. */
  lemma {:induction false} CompletedAtIsLastTerminal(step: DeploymentStep, calls: seq<Call>)
    ensures ApplyAll(step, calls).completedAt ==
      if LastTerminal(calls).Some? then LastTerminal(calls) else step.completedAt
    decreases |calls|
  {
    if |calls| > 0 {
      CompletedAtIsLastTerminal(step, calls[..|calls| - 1]);
    }
  }

  /** Status and message carry no history: they are those of the last callback. */
  lemma {:induction false} LastCallbackWins(step: DeploymentStep, calls: seq<Call>)
    requires |calls| > 0
    ensures ApplyAll(step, calls).status == calls[|calls| - 1].status
    ensures ApplyAll(step, calls).message == calls[|calls| - 1].message
  {
  }

  /** Which store calls of the handler fail. */
  datatype Faults = Faults(
    stepQueryFails: bool,        // the lookup of the step errs (other than "not found")
    stepSaveFails: bool,         // saving the updated step errs
    deploymentQueryFails: bool,  // re-reading the deployment errs
    stepsQueryFails: bool,       // reading the deployment's steps errs
    deploymentSaveFails: bool)   // saving the recomputed status errs (the server ignores this error)

  const NoFaults: Faults := Faults(false, false, false, false, false)

  datatype Outcome = Outcome(store: Store, response: Response)

  /** Every step row keeps its key, owner and name: steps are never added, removed or renamed. */
  ghost predicate SameSkeleton(a: seq<DeploymentStep>, b: seq<DeploymentStep>) {
    |a| == |b| &&
    forall i :: 0 <= i < |a| ==>
      a[i].id == b[i].id && a[i].deploymentId == b[i].deploymentId && a[i].stepName == b[i].stepName
  }

  /**
   The second half of the handler, once the updated step is saved: re-read the
   deployment (a failure answers 500), read its steps and recompute its status
   (a failure of either the read or the save is ignored), answer 200 with the step.
   */
  function RecomputeDeployment(saved: Store, deploymentId: nat, step: DeploymentStep, faults: Faults): (out: Outcome)
    ensures out.store.steps == saved.steps
    ensures out.store.nextDeploymentId == saved.nextDeploymentId && out.store.nextStepId == saved.nextStepId
    ensures out.response.ServerError? <==> faults.deploymentQueryFails || deploymentId !in saved.deployments
    ensures out.response.ServerError? ==> out.store == saved
    ensures !out.response.ServerError? ==> out.response == StepUpdated(step)
    // only the named deployment can change, and only its status, to the recomputed one
    ensures out.store.deployments.Keys == saved.deployments.Keys
    ensures forall id :: id in saved.deployments && id != deploymentId ==> out.store.deployments[id] == saved.deployments[id]
    ensures deploymentId in saved.deployments ==>
      var d := saved.deployments[deploymentId];
      var recomputed := d.(status := NextStatus(d.status, Statuses(StepsOf(saved.steps, deploymentId))));
      && (out.store.deployments[deploymentId] == d || out.store.deployments[deploymentId] == recomputed)
      && (!faults.deploymentQueryFails && !faults.stepsQueryFails && !faults.deploymentSaveFails ==>
            out.store.deployments[deploymentId] == recomputed)
      && (faults.stepsQueryFails || faults.deploymentSaveFails ==> out.store.deployments == saved.deployments)
  {
    if faults.deploymentQueryFails || deploymentId !in saved.deployments then Outcome(saved, ServerError)
    else if faults.stepsQueryFails then Outcome(saved, StepUpdated(step))
    else
      var d := saved.deployments[deploymentId];
      var recomputed := d.(status := NextStatus(d.status, Statuses(StepsOf(saved.steps, deploymentId))));
      if faults.deploymentSaveFails then Outcome(saved, StepUpdated(step))
      else Outcome(saved.(deployments := saved.deployments[deploymentId := recomputed]), StepUpdated(step))
  }

  /** `POST /api/v1/infra/callback` over the store, at time `now`. */
  function InfraCallback(db: Store, req: CallbackRequest, now: Time, faults: Faults): (out: Outcome)
    ensures out.response.Code() in {200, 400, 404, 500}
    ensures out.response.StepUpdated? || out.response.BadRequest? || out.response.NotFound? || out.response.ServerError?
    ensures !ValidCallback(req) ==> out == Outcome(db, BadRequest)
    ensures out.response.BadRequest? ==> !ValidCallback(req)
    ensures ValidCallback(req) && !faults.stepQueryFails && FindStep(db.steps, req.deploymentId, req.stepName).None?
      ==> out == Outcome(db, NotFound)
    // a failed lookup or a failed save of the step answers 500 and changes nothing
    ensures ValidCallback(req) && faults.stepQueryFails ==> out == Outcome(db, ServerError)
    ensures ValidCallback(req) && !faults.stepQueryFails && faults.stepSaveFails &&
            FindStep(db.steps, req.deploymentId, req.stepName).Some?
      ==> out == Outcome(db, ServerError)
    // at most the first matching step row changes, and it receives the callback's update
    ensures SameSkeleton(db.steps, out.store.steps)
    ensures out.store.steps == db.steps ||
      exists i :: FindStep(db.steps, req.deploymentId, req.stepName) == Some(i) &&
        out.store.steps == db.steps[i := ApplyCallback(db.steps[i], req.status, req.message, now)]
    ensures out.response.StepUpdated? ==>
      exists i :: FindStep(db.steps, req.deploymentId, req.stepName) == Some(i) &&
        out.store.steps[i] == out.response.step &&
        out.response.step == ApplyCallback(db.steps[i], req.status, req.message, now)
    // of the deployments only the status of the named one can change, and only to the recomputed status
    ensures out.store.deployments.Keys == db.deployments.Keys
    ensures forall id :: id in db.deployments && id != req.deploymentId ==> out.store.deployments[id] == db.deployments[id]
    ensures req.deploymentId in db.deployments ==>
      out.store.deployments[req.deploymentId] == db.deployments[req.deploymentId] ||
      (out.response.StepUpdated? &&
       out.store.deployments[req.deploymentId] == db.deployments[req.deploymentId].(status :=
         NextStatus(db.deployments[req.deploymentId].status, Statuses(StepsOf(out.store.steps, req.deploymentId)))))
    ensures out.store.nextDeploymentId == db.nextDeploymentId && out.store.nextStepId == db.nextStepId
    ensures out.response.ServerError? && (faults.stepQueryFails || faults.stepSaveFails) ==> out.store == db
  {
    if !ValidCallback(req) then Outcome(db, BadRequest)
    else if faults.stepQueryFails then Outcome(db, ServerError)
    else
      match FindStep(db.steps, req.deploymentId, req.stepName)
      case None => Outcome(db, NotFound)
      case Some(i) =>
        var step := ApplyCallback(db.steps[i], req.status, req.message, now);
        if faults.stepSaveFails then Outcome(db, ServerError)
        else
          RecomputeDeployment(db.(steps := db.steps[i := step]), req.deploymentId, step, faults)
  }

  /** Without faults, a callback for an existing step of an existing deployment answers 200 and recomputes the status. */
  lemma CallbackRecomputesStatus(db: Store, req: CallbackRequest, now: Time)
    requires ValidCallback(req)
    requires FindStep(db.steps, req.deploymentId, req.stepName).Some?
    requires req.deploymentId in db.deployments
    ensures var out := InfraCallback(db, req, now, NoFaults);
      out.response.StepUpdated? &&
      out.store.deployments[req.deploymentId].status ==
        NextStatus(db.deployments[req.deploymentId].status, Statuses(StepsOf(out.store.steps, req.deploymentId)))
  {
  }

  /** A failed re-read of the deployment answers 500, yet the step update stays saved. */
  lemma DeploymentReadFailureKeepsStep(db: Store, req: CallbackRequest, now: Time, faults: Faults)
    requires ValidCallback(req) && !faults.stepQueryFails && !faults.stepSaveFails
    requires faults.deploymentQueryFails || req.deploymentId !in db.deployments
    requires FindStep(db.steps, req.deploymentId, req.stepName).Some?
    ensures var i := FindStep(db.steps, req.deploymentId, req.stepName).value;
      var out := InfraCallback(db, req, now, faults);
      out.response == ServerError &&
      out.store.steps[i] == ApplyCallback(db.steps[i], req.status, req.message, now) &&
      out.store.deployments == db.deployments
  {
  }

  /** A failed read of the step list, or a failed save of the deployment, is not reported: 200 and the status stays. */
  lemma StatusUpdateFailureIsSilent(db: Store, req: CallbackRequest, now: Time, faults: Faults)
    requires ValidCallback(req) && !faults.stepQueryFails && !faults.stepSaveFails && !faults.deploymentQueryFails
    requires faults.stepsQueryFails || faults.deploymentSaveFails
    requires FindStep(db.steps, req.deploymentId, req.stepName).Some?
    requires req.deploymentId in db.deployments
    ensures var out := InfraCallback(db, req, now, faults);
      out.response.StepUpdated? && out.store.deployments == db.deployments
  {
  }

  /** Rewriting row contents and deployment statuses keeps the store's key discipline. */
  lemma SkeletonKeepsValid(db: Store, steps: seq<DeploymentStep>, deployments: map<nat, Deployment>)
    requires Valid(db) && SameSkeleton(db.steps, steps)
    requires deployments.Keys == db.deployments.Keys
    requires forall id :: id in deployments ==> deployments[id].id == db.deployments[id].id
    ensures Valid(Store(deployments, steps, db.nextDeploymentId, db.nextStepId))
  {
  }

  /** A callback keeps the store's key discipline. */
  lemma CallbackPreservesValid(db: Store, req: CallbackRequest, now: Time, faults: Faults)
    requires Valid(db)
    ensures Valid(InfraCallback(db, req, now, faults).store)
  {
    var out := InfraCallback(db, req, now, faults);
    forall id | id in out.store.deployments
      ensures out.store.deployments[id].id == db.deployments[id].id
    {
      assert id in db.deployments;
    }
    SkeletonKeepsValid(db, out.store.steps, out.store.deployments);
    assert out.store == Store(out.store.deployments, out.store.steps, db.nextDeploymentId, db.nextStepId);
  }
}
