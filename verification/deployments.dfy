/**
 The deployment handlers: creation (insert the deployment, seed its five steps,
 launch the provisioning runner, in that order), lookup of one deployment with its
 steps, and lookup of the steps alone. Path ids are read as Go's
 `strconv.ParseUint(s, 10, 32)` reads them.
 */
module Deployments {
  import opened Options
  import opened Seqs
  import opened Decimal
  import opened Models
  import opened Persistence

  const MaxUint32: nat := 4294967295

  /** A path id: a non-empty run of ASCII digits (no sign, no underscores) whose value fits in 32 bits. */
  function ParseId(s: string): (r: Option<nat>)
    ensures r.Some? ==> |s| > 0 && AllDigits(s) && r.value == Value(s) && r.value <= MaxUint32
    ensures r.None? ==> |s| == 0 || !AllDigits(s) || Value(s) > MaxUint32
  {
    if |s| > 0 && AllDigits(s) && Value(s) <= MaxUint32 then Some(Value(s)) else None
  }

  /** Every id in range is accepted in its rendered form and read back unchanged. */
  lemma ParseIdFormat(n: nat)
    requires n <= MaxUint32
    ensures ParseId(Format(n)) == Some(n)
  {
  }

  /** An accepted id without leading zeros is exactly the rendering of its value. */
  lemma ParseIdCanonical(s: string)
    requires ParseId(s).Some? && Canonical(s)
    ensures Format(ParseId(s).value) == s
  {
    FormatValue(s);
  }

  /** Values beyond 32 bits are refused even though every character is a digit. */
  lemma ParseIdRefusesOverflow(n: nat)
    requires n > MaxUint32
    ensures ParseId(Format(n)) == None
  {
  }

  /** The five pending steps a new deployment is seeded with, in seeding order. */
  function SeedSteps(deploymentId: nat): (r: seq<DeploymentStep>)
    ensures |r| == |StepNames| == 5
    ensures forall k :: 0 <= k < |r| ==>
      r[k].deploymentId == deploymentId && r[k].stepName == StepNames[k] && r[k].status == Pending &&
      r[k].message == "" && r[k].startedAt.None? && r[k].completedAt.None?
  {
    seq(|StepNames|, k requires 0 <= k < |StepNames| =>
      DeploymentStep(0, deploymentId, StepNames[k], Pending, "", None, None))
  }

  /** The observable actions of a creation, in the order they happen. */
  datatype Action =
    | InsertedDeployment(deployment: Deployment)
    | InsertedSteps(steps: seq<DeploymentStep>)
    | LaunchedRunner(deployment: Deployment)

  /** Which store calls of creation fail. */
  datatype CreateFaults = CreateFaults(deploymentInsertFails: bool, stepsInsertFails: bool)

  datatype CreateOutcome = CreateOutcome(store: Store, response: Response, actions: seq<Action>)

  predicate RunnerLaunched(actions: seq<Action>) {
    exists k :: 0 <= k < |actions| && actions[k].LaunchedRunner?
  }

  /** `POST /api/v1/deployments` over the store. */
  function CreateDeployment(db: Store, req: CreateDeploymentRequest, faults: CreateFaults): (out: CreateOutcome)
    ensures out.response.Code() in {201, 400, 500}
    ensures out.response.Created? || out.response.BadRequest? || out.response.ServerError?
    // required fields: name, docker image, domain; the env config may be empty
    ensures out.response.BadRequest? <==> req.name == "" || req.dockerImage == "" || req.domain == ""
    ensures out.response.BadRequest? || faults.deploymentInsertFails ==> out.store == db && out.actions == []
    // a failed step insert leaves the inserted deployment in place and launches nothing
    ensures ValidCreate(req) && !faults.deploymentInsertFails && faults.stepsInsertFails ==>
      var d := Deployment(db.nextDeploymentId, req.name, Pending, req.dockerImage, req.envConfig, req.domain);
      out.response.ServerError? && out.actions == [InsertedDeployment(d)] &&
      out.store.deployments == db.deployments[db.nextDeploymentId := d] && out.store.steps == db.steps
    // a valid request whose two inserts succeed is created
    ensures ValidCreate(req) && !faults.deploymentInsertFails && !faults.stepsInsertFails ==> out.response.Created?
    // the runner is launched only after both inserts, and then the answer is 201
    ensures RunnerLaunched(out.actions) <==> out.response.Created?
    ensures out.response.Created? ==>
      |out.actions| == 3 && out.actions[0] == InsertedDeployment(out.response.deployment) &&
      out.actions[1].InsertedSteps? &&
      out.actions[2] == LaunchedRunner(out.response.deployment)
    // the created deployment: a fresh key, the request's fields, status pending
    ensures out.response.Created? ==>
      var d := out.response.deployment;
      d.id == db.nextDeploymentId && d.status == Pending && d.name == req.name &&
      d.dockerImage == req.dockerImage && d.envConfig == req.envConfig && d.domain == req.domain &&
      out.store.deployments == db.deployments[d.id := d]
    // its steps: five new rows appended, pending, owned by the new deployment, in the fixed order
    ensures out.response.Created? ==>
      |out.store.steps| == |db.steps| + 5 && out.store.steps[..|db.steps|] == db.steps &&
      out.actions[1] == InsertedSteps(out.store.steps[|db.steps|..]) &&
      forall k :: 0 <= k < 5 ==>
        var s := out.store.steps[|db.steps| + k];
        s.id == db.nextStepId + k && s.deploymentId == db.nextDeploymentId && s.stepName == StepNames[k] &&
        s.status == Pending && s.message == "" && s.startedAt.None? && s.completedAt.None?
  {
    if !ValidCreate(req) then CreateOutcome(db, BadRequest, [])
    else
      var draft := Deployment(0, req.name, Pending, req.dockerImage, req.envConfig, req.domain);
      if faults.deploymentInsertFails then CreateOutcome(db, ServerError, [])
      else
        var withDeployment := InsertDeployment(db, draft);
        var d := withDeployment.deployments[db.nextDeploymentId];
        if faults.stepsInsertFails then CreateOutcome(withDeployment, ServerError, [InsertedDeployment(d)])
        else
          var seeded := InsertSteps(withDeployment, SeedSteps(d.id));
          var rows := seeded.steps[|db.steps|..];
          var actions := [InsertedDeployment(d), InsertedSteps(rows), LaunchedRunner(d)];
          assert actions[2].LaunchedRunner?;
          CreateOutcome(seeded, Created(d), actions)
  }

  /** `GET /api/v1/deployments/:id`: the deployment with its steps attached. */
  function GetDeployment(db: Store, idParam: string, queryFails: bool): (r: Response)
    ensures r.Code() in {200, 400, 404, 500}
    ensures r.BadRequest? <==> ParseId(idParam).None?
    ensures r.NotFound? <==> ParseId(idParam).Some? && !queryFails && ParseId(idParam).value !in db.deployments
    ensures r.ServerError? <==> ParseId(idParam).Some? && queryFails
    ensures ParseId(idParam).Some? && !queryFails && ParseId(idParam).value in db.deployments ==> r.DeploymentFound?
    ensures r.DeploymentFound? ==>
      var id := ParseId(idParam).value;
      id in db.deployments && r.deployment == db.deployments[id] && r.steps == StepsOf(db.steps, id)
  {
    match ParseId(idParam)
    case None => BadRequest
    case Some(id) =>
      if queryFails then ServerError
      else if id !in db.deployments then NotFound
      else DeploymentFound(db.deployments[id], StepsOf(db.steps, id))
  }

  /** `GET /api/v1/deployments/:id/steps`: the steps owned by the id; an unknown id yields an empty list, not 404. */
  function GetDeploymentSteps(db: Store, idParam: string, queryFails: bool): (r: Response)
    ensures r.Code() in {200, 400, 500}
    ensures r.BadRequest? <==> ParseId(idParam).None?
    ensures r.StepsFound? <==> ParseId(idParam).Some? && !queryFails
    ensures r.StepsFound? ==>
      var id := ParseId(idParam).value;
      (forall i :: 0 <= i < |r.steps| ==> r.steps[i].deploymentId == id && r.steps[i] in db.steps) &&
      (forall i :: 0 <= i < |db.steps| && db.steps[i].deploymentId == id ==> db.steps[i] in r.steps) &&
      (forall x {:trigger multiset(r.steps)[x]} :: multiset(r.steps)[x] == if x.deploymentId == id then multiset(db.steps)[x] else 0)
  {
    match ParseId(idParam)
    case None => BadRequest
    case Some(id) => if queryFails then ServerError else StepsFound(StepsOf(db.steps, id))
  }

  /** Creation keeps the store's key discipline. */
  lemma CreatePreservesValid(db: Store, req: CreateDeploymentRequest, faults: CreateFaults)
    requires Valid(db)
    ensures Valid(CreateDeployment(db, req, faults).store)
  {
    if ValidCreate(req) && !faults.deploymentInsertFails {
      var draft := Deployment(0, req.name, Pending, req.dockerImage, req.envConfig, req.domain);
      var withDeployment := InsertDeployment(db, draft);
      InsertDeploymentValid(db, draft);
      if !faults.stepsInsertFails {
        InsertStepsValid(withDeployment, SeedSteps(db.nextDeploymentId));
      }
    }
  }

  /** Rows appended for a key that no earlier row carries are exactly that key's rows. */
  lemma StepsOfFreshOwner(steps: seq<DeploymentStep>, added: seq<DeploymentStep>, id: nat)
    requires forall i :: 0 <= i < |steps| ==> steps[i].deploymentId < id
    requires forall k :: 0 <= k < |added| ==> added[k].deploymentId == id
    ensures StepsOf(steps + added, id) == added
  {
    var owned := (s: DeploymentStep) => s.deploymentId == id;
    FilterAppend(steps, added, owned);
    FilterAllOrNothing(steps, owned);
    FilterAllOrNothing(added, owned);
  }

  /** After a successful creation the new deployment owns exactly the appended rows. */
  lemma CreatedOwnsAppendedRows(db: Store, req: CreateDeploymentRequest)
    requires Valid(db) && ValidCreate(req)
    ensures var out := CreateDeployment(db, req, CreateFaults(false, false));
      StepsOf(out.store.steps, db.nextDeploymentId) == out.store.steps[|db.steps|..]
  {
    var out := CreateDeployment(db, req, CreateFaults(false, false));
    var added := out.store.steps[|db.steps|..];
    assert out.store.steps == db.steps + added;
    StepsOfFreshOwner(db.steps, added, db.nextDeploymentId);
  }

  /**
   After a successful creation, looking the deployment up by its rendered id gives it
   back, pending, with exactly the five seeded steps in the fixed order.
   */
  lemma CreateThenGet(db: Store, req: CreateDeploymentRequest)
    requires Valid(db) && ValidCreate(req) && db.nextDeploymentId <= MaxUint32
    ensures var out := CreateDeployment(db, req, CreateFaults(false, false));
      var id := out.response.deployment.id;
      var found := GetDeployment(out.store, Format(id), false);
      && found.DeploymentFound?
      && found.deployment == out.response.deployment
      && found.deployment.status == Pending
      && |found.steps| == 5
      && (forall k :: 0 <= k < 5 ==>
            found.steps[k].stepName == StepNames[k] && found.steps[k].status == Pending &&
            found.steps[k].deploymentId == id)
      && GetDeploymentSteps(out.store, Format(id), false) == StepsFound(found.steps)
  {
    var out := CreateDeployment(db, req, CreateFaults(false, false));
    var id := db.nextDeploymentId;
    var added := out.store.steps[|db.steps|..];
    CreatedOwnsAppendedRows(db, req);
    ParseIdFormat(id);
    assert GetDeployment(out.store, Format(id), false) == DeploymentFound(out.response.deployment, added);
    assert forall k :: 0 <= k < 5 ==> added[k] == out.store.steps[|db.steps| + k];
  }
}
