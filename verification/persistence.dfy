/**
 The relational store behind the handlers, reduced to its two tables, and the
 HTTP responses the handlers produce. Each store call that can fail in the server
 is given an explicit failure flag by the handler models.
 */
module Persistence {
  import opened Options
  import opened Seqs
  import opened Models

  /**
   Deployments keyed by primary key; steps as rows in primary-key order (the order
   in which the store returns them without an explicit ordering). The counters are
   the next auto-increment keys.
   */
  datatype Store = Store(
    deployments: map<nat, Deployment>,
    steps: seq<DeploymentStep>,
    nextDeploymentId: nat,
    nextStepId: nat)

  const Empty: Store := Store(map[], [], 1, 1)

  /** Keys are assigned by auto-increment: positive, below the counter, steps in increasing key order. */
  ghost predicate Valid(db: Store) {
    && 1 <= db.nextDeploymentId
    && 1 <= db.nextStepId
    && (forall id :: id in db.deployments ==> db.deployments[id].id == id && 1 <= id < db.nextDeploymentId)
    && (forall i :: 0 <= i < |db.steps| ==> 1 <= db.steps[i].id < db.nextStepId)
    && (forall i :: 0 <= i < |db.steps| ==> db.steps[i].deploymentId < db.nextDeploymentId)
    && (forall i, j :: 0 <= i < j < |db.steps| ==> db.steps[i].id < db.steps[j].id)
  }

  lemma EmptyIsValid()
    ensures Valid(Empty)
  {
  }

  /** Inserts a deployment under the next key; the status column default applies. */
  function InsertDeployment(db: Store, d: Deployment): (r: Store)
    ensures r.deployments.Keys == db.deployments.Keys + {db.nextDeploymentId}
    ensures r.deployments[db.nextDeploymentId] == d.(id := db.nextDeploymentId, status := StatusOnInsert(d.status))
    ensures forall id :: id in db.deployments && id != db.nextDeploymentId ==> r.deployments[id] == db.deployments[id]
    ensures r.steps == db.steps && r.nextDeploymentId == db.nextDeploymentId + 1 && r.nextStepId == db.nextStepId
  {
    var row := d.(id := db.nextDeploymentId, status := StatusOnInsert(d.status));
    db.(deployments := db.deployments[row.id := row], nextDeploymentId := row.id + 1)
  }

  /** Inserts a batch of steps as one statement, keys assigned consecutively; the status column default applies. */
  function InsertSteps(db: Store, batch: seq<DeploymentStep>): (r: Store)
    ensures |r.steps| == |db.steps| + |batch|
    ensures r.steps[..|db.steps|] == db.steps
    ensures forall k :: 0 <= k < |batch| ==>
      r.steps[|db.steps| + k] == batch[k].(id := db.nextStepId + k, status := StatusOnInsert(batch[k].status))
    ensures r.deployments == db.deployments && r.nextDeploymentId == db.nextDeploymentId
    ensures r.nextStepId == db.nextStepId + |batch|
  {
    var rows := seq(|batch|, k requires 0 <= k < |batch| =>
      batch[k].(id := db.nextStepId + k, status := StatusOnInsert(batch[k].status)));
    db.(steps := db.steps + rows, nextStepId := db.nextStepId + |batch|)
  }

  /** Inserting a deployment keeps the key discipline: the new key is the counter, which then advances. */
  lemma InsertDeploymentValid(db: Store, d: Deployment)
    requires Valid(db)
    ensures Valid(InsertDeployment(db, d))
  {
  }

  /** Inserting steps that belong to already-keyed deployments keeps the key discipline. */
  lemma InsertStepsValid(db: Store, batch: seq<DeploymentStep>)
    requires Valid(db)
    requires forall k :: 0 <= k < |batch| ==> batch[k].deploymentId < db.nextDeploymentId
    ensures Valid(InsertSteps(db, batch))
  {
    var r := InsertSteps(db, batch);
    forall i | 0 <= i < |r.steps|
      ensures 1 <= r.steps[i].id < r.nextStepId && r.steps[i].deploymentId < r.nextDeploymentId
    {
      if i < |db.steps| {
        assert r.steps[i] == r.steps[..|db.steps|][i];
      } else {
        assert r.steps[i] == r.steps[|db.steps| + (i - |db.steps|)];
      }
    }
    forall i, j | 0 <= i < j < |r.steps|
      ensures r.steps[i].id < r.steps[j].id
    {
      if j < |db.steps| {
        assert r.steps[i] == r.steps[..|db.steps|][i] && r.steps[j] == r.steps[..|db.steps|][j];
      } else if i < |db.steps| {
        assert r.steps[i] == r.steps[..|db.steps|][i];
        assert r.steps[j] == r.steps[|db.steps| + (j - |db.steps|)];
      } else {
        assert r.steps[i] == r.steps[|db.steps| + (i - |db.steps|)];
        assert r.steps[j] == r.steps[|db.steps| + (j - |db.steps|)];
      }
    }
  }

  predicate IsStepOf(s: DeploymentStep, deploymentId: nat, stepName: string) {
    s.deploymentId == deploymentId && s.stepName == stepName
  }

  /** `WHERE deployment_id = ? AND step_name = ?` then `First`: the lowest-keyed matching row. */
  function FindStep(steps: seq<DeploymentStep>, deploymentId: nat, stepName: string): (r: Option<nat>)
    ensures r.Some? ==> r.value < |steps| && IsStepOf(steps[r.value], deploymentId, stepName)
    ensures r.Some? ==> forall j :: 0 <= j < r.value ==> !IsStepOf(steps[j], deploymentId, stepName)
    ensures r.None? <==> forall j :: 0 <= j < |steps| ==> !IsStepOf(steps[j], deploymentId, stepName)
  {
    FirstIndex(steps, s => IsStepOf(s, deploymentId, stepName))
  }

  /** `WHERE deployment_id = ?`: the rows of one deployment, in key order. */
  function StepsOf(steps: seq<DeploymentStep>, deploymentId: nat): (r: seq<DeploymentStep>)
    ensures forall i :: 0 <= i < |r| ==> r[i].deploymentId == deploymentId && r[i] in steps
    ensures forall i :: 0 <= i < |steps| && steps[i].deploymentId == deploymentId ==> steps[i] in r
    ensures forall x {:trigger multiset(r)[x]} :: multiset(r)[x] == if x.deploymentId == deploymentId then multiset(steps)[x] else 0
  {
    Filter(steps, (s: DeploymentStep) => s.deploymentId == deploymentId)
  }

  function Statuses(steps: seq<DeploymentStep>): (r: seq<string>)
    ensures |r| == |steps|
    ensures forall i :: 0 <= i < |steps| ==> r[i] == steps[i].status
  {
    seq(|steps|, i requires 0 <= i < |steps| => steps[i].status)
  }

  /** What a handler answers; `Code` is the HTTP status. Error texts are not modelled. */
  datatype Response =
    | Created(deployment: Deployment)
    | StepUpdated(step: DeploymentStep)
    | DeploymentFound(deployment: Deployment, steps: seq<DeploymentStep>)
    | StepsFound(steps: seq<DeploymentStep>)
    | BadRequest
    | NotFound
    | ServerError
  {
    function Code(): int {
      match this
      case Created(_) => 201
      case StepUpdated(_) => 200
      case DeploymentFound(_, _) => 200
      case StepsFound(_) => 200
      case BadRequest => 400
      case NotFound => 404
      case ServerError => 500
    }
  }
}
