/**
 Properties across the components: a deployment created by the server, reported
 on by the plugin that its runner starts, and updated by the callbacks that follow.
 */
module Scenario {
  import opened Options
  import opened Seqs
  import opened Decimal
  import opened Models
  import opened Persistence
  import opened Aggregation
  import opened Infra
  import opened Deployments
  import BridgeCallback

  /** The rows of exactly one deployment, one per seeded step name, in seeding order. */
  ghost predicate SoleDeploymentRows(db: Store, id: nat) {
    && id in db.deployments
    && |db.steps| == |StepNames|
    && (forall i :: 0 <= i < |db.steps| ==> db.steps[i].deploymentId == id)
    && (forall i :: 0 <= i < |db.steps| ==> db.steps[i].stepName == StepNames[i])
  }

  lemma StepNamesDistinct()
    ensures forall i, j :: 0 <= i < j < |StepNames| ==> StepNames[i] != StepNames[j]
  {
  }

  /** In such rows the first row for a seeded step name is the one at that name's position. */
  lemma FindSeededStep(db: Store, id: nat, k: nat)
    requires SoleDeploymentRows(db, id) && k < |StepNames|
    ensures FindStep(db.steps, id, StepNames[k]) == Some(k)
  {
    StepNamesDistinct();
    var r := FindStep(db.steps, id, StepNames[k]);
    assert IsStepOf(db.steps[k], id, StepNames[k]);
  }

  /** A callback for one of the seeded steps updates that row and recomputes the status from all five. */
  lemma CallbackOnSeededStep(db: Store, id: nat, k: nat, status: string, now: Time)
    requires SoleDeploymentRows(db, id) && 0 < id <= MaxUint64 && k < |StepNames| && status != ""
    ensures var out := InfraCallback(db, CallbackRequest(id, StepNames[k], status, ""), now, NoFaults);
      && out.response.StepUpdated?
      && out.store.steps == db.steps[k := ApplyCallback(db.steps[k], status, "", now)]
      && out.store.deployments == db.deployments[id := db.deployments[id].(status :=
           NextStatus(db.deployments[id].status, Statuses(out.store.steps)))]
      && SoleDeploymentRows(out.store, id)
  {
    FindSeededStep(db, id, k);
    var steps := db.steps[k := ApplyCallback(db.steps[k], status, "", now)];
    OwnedRows(steps, id);
  }

  lemma OwnedRows(steps: seq<DeploymentStep>, id: nat)
    requires forall i :: 0 <= i < |steps| ==> steps[i].deploymentId == id
    ensures StepsOf(steps, id) == steps
  {
    FilterAllOrNothing(steps, (s: DeploymentStep) => s.deploymentId == id);
  }

  const Api: CreateDeploymentRequest := CreateDeploymentRequest("api", "img:1", "", "api.example.com")

  /** Creating the first deployment in an empty store seeds its five rows under key 1, in a store that keeps the key discipline. */
  lemma CreateApi()
    ensures var out := CreateDeployment(Empty, Api, CreateFaults(false, false));
      && Valid(out.store)
      && out.response == Created(Deployment(1, "api", Pending, "img:1", "", "api.example.com"))
      && out.store.deployments[1].status == Pending
      && SoleDeploymentRows(out.store, 1)
      && Statuses(out.store.steps) == [Pending, Pending, Pending, Pending, Pending]
  {
    var out := CreateDeployment(Empty, Api, CreateFaults(false, false));
    EmptyIsValid();
    CreatePreservesValid(Empty, Api, CreateFaults(false, false));
    assert Statuses(out.store.steps) == [Pending, Pending, Pending, Pending, Pending];
  }

  /** A completed callback for a seeded step marks exactly that position completed. */
  lemma CompleteStep(db: Store, k: nat, now: Time)
    requires SoleDeploymentRows(db, 1) && k < |StepNames|
    ensures var out := InfraCallback(db, CallbackRequest(1, StepNames[k], Completed, ""), now, NoFaults);
      && SoleDeploymentRows(out.store, 1)
      && Statuses(out.store.steps) == Statuses(db.steps)[k := Completed]
      && out.store.deployments[1].status == NextStatus(db.deployments[1].status, Statuses(out.store.steps))
  {
    CallbackOnSeededStep(db, 1, k, Completed, now);
  }

  lemma OnePendingKeepsStatus(current: string)
    ensures NextStatus(current, [Completed, Pending, Pending, Pending, Pending]) == current
  {
    var statuses := [Completed, Pending, Pending, Pending, Pending];
    assert statuses[1] != Completed;
    assert Failed !in statuses && Running !in statuses;
  }

  lemma AllCompletedCompletes(current: string)
    ensures NextStatus(current, [Completed, Completed, Completed, Completed, Completed]) == Completed
  {
    var statuses := [Completed, Completed, Completed, Completed, Completed];
    assert Failed !in statuses && Running !in statuses;
  }

  /** From five pending rows, completing the first leaves the deployment's status as it was. */
  lemma FirstCompletionKeepsStatus(db0: Store, t0: Time)
    requires SoleDeploymentRows(db0, 1)
    requires Statuses(db0.steps) == [Pending, Pending, Pending, Pending, Pending]
    ensures var db1 := InfraCallback(db0, CallbackRequest(1, StepNames[0], Completed, ""), t0, NoFaults).store;
      && db1.deployments[1].status == db0.deployments[1].status
      && SoleDeploymentRows(db1, 1)
      && Statuses(db1.steps) == [Completed, Pending, Pending, Pending, Pending]
  {
    CompleteStep(db0, 0, t0);
    OnePendingKeepsStatus(db0.deployments[1].status);
  }

  /** After creation the deployment is pending, and one completed step leaves it pending. */
  lemma FirstStepKeepsPending(t0: Time)
    ensures
      var db0 := CreateDeployment(Empty, Api, CreateFaults(false, false)).store;
      var db1 := InfraCallback(db0, CallbackRequest(1, "route53", Completed, ""), t0, NoFaults).store;
      && db0.deployments[1].status == Pending
      && db1.deployments[1].status == Pending
      && SoleDeploymentRows(db1, 1)
      && Statuses(db1.steps) == [Completed, Pending, Pending, Pending, Pending]
  {
    CreateApi();
    var db0 := CreateDeployment(Empty, Api, CreateFaults(false, false)).store;
    FirstCompletionKeepsStatus(db0, t0);
  }

  /** Completing the step at position k, with the statuses before known. */
  lemma CompleteKnown(db: Store, k: nat, now: Time, before: seq<string>)
    requires SoleDeploymentRows(db, 1) && k < |StepNames| && Statuses(db.steps) == before
    ensures var out := InfraCallback(db, CallbackRequest(1, StepNames[k], Completed, ""), now, NoFaults).store;
      SoleDeploymentRows(out, 1) && Statuses(out.steps) == before[k := Completed]
  {
    CompleteStep(db, k, now);
  }

  /** The statuses as the steps complete in seeding order. */
  lemma CompletionOrder()
    ensures var P, C := Pending, Completed;
      && [C, P, P, P, P][1 := C] == [C, C, P, P, P]
      && [C, C, P, P, P][2 := C] == [C, C, C, P, P]
      && [C, C, C, P, P][3 := C] == [C, C, C, C, P]
      && [C, C, C, C, P][4 := C] == [C, C, C, C, C]
  {
  }

  /** The second and third completions. */
  lemma MiddleStepsComplete(db1: Store, t1: Time, t2: Time)
    requires SoleDeploymentRows(db1, 1)
    requires Statuses(db1.steps) == [Completed, Pending, Pending, Pending, Pending]
    ensures
      var db2 := InfraCallback(db1, CallbackRequest(1, StepNames[1], Completed, ""), t1, NoFaults).store;
      var db3 := InfraCallback(db2, CallbackRequest(1, StepNames[2], Completed, ""), t2, NoFaults).store;
      SoleDeploymentRows(db3, 1) && Statuses(db3.steps) == [Completed, Completed, Completed, Pending, Pending]
  {
    var P, C := Pending, Completed;
    CompleteKnown(db1, 1, t1, [C, P, P, P, P]);
    var db2 := InfraCallback(db1, CallbackRequest(1, StepNames[1], Completed, ""), t1, NoFaults).store;
    CompletionOrder();
    CompleteKnown(db2, 2, t2, [C, C, P, P, P]);
  }

  /** Completing the last pending step completes the deployment. */
  lemma LastStepCompletes(db4: Store, t4: Time)
    requires SoleDeploymentRows(db4, 1)
    requires Statuses(db4.steps) == [Completed, Completed, Completed, Completed, Pending]
    ensures InfraCallback(db4, CallbackRequest(1, StepNames[4], Completed, ""), t4, NoFaults).store.deployments[1].status
      == Completed
  {
    CompleteStep(db4, 4, t4);
    CompletionOrder();
    AllCompletedCompletes(db4.deployments[1].status);
  }

  /** The last two completions make the deployment completed. */
  lemma LastStepsComplete(db3: Store, t3: Time, t4: Time)
    requires SoleDeploymentRows(db3, 1)
    requires Statuses(db3.steps) == [Completed, Completed, Completed, Pending, Pending]
    ensures
      var db4 := InfraCallback(db3, CallbackRequest(1, StepNames[3], Completed, ""), t3, NoFaults).store;
      var db5 := InfraCallback(db4, CallbackRequest(1, StepNames[4], Completed, ""), t4, NoFaults).store;
      db5.deployments[1].status == Completed
  {
    var P, C := Pending, Completed;
    CompleteKnown(db3, 3, t3, [C, C, C, P, P]);
    CompletionOrder();
    LastStepCompletes(InfraCallback(db3, CallbackRequest(1, StepNames[3], Completed, ""), t3, NoFaults).store, t4);
  }

  /**
   The end-to-end run: after creation the deployment is pending; one completed step
   leaves it pending; once all five steps have completed it is completed.
   */
  lemma EndToEnd(t0: Time, t1: Time, t2: Time, t3: Time, t4: Time)
    ensures
      var db0 := CreateDeployment(Empty, Api, CreateFaults(false, false)).store;
      var db1 := InfraCallback(db0, CallbackRequest(1, "route53", Completed, ""), t0, NoFaults).store;
      var db2 := InfraCallback(db1, CallbackRequest(1, "load_balancer", Completed, ""), t1, NoFaults).store;
      var db3 := InfraCallback(db2, CallbackRequest(1, "k8s_service", Completed, ""), t2, NoFaults).store;
      var db4 := InfraCallback(db3, CallbackRequest(1, "ingress", Completed, ""), t3, NoFaults).store;
      var db5 := InfraCallback(db4, CallbackRequest(1, "domain_mapping", Completed, ""), t4, NoFaults).store;
      && db0.deployments[1].status == Pending
      && db1.deployments[1].status == Pending
      && db5.deployments[1].status == Completed
  {
    FirstStepKeepsPending(t0);
    var db0 := CreateDeployment(Empty, Api, CreateFaults(false, false)).store;
    var db1 := InfraCallback(db0, CallbackRequest(1, "route53", Completed, ""), t0, NoFaults).store;
    MiddleStepsComplete(db1, t1, t2);
    var db2 := InfraCallback(db1, CallbackRequest(1, StepNames[1], Completed, ""), t1, NoFaults).store;
    var db3 := InfraCallback(db2, CallbackRequest(1, StepNames[2], Completed, ""), t2, NoFaults).store;
    LastStepsComplete(db3, t3, t4);
    assert StepNames[1] == "load_balancer" && StepNames[2] == "k8s_service";
    assert StepNames[3] == "ingress" && StepNames[4] == "domain_mapping";
  }

  /**
   Every report the plugin posts under the id the runner was given is a well-formed
   callback naming a step that the creation seeded.
   */
  lemma ReportsReachSeededSteps(db: Store, req: CreateDeploymentRequest, st: BridgeCallback.PluginState,
                                events: seq<BridgeCallback.Event>)
    requires Valid(db) && ValidCreate(req) && BridgeCallback.KnownState(st) && db.nextDeploymentId <= MaxUint64
    ensures var out := CreateDeployment(db, req, CreateFaults(false, false));
      var id := out.response.deployment.id;
      forall p :: p in BridgeCallback.Run(Some(Format(id)), st, events).posted ==>
        && p.deploymentId == id
        && ValidCallback(CallbackRequest(id, p.stepName, p.status, p.message))
        && FindStep(out.store.steps, id, p.stepName).Some?
  {
    var out := CreateDeployment(db, req, CreateFaults(false, false));
    CreatedFindsSeededSteps(db, req);
    PostsReachSteps(out.store.steps, out.response.deployment.id, st, events);
  }

  /** After a successful creation every seeded step name is found under the new id. */
  lemma CreatedFindsSeededSteps(db: Store, req: CreateDeploymentRequest)
    requires Valid(db) && ValidCreate(req)
    ensures var out := CreateDeployment(db, req, CreateFaults(false, false));
      forall k :: 0 <= k < |StepNames| ==> FindStep(out.store.steps, out.response.deployment.id, StepNames[k]).Some?
  {
    var out := CreateDeployment(db, req, CreateFaults(false, false));
    forall k | 0 <= k < |StepNames|
      ensures FindStep(out.store.steps, out.response.deployment.id, StepNames[k]).Some?
    {
      assert IsStepOf(out.store.steps[|db.steps| + k], out.response.deployment.id, StepNames[k]);
    }
  }

  /** Reports posted under an id whose seeded steps are all present are well-formed callbacks that find their row. */
  lemma PostsReachSteps(steps: seq<DeploymentStep>, id: nat, st: BridgeCallback.PluginState,
                        events: seq<BridgeCallback.Event>)
    requires 0 < id <= MaxUint64 && BridgeCallback.KnownState(st)
    requires forall k :: 0 <= k < |StepNames| ==> FindStep(steps, id, StepNames[k]).Some?
    ensures forall p :: p in BridgeCallback.Run(Some(Format(id)), st, events).posted ==>
      && p.deploymentId == id
      && ValidCallback(CallbackRequest(id, p.stepName, p.status, p.message))
      && FindStep(steps, id, p.stepName).Some?
  {
    BridgeCallback.RunPostsKnownSteps(Some(Format(id)), st, events);
    forall p | p in BridgeCallback.Run(Some(Format(id)), st, events).posted
      ensures p.deploymentId == id
    {
      PostedUnderId(id, st, events, p);
    }
  }

  /** Everything posted under a rendered id carries that id. */
  lemma {:induction false} PostedUnderId(id: nat, st: BridgeCallback.PluginState, events: seq<BridgeCallback.Event>,
                                         p: BridgeCallback.Payload)
    requires id <= MaxUint64
    requires p in BridgeCallback.Run(Some(Format(id)), st, events).posted
    ensures p.deploymentId == id
    decreases |events|
  {
    var r := BridgeCallback.OnEvent(st, events[0]);
    if r.request.Some? {
      BridgeCallback.PostsWithRunnerId(id, r.request.value);
    }
    if p !in BridgeCallback.Posts(Some(Format(id)), r.request) {
      PostedUnderId(id, r.state, events[1..], p);
    }
  }
}
