/**
 The records of the bridge server: a deployment, one of its provisioning steps,
 and the two request bodies the server accepts. Statuses and step names are plain
 strings, as in the server; the documented vocabularies are named constants here
 but nothing restricts a field to them.
 */
module Models {
  import opened Options

  /** An instant; the server reads the wall clock, the model takes it as a parameter. */
  type Time = nat

  const Pending: string := "pending"
  const Running: string := "running"
  const Completed: string := "completed"
  const Failed: string := "failed"

  /** The largest value of Go's `uint` on the 64-bit platforms the server runs on. */
  const MaxUint64: nat := 18446744073709551615

  /** The five provisioning steps every deployment is seeded with, in seeding order. */
  const StepNames: seq<string> := ["route53", "load_balancer", "k8s_service", "ingress", "domain_mapping"]

  /** The stored deployment row. Its `Steps` association is kept in the steps table of the store. */
  datatype Deployment = Deployment(
    id: nat,
    name: string,
    status: string,
    dockerImage: string,
    envConfig: string,
    domain: string)

  datatype DeploymentStep = DeploymentStep(
    id: nat,
    deploymentId: nat,
    stepName: string,
    status: string,
    message: string,
    startedAt: Option<Time>,
    completedAt: Option<Time>)

  /** Body of a creation request; a field absent from the JSON reads as "". */
  datatype CreateDeploymentRequest = CreateDeploymentRequest(
    name: string,
    dockerImage: string,
    envConfig: string,
    domain: string)

  /**
   Body of a provisioning callback; an absent `deployment_id` reads as 0. A JSON number
   outside `uint` fails the binding; it is kept here so that the refusal can be stated.
   */
  datatype CallbackRequest = CallbackRequest(
    deploymentId: nat,
    stepName: string,
    status: string,
    message: string)

  /** The `binding:"required"` rule: name, docker image and domain non-empty; env config optional. */
  predicate ValidCreate(req: CreateDeploymentRequest) {
    req.name != "" && req.dockerImage != "" && req.domain != ""
  }

  /**
   The binding of a callback body: the id must decode into a `uint` and, being
   `binding:"required"`, be non-zero; step name and status are required, the message optional.
   */
  predicate ValidCallback(req: CallbackRequest) {
    0 < req.deploymentId <= MaxUint64 && req.stepName != "" && req.status != ""
  }

  /** The column default `'pending'`, which the store substitutes for an empty status on insert. */
  function StatusOnInsert(status: string): (r: string)
    ensures r != ""
    ensures status != "" ==> r == status
    ensures status == "" ==> r == Pending
  {
    if status == "" then Pending else status
  }
}
