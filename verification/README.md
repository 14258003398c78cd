# Bridge server and Ansible callback plugin — a Dafny model

The bridge server records production deployments. A client creates a deployment. The server then stores it and seeds five pending steps (`route53`, `load_balancer`, `k8s_service`, `ingress`, `domain_mapping`). Finally it launches an Ansible runner with `DEPLOYMENT_ID` set to the deployment's key.

While the playbook runs, a callback plugin inside the runner classifies each task name into one of the five steps by keyword. It then posts `running`, `completed` or `failed` reports to `POST /api/v1/infra/callback`. The server's callback handler updates the named step and its timestamps. It then recomputes the deployment's overall status from all of its steps: failed beats running, running beats completed, and otherwise the status stays as it was.

This project models that core in Dafny:

- The server's handlers are pure functions over an explicit store, with a `Faults` parameter for each database call that can fail.
- The plugin's hooks are a state machine over `current_step` that yields the payloads it would post.
- The properties the code promises are proved.

Modules, one per file:

| module | file | what it models |
|---|---|---|
| `Options`, `Seqs`, `Decimal` | `options.dfy`, `seqs.dfy`, `decimal.dfy` | option type, first-match search and filtering, decimal digit strings (`%d` rendering and reading) |
| `Models` | `models.dfy` | the records of `internal/models/deployment.go`, the status and step vocabularies, request validation, the `'pending'` column default |
| `Persistence` | `persistence.dfy` | the store: a map of deployments by key, the steps table in key order, the key counters; row insertion, `First`-style lookup, `Find`-style filtering; the HTTP responses |
| `Aggregation` | `aggregation.dfy` | the status scan and its precedence decision |
| `Infra` | `infra.dfy` | the callback handler and the per-step update |
| `Deployments` | `deployments.dfy` | creation, lookup of one deployment, lookup of its steps; path-id parsing |
| `BridgeCallback` | `bridge_callback.dfy` | the plugin: task-name classification, `int()` of `DEPLOYMENT_ID`, the report payload, the hooks |
| `Scenario` | `scenario.dfy` | properties across the components: create, then report, then aggregate |

Environment, time and failures are parameters:

- The current time `now` is a parameter of the callback handler.
- Every database error the handlers check is a boolean parameter: the fields of `Faults` (callback) and `CreateFaults` (creation), and `queryFails` for the two lookups.
- The plugin's `DEPLOYMENT_ID` environment value is an `Option<string>` parameter.

Behaviours of the code worth noting:

- A failed re-read of the deployment after the step was saved answers 500, but the step update stays saved (`Infra.DeploymentReadFailureKeepsStep`).
- `completed_at` is rewritten by every `completed` or `failed` callback, so it records the last terminal report (`Infra.ApplyCallback`).
- An error from saving the recomputed deployment status is ignored, and the answer is still 200 (`Infra.StatusUpdateFailureIsSilent`).
- `GET /deployments/:id/steps` answers 200 with an empty list for an unknown id.

## Model

Paths are relative to the repository root.

| member | source | states |
|---|---|---|
| Models.ValidCreate | production-deploy/bridge-server/internal/models/deployment.go:35-38 | `binding:"required"` on creation: name, image and domain are non-empty; the environment config may be empty |
| Models.ValidCallback | production-deploy/bridge-server/internal/models/deployment.go:43-46 | `binding:"required"` on a callback: the id is non-zero and fits Go's 64-bit `uint`, step name and status are non-empty; the message may be empty |
| Models.StatusOnInsert | production-deploy/bridge-server/internal/models/deployment.go:25 | an inserted row's status is never empty; an empty status becomes the column default `pending`, any other is kept |
| Persistence.InsertDeployment | production-deploy/bridge-server/internal/handlers/deployment.go:30 | the new row gets the next key, its status defaults as above, all other deployments and the steps table are untouched, and the key counter advances |
| Persistence.InsertSteps | production-deploy/bridge-server/internal/handlers/deployment.go:44 | a batch insert appends the rows after the existing ones with consecutive fresh keys, keeps the prefix, and leaves deployments alone |
| Persistence.InsertDeploymentValid | production-deploy/bridge-server/internal/handlers/deployment.go:30 | inserting a deployment keeps the store's key discipline (keys match ids, are below the counter, step keys ascend) |
| Persistence.InsertStepsValid | production-deploy/bridge-server/internal/handlers/deployment.go:36-44 | inserting steps owned by existing keys keeps the key discipline, including ascending step keys across old and new rows |
| Persistence.FindStep | production-deploy/bridge-server/internal/handlers/infra.go:23 | `Where(deployment_id, step_name).First`: the first matching row in table order, which is the lowest-keyed one since `Valid` keeps step keys ascending; None exactly when no row matches |
| Persistence.StepsOf | production-deploy/bridge-server/internal/handlers/infra.go:59 | `Where(deployment_id).Find`: every returned row belongs to the deployment and comes from the table, and every row of the deployment is returned, each exactly as often as it occurs in the table and rows of other deployments never |
| Aggregation.Scan | production-deploy/bridge-server/internal/handlers/infra.go:60-75 | the loop's flags: `anyFailed` iff some step failed; if none failed, `anyRunning` iff some step is running and `allCompleted` iff every step is completed |
| Aggregation.NextStatus | production-deploy/bridge-server/internal/handlers/infra.go:59-83 | failed if any step failed; else running if any is running; else completed if all are completed; else the deployment's current status |
| Aggregation.BreakIsImmaterial | production-deploy/bridge-server/internal/handlers/infra.go:64-75 | the `break` at the first failed step gives the same decision as scanning every step |
| Aggregation.OnlyOccurrencesMatter | production-deploy/bridge-server/internal/handlers/infra.go:64-83 | two step lists in which the same statuses occur give the same result, whatever their order and multiplicity |
| Aggregation.PermutationInvariant | production-deploy/bridge-server/internal/handlers/infra.go:58-83 | the row order `Find` returns does not affect the recomputed status |
| Aggregation.NoStepsMeansCompleted | production-deploy/bridge-server/internal/handlers/infra.go:60-83 | a deployment with no steps is recomputed as completed, since `allCompleted` starts true |
| Aggregation.UnknownStatusKeepsCurrent | production-deploy/bridge-server/internal/handlers/infra.go:65-83 | whenever some step has a status outside the four known ones and none is failed or running, completion is blocked and the deployment keeps its current status, whatever the other steps are |
| Infra.ApplyCallback | production-deploy/bridge-server/internal/handlers/infra.go:33-43 | key, owner and name are kept; status and message are overwritten; `started_at` is set only by a running callback and only if unset; `completed_at` is set to now by every completed or failed callback and kept otherwise |
| Infra.LastCallbackWins | production-deploy/bridge-server/internal/handlers/infra.go:34-35 | over any non-empty series of callbacks, the step's status and message are those of the last one |
| Infra.StartedAtIsFirstRunning | production-deploy/bridge-server/internal/handlers/infra.go:37-39 | over any series of callbacks, `started_at` is the arrival time of the first running one, unless it was already set |
| Infra.CompletedAtIsLastTerminal | production-deploy/bridge-server/internal/handlers/infra.go:41-43 | over any series of callbacks, `completed_at` is the arrival time of the last completed or failed one, or its old value if there was none |
| Infra.InfraCallback | production-deploy/bridge-server/internal/handlers/infra.go:13-92 | 400 iff a required field is missing or the id exceeds `uint`, with the store unchanged; 404 when no step matches; only the first matching row changes, and by `ApplyCallback`; no rows are added, removed or re-keyed; only the named deployment's status can change, and only to the recomputed status; a 200 carries the saved step; a failed step lookup, or a failed save of a found step, answers 500 with the store unchanged |
| Infra.RecomputeDeployment | production-deploy/bridge-server/internal/handlers/infra.go:51-91 | after the step is saved: 500 iff the deployment re-read fails or finds nothing, and then nothing else changes; otherwise 200 with the saved step; the steps table and all other deployments are unchanged; the named deployment keeps its row or gets the status recomputed over its steps, the recomputed one when nothing fails, and its old row when the steps read or the deployment save fails |
| Infra.CallbackRecomputesStatus | production-deploy/bridge-server/internal/handlers/infra.go:51-91 | without faults, a callback for an existing step of an existing deployment answers 200 and sets the deployment's status to the recomputation over its steps after the update |
| Infra.DeploymentReadFailureKeepsStep | production-deploy/bridge-server/internal/handlers/infra.go:45-55 | when the deployment re-read fails, the answer is 500 yet the step update is saved and the deployments are unchanged |
| Infra.StatusUpdateFailureIsSilent | production-deploy/bridge-server/internal/handlers/infra.go:59-91 | when reading the steps or saving the deployment fails, the answer is still 200 and no deployment changes |
| Infra.SkeletonKeepsValid | production-deploy/bridge-server/internal/handlers/infra.go:45-85 | rewriting row contents and deployment statuses, without touching keys, keeps the key discipline |
| Infra.CallbackPreservesValid | production-deploy/bridge-server/internal/handlers/infra.go:13-92 | every callback, under any faults, keeps the store's key discipline |
| Deployments.ParseId | production-deploy/bridge-server/internal/handlers/deployment.go:75-79 | a path id is accepted iff it is a non-empty string of ASCII digits whose value is at most 4294967295, and then its value is returned |
| Deployments.ParseIdFormat | production-deploy/bridge-server/internal/handlers/deployment.go:75 | every key in range, rendered in decimal, is accepted and read back unchanged |
| Deployments.ParseIdCanonical | production-deploy/bridge-server/internal/handlers/deployment.go:75 | an accepted id without leading zeros is exactly the decimal rendering of its value |
| Deployments.ParseIdRefusesOverflow | production-deploy/bridge-server/internal/handlers/deployment.go:75-79 | a value beyond 32 bits is refused even though it is all digits |
| Deployments.SeedSteps | production-deploy/bridge-server/internal/handlers/deployment.go:36-42 | exactly five rows for the deployment, named in the fixed order, pending, no message, no timestamps |
| Deployments.CreateDeployment | production-deploy/bridge-server/internal/handlers/deployment.go:14-57 | 400 iff name, image or domain is empty; a valid request whose two inserts succeed answers 201; no effect on 400 or a failed deployment insert; a failed step insert answers 500, with the fully populated pending deployment inserted under the next key, no step added, and the deployment insert as the only action, so nothing is launched; the runner is launched iff the answer is 201, and then after inserting that deployment and then exactly the appended rows; the created deployment has a fresh key, the request's fields and status pending; the five seeded rows are appended, pending, with no message and no timestamps |
| Deployments.GetDeployment | production-deploy/bridge-server/internal/handlers/deployment.go:73-93 | 400 iff the id does not parse; 500 iff it parses and the query fails; 404 iff it parses, the query succeeds and no deployment has that key; 200 whenever it parses, the query succeeds and the key exists, with that deployment and exactly its own steps |
| Deployments.GetDeploymentSteps | production-deploy/bridge-server/internal/handlers/deployment.go:96-112 | 400 iff the id does not parse; 500 iff it parses and the query fails; otherwise 200 with the rows of that deployment and no other, each as often as it occurs in the table, even for an unknown id |
| Deployments.CreatePreservesValid | production-deploy/bridge-server/internal/handlers/deployment.go:14-57 | creation, under any faults, keeps the store's key discipline |
| Deployments.StepsOfFreshOwner | production-deploy/bridge-server/internal/handlers/deployment.go:104-105 | rows appended under a key no earlier row carries are exactly that key's rows |
| Deployments.CreatedOwnsAppendedRows | production-deploy/bridge-server/internal/handlers/deployment.go:36-47 | after a successful creation the new deployment owns exactly the appended rows |
| Deployments.CreateThenGet | production-deploy/bridge-server/internal/handlers/deployment.go:14-112 | after a successful creation, both lookups by the rendered key return the deployment, pending, with exactly the five seeded steps in order |
| BridgeCallback.MappingCoversStepNames | production-deploy/plugins/callback/bridge_callback.py:29-35 | the plugin's mapping names the server's five steps in the same order |
| BridgeCallback.Lower | production-deploy/plugins/callback/bridge_callback.py:69 | lower-casing keeps the length and maps each ASCII capital to its small letter |
| BridgeCallback.ContainsAt | production-deploy/plugins/callback/bridge_callback.py:73 | `kw in text` holds iff `kw` starts at some position of `text` |
| BridgeCallback.MentionsAnyExists | production-deploy/plugins/callback/bridge_callback.py:72-74 | an entry matches iff one of its keywords occurs in the name |
| BridgeCallback.Classify | production-deploy/plugins/callback/bridge_callback.py:67-76 | None iff no keyword of any entry occurs in the lower-cased name; otherwise one of the five steps, namely the first entry in mapping order with a keyword in the name |
| BridgeCallback.ClassifyFirstMentioned | production-deploy/plugins/callback/bridge_callback.py:71-74 | conversely, the first entry with a keyword in the name is the step returned |
| BridgeCallback.ClassifyIgnoresCase | production-deploy/plugins/callback/bridge_callback.py:69 | a name and its lower-cased form classify the same |
| BridgeCallback.DnsSelectsRoute53 | production-deploy/plugins/callback/bridge_callback.py:30 | any name mentioning `dns` classifies as route53 |
| BridgeCallback.DnsMappingKeywordIsShadowed | production-deploy/plugins/callback/bridge_callback.py:30-34 | a name mentioning `dns_mapping` classifies as route53, so that domain_mapping keyword can never select its step |
| BridgeCallback.ServiceBeforeIngress | production-deploy/plugins/callback/bridge_callback.py:32-33 | a name mentioning both `service` and `ingress`, and no earlier keyword, classifies as k8s_service |
| BridgeCallback.PyInt | production-deploy/plugins/callback/bridge_callback.py:44 | `int()` of `DEPLOYMENT_ID`: an integer iff the stripped text is a grouped numeral of at most 4300 digits, with or without a leading sign; any other text raises ValueError; a negative result comes only from a leading minus sign |
| BridgeCallback.PyIntOfGrouped | production-deploy/plugins/callback/bridge_callback.py:44 | any digit string with single underscores between digits, within the 4300-digit limit, is read as the value of its digits |
| BridgeCallback.PyIntSigned | production-deploy/plugins/callback/bridge_callback.py:44 | such a string behind a `+` or `-` sign is read with that sign |
| BridgeCallback.PyIntSurrounded | production-deploy/plugins/callback/bridge_callback.py:44 | any surrounding whitespace is skipped: the result is that of the stripped text, whatever it is |
| BridgeCallback.PyIntLeadingZeros | production-deploy/plugins/callback/bridge_callback.py:44 | any number of leading zeros, with or without a `+`, leaves the value unchanged within the digit limit |
| BridgeCallback.PyIntRefusesLongNumerals | production-deploy/plugins/callback/bridge_callback.py:44 | a numeral of more than 4300 digits is refused with ValueError, signed or not |
| BridgeCallback.PyIntRefusesDoubleUnderscore | production-deploy/plugins/callback/bridge_callback.py:44 | any text with two adjacent underscores, and no surrounding whitespace, is refused |
| BridgeCallback.PyIntFormat | production-deploy/plugins/callback/bridge_callback.py:44 | `int()` of the decimal rendering of any number in Go's `uint` range returns that number |
| BridgeCallback.SendCallback | production-deploy/plugins/callback/bridge_callback.py:37-48 | nothing is sent iff `DEPLOYMENT_ID` is unset or empty; a ValueError is raised iff it is set but not an integer; otherwise the payload carries its integer value and the given step, status and message |
| BridgeCallback.RunnerIdRoundTrip | production-deploy/plugins/callback/bridge_callback.py:25-48 | with `DEPLOYMENT_ID` set to the decimal rendering of a key in Go's `uint` range, the plugin posts that same key |
| BridgeCallback.OnEvent | production-deploy/plugins/callback/bridge_callback.py:82-112 | a task start with a recognised name switches the current step and reports it running; an unrecognised one changes nothing; outcome events never move the current step, report only while there is one, as completed (ok) or failed (failed, unreachable), with the completion, failure or unreachable text naming the task, and the failure text carrying the error message or, when there is none, the fixed unknown-error text; every report names the current step |
| BridgeCallback.IgnoreErrorsIsIgnored | production-deploy/plugins/callback/bridge_callback.py:99-105 | a failure reports the same whether or not `ignore_errors` is set |
| BridgeCallback.RunPostsKnownSteps | production-deploy/plugins/callback/bridge_callback.py:82-112 | over any run every posted report names one of the five steps and one of running, completed, failed |
| BridgeCallback.Run | production-deploy/plugins/callback/bridge_callback.py:82-112 | the hooks applied to a series of events: at most one report is posted per event, and none at all when `DEPLOYMENT_ID` is unset or empty (lines 39-41) |
| BridgeCallback.QuietUntilRecognisedStart | production-deploy/plugins/callback/bridge_callback.py:26 | until a task with a recognised name starts, the plugin has no step and posts nothing |
| BridgeCallback.PostsWithRunnerId | production-deploy/plugins/callback/bridge_callback.py:39-48 | under the runner's id, for any key in Go's `uint` range, every requested report is posted with that id |
| BridgeCallback.StaleStepReceivesLaterFailure | production-deploy/plugins/callback/bridge_callback.py:82-105 | the step is not cleared by an unrecognised task start, so that task's later failure is reported against the last recognised step, even after it completed |
| BridgeCallback.StaleStepUnderRunnerId | production-deploy/plugins/callback/bridge_callback.py:82-105 | the same run under the runner's id, for any key in Go's `uint` range, posts exactly the three payloads running, completed, failed, all for the recognised step |
| Scenario.CallbackOnSeededStep | production-deploy/bridge-server/internal/handlers/infra.go:22-86 | in a store whose steps table holds only that deployment's five seeded rows, a callback for one step updates exactly that row and recomputes the status over all five |
| Scenario.EndToEnd | production-deploy/bridge-server/internal/handlers/infra.go:58-85 | a deployment created in an empty store is pending; one completed step keeps it pending; after all five complete it is completed |
| Scenario.ReportsReachSeededSteps | production-deploy/plugins/callback/bridge_callback.py:43-48 | for a deployment key in Go's `uint` range, every report the plugin posts under the runner's id is a callback the server accepts, naming a step that creation seeded and that the server finds |
| Decimal.Format | production-deploy/bridge-server/internal/services/runner.go:25 | the `%d` rendering of a key is a canonical digit string whose value is the key |
| Decimal.FormatLength64 | production-deploy/bridge-server/internal/services/runner.go:25 | the rendering of any 64-bit key has at most 20 digits |
| Decimal.FormatValue | production-deploy/bridge-server/internal/services/runner.go:25 | every canonical digit string is the rendering of its value |

## Left out

- `GetDeployments` (deployment.go:60-70) is not modelled. It lists every deployment with its preloaded steps, and its one interesting property is the listing order, which depends on the database.
- `HealthCheck` (infra.go:96-104) is not modelled: it returns a constant body and the current time.
- The runner's subprocess (runner.go) is reduced to the `LaunchedRunner` action and the `%d` rendering of the key. The Docker command, its environment other than `DEPLOYMENT_ID`, and its output are not modelled.
- The `go` statement makes the runner run concurrently with the 201 answer. The model records only that the launch happens after both inserts; the interleaving of the runner's callbacks with other requests is not modelled.
- JSON decoding errors (malformed bodies, wrong types) are folded into the 400 case. An id beyond Go's 64-bit `uint` is refused by `ValidCallback`, also with 400; the `binding:"required"` checks are modelled as non-empty strings and a non-zero id.
- `created_at` and `updated_at` are not modelled: they are kept by the ORM and nothing in the core reads them.
- Error message texts of the server are not modelled; responses carry their status code and payload only.
- The plugin's HTTP transport and its logging are not modelled. A report is complete once its payload is formed, and transport errors are swallowed by the source.
- `v2_playbook_on_start` and `v2_playbook_on_stats` only log, and are not modelled.
- `BRIDGE_SERVER_URL` is not modelled; the plugin's reports are assumed to reach this server.
- BridgeCallback.Lower: lower-cases ASCII letters only, because Python's full Unicode case mapping is outside the model; every step keyword is ASCII.
- BridgeCallback.PyInt: models `int()` for ASCII digits and ASCII whitespace only; Unicode digits and whitespace, which Python also accepts, are not modelled. The default limit of 4300 digits is modelled; changing it through `PYTHONINTMAXSTRDIGITS` or `sys.set_int_max_str_digits`, and interpreters older than Python 3.11 that have no limit, are not. Its contract states which texts are integers, and the `PyInt*` lemmas state their values.
- BridgeCallback.OnEvent: the task name comes as a parameter of the event. The source's fallback from `result.task_name` to `result._task.get_name()` is not modelled.
- Infra.InfraCallback: `now` is a parameter, and `time.Now()` is not modelled. All rows updated by one callback share it.
- Deployments.CreateDeployment: the deployment insert and the step insert are not a transaction in the source either. The model keeps the inserted deployment when the step insert fails, as the source does.
