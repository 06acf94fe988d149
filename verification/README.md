# memcloud backend core in Dafny

A model of the core of the memcloud backend, the service that provisions a per-user
MemMachine stack on Google Cloud and tracks it:

- the two Alembic revisions that define the database (`000_initial` creates `users`,
  `instances`, `api_keys` and `usage_metrics` with their indexes; `001_multi_tenant` adds
  eleven resource-tracking columns to `instances`), run against a model of how PostgreSQL
  executes `CREATE TABLE`, `DROP TABLE`, `CREATE INDEX`, `DROP INDEX`, `ADD COLUMN` and
  `DROP COLUMN`, with a revision as one transaction that the first refusal aborts;
- the `Instance` and `APIKey` rows: lifecycle status and how its column stores it, column defaults, `is_healthy`,
  `is_deployable`, `is_valid` and `display_key`;
- the settings object: the DEBUG validator, `get_secret`, `load_secrets`,
  `get_database_url` and `get_settings`;
- `MemMachineDeployer`: its resource names, `_generate_instance_id`, the bounded health probe
  `_validate_deployment` and the order and rollback of `deploy_complete_stack`;
- the deployment endpoints: the status snapshot with `add_step`, `complete_step` and
  `update_phase`, `start_deployment`, `get_deployment_status`, and `execute_deployment` as a
  pipeline of six stages whose events are folded over the snapshot.

Files, one module each: `wrappers.dfy` (`Option`, `Result`, `Outcome`), `strings.dfy`
(the Python string operations used), `instance.dfy`, `api_key.dfy`, `config.dfy`,
`deployer.dfy`, `deployment_tracker.dfy`, `deployment_pipeline.dfy`, `schema.dfy` (the
PostgreSQL schema and its operations), `migrations.dfy` (revision 000) and `revisions.dfy`
(revision 001 and the revision chain).

Calls the model cannot see (Secret Manager, Cloud SQL, Cloud Run, HTTP, the database
session) are parameters: a secret store is a `map`, a cloud call is an `Outcome` or a
`Result` supplied by the caller, and the health endpoint's answers are a sequence of
`Probe`s. Clocks are an integer `now` parameter, and random bytes are a parameter too.

## Model

| member | source | states |
|---|---|---|
| `Instances.ParseStatus` | backend/app/models/instance.py:17-23 | Looking a status up by its lower-case `.value`, as `InstanceStatus(v)` does, gives a state whose value is that string; anything that is not one of the six values is rejected |
| `Instances.StatusValuesRoundTrip` | backend/app/models/instance.py:17-23 | The six states have six distinct values, and each value looks up the state it came from |
| `Instances.LoadStatus` | backend/app/models/instance.py:165-170 | The `SQLEnum(InstanceStatus)` column stores member names: a stored string loads as the state with that name, and a string that names no state does not load |
| `Instances.StatusNamesRoundTrip` | backend/app/models/instance.py:165-170 | Every state stored by name loads back as itself, and its stored name is never its value |
| `Instances.UpperCaseNameIsNotAStatus` | backend/app/models/instance.py:165-170 | The column stores and loads "RUNNING", which `InstanceStatus(...)` rejects; the value "creating" (the server default of revision 000) is a status value but does not load from the column |
| `Instances.IsDeployable` | backend/app/models/instance.py:317-323 | A deployment may start exactly when the status is not RUNNING, DELETING or DELETED |
| `Instances.IsHealthy` | backend/app/models/instance.py:308-314 | An instance is healthy exactly when it is RUNNING with health "healthy", and a healthy instance is not deployable |
| `Instances.HealthyIsNotDeployable` | backend/app/models/instance.py:309-323 | A healthy instance is running, so it can never be deployed over |
| `Instances.NewInstanceDefaults` | backend/app/models/instance.py:89-219 | A freshly inserted row is CREATING with health "unknown", so it is deployable and not healthy; it gets 512 MB, one CPU, 0 to 10 instances and region us-central1 |
| `ApiKeys.DisplayKey` | backend/app/models/api_key.py:173-176 | The display form is the stored prefix followed by exactly 32 asterisks, so nothing beyond the prefix leaks |
| `ApiKeys.InactiveOrRevokedNeverValid` | backend/app/models/api_key.py:160-168 | A deactivated or revoked key is refused at every moment |
| `ApiKeys.ValidIffNotExpired` | backend/app/models/api_key.py:160-171 | For an active, unrevoked key, validity is exactly "no expiry, or the expiry is not yet past" |
| `ApiKeys.InvalidStaysInvalid` | backend/app/models/api_key.py:160-171 | Once a key is invalid it stays invalid as time goes on |
| `ApiKeys.NewKeyWithoutExpiryIsValid` | backend/app/models/api_key.py:81-111 | A newly created key with no expiry is valid at every moment; it is writable, limited to 60 requests per minute and unused |
| `Config.ValidateDebug` | backend/app/core/config.py:82-90 | The validator refuses exactly when the already-validated data says ENVIRONMENT is "production" and DEBUG is true; otherwise it returns DEBUG unchanged |
| `Config.FieldsBefore` | backend/app/core/config.py:25-29 | A field validator sees exactly the fields declared before it: a prefix of the declaration order that stops at the field, and excludes it |
| `Config.DebugCheckNeverFires` | backend/app/core/config.py:28-29 | ENVIRONMENT is declared after DEBUG, so the DEBUG validator as declared accepts every value |
| `Config.ValidateDebugWithEnvironment` | backend/app/core/config.py:82-90 | With ENVIRONMENT settled first, DEBUG=true is refused exactly in production |
| `Config.SecretResourceName` | backend/app/core/config.py:116 | A secret version's resource name is "projects/", the project, "/secrets/", the secret, "/versions/" and the version, each at its place |
| `Config.SecretResourceNamesDistinct` | backend/app/core/config.py:116 | Two secrets of one project and version never share a resource name |
| `Config.GetSecret` | backend/app/core/config.py:92-129 | A failure names the secret, records whether the environment is production, and happens only when the store lacks the version |
| `Config.DevelopmentFallbackIgnoresStore` | backend/app/core/config.py:108-112 | In development a non-empty variable named after the upper-cased secret is returned, whatever the store holds |
| `Config.StoreLookup` | backend/app/core/config.py:114-129 | Outside that fallback, the answer is the stored version, or an error when it is missing |
| `Config.LoadSecrets` | backend/app/core/config.py:131-144 | Only the database password and the JWT key change; each is fetched only if missing, and if neither is missing nothing changes |
| `Config.LoadSecretsOutcome` | backend/app/core/config.py:131-144 | Loading fails exactly when a missing secret cannot be fetched, with the password's error first; on success each missing secret holds the fetched value |
| `Config.LoadSecretsFailsWithoutPassword` | backend/app/core/config.py:138-140 | A missing database password that the store cannot supply makes loading fail with that secret's error |
| `Config.GetSettings` | backend/app/core/config.py:167-182 | Secrets are loaded in production and staging, and the settings are returned untouched elsewhere |
| `Config.DevelopmentSkipsSecrets` | backend/app/core/config.py:167-182 | A development configuration never depends on the secret store |
| `Config.GetDatabaseUrl` | backend/app/core/config.py:146-164 | With the Cloud SQL connector enabled (`USE_CLOUD_SQL_CONNECTOR`), the URL is the user, rendered password and database part, then "unix_sock=", then the socket path of the connection name; otherwise it is the user, password and host part, a slash and the database name |
| `Config.DefaultUrlBeforeLoading` | backend/app/core/config.py:36-45 | With the declared defaults and no secret loaded, the password renders as "None" inside the URL |
| `Deployer.Prefixed` | backend/app/services/memmachine_deployer.py:146-273 | Each resource name is its prefix followed by the instance id: "openai-key-" for the OpenAI secret (line 146), "memmachine-" for the Cloud SQL instance and the application service (lines 177 and 273), "neo4j-" for the graph service (line 218) |
| `Deployer.SqlConnectionName` | backend/app/services/memmachine_deployer.py:177-209 | The connection name is project, region and Cloud SQL instance name joined by colons |
| `Deployer.ServiceIdsDistinct` | backend/app/services/memmachine_deployer.py:218-292 | The Neo4j and MemMachine service ids never collide, and each name determines its instance id |
| `Deployer.ConnectionNameFields` | backend/app/services/memmachine_deployer.py:208 | When project and region contain no colon, the connection name splits back into project, region and instance name |
| `Deployer.GenerateInstanceId` | backend/app/services/memmachine_deployer.py:379-381 | An instance id is the first eight characters of the user id, a dash, and sixteen lower-case hex digits |
| `Deployer.StackSlug` | backend/app/services/memmachine_deployer.py:68 | The stack slug is "mem-", the first eight characters of the user id, a dash and eight hex digits that decode back to the random bytes |
| `Deployer.InstanceIdRandomPart` | backend/app/services/memmachine_deployer.py:381 | The random part of an instance id decodes back to the bytes drawn |
| `Deployer.ValidateDeployment` | backend/app/services/memmachine_deployer.py:342-366 | The health URL is probed until the first 200 and at most five times; success holds exactly when one of the first five probes is healthy, and there is one wait per raised probe |
| `Deployer.DeployedInstance` | backend/app/services/memmachine_deployer.py:106-121 | The record of a validated stack carries the id, user, name, slug, service name, URL, the three config entries and the deployment time, and is RUNNING and healthy, so it is not deployable |
| `Deployer.DeployCompleteStack` | backend/app/services/memmachine_deployer.py:45-142 | The secret, Cloud SQL, Neo4j, MemMachine and health steps run in order; success holds exactly when all succeed; the first failing step stops the later calls, rolls back and re-raises its own error as "Deployment failed: ..." |
| `Deployer.ProbeAndFinish` | backend/app/services/memmachine_deployer.py:97-142 | After the four provisioning calls, the stack succeeds exactly when a probe within five attempts is healthy; otherwise it rolls back |
| `DeploymentTracker.NewStatus` | backend/app/api/v1/endpoints/deployment.py:111-120 | A fresh snapshot has no steps, progress 0, the DISCOVERY phase and a pending entry for each of the six tracked phases, with none for EVOLUTION |
| `DeploymentTracker.AddStep` | backend/app/api/v1/endpoints/deployment.py:390-395 | The step is appended with its start time, and nothing else in the snapshot changes |
| `DeploymentTracker.CloseFirst` | backend/app/api/v1/endpoints/deployment.py:397-406 | Only the first step with the id is closed; steps before it and every later one are untouched |
| `DeploymentTracker.CompleteStep` | backend/app/api/v1/endpoints/deployment.py:397-406 | Only the step list changes, and an unknown id leaves the snapshot as it was |
| `DeploymentTracker.CloseLast` | backend/app/api/v1/endpoints/deployment.py:397-406 | Completing a step that was appended last under a fresh id closes exactly that step |
| `DeploymentTracker.UpdatePhase` | backend/app/api/v1/endpoints/deployment.py:384-388 | The update succeeds exactly when the phase has an entry, and then changes only that entry's status |
| `DeploymentTracker.EvolutionHasNoEntry` | backend/app/api/v1/endpoints/deployment.py:54-61 | EVOLUTION can never be updated in a snapshot started fresh, while every other phase can |
| `DeploymentTracker.GetDeploymentStatus` | backend/app/api/v1/endpoints/deployment.py:442-447 | A registered deployment's snapshot is returned, and any other id gets a 404 |
| `DeploymentTracker.InstanceSlug` | backend/app/api/v1/endpoints/deployment.py:103 | The slug is the name with each space turned into a dash and each capital lower-cased, then a dash and the first eight characters of the id |
| `DeploymentTracker.StartDeployment` | backend/app/api/v1/endpoints/deployment.py:88-140 | The row is committed before anything is registered: a failed commit inserts nothing, leaves the registry as it was and returns the error; a successful one inserts a CREATING, deployable row and registers exactly one fresh snapshot, and the response points at the WebSocket path |
| `DeploymentTracker.StartedIsPollable` | backend/app/api/v1/endpoints/deployment.py:88-140 | Right after starting, polling the deployment returns a fresh snapshot |
| `DeploymentTracker.FailedStartNotPollable` | backend/app/api/v1/endpoints/deployment.py:108-120 | After a start whose commit failed, polling its id answers 404 |
| `Strings.Lower` | backend/app/api/v1/endpoints/deployment.py:103 | No upper-case ASCII letter survives lower-casing, and every other character is kept |
| `Strings.HexRoundTrip` | backend/app/services/memmachine_deployer.py:381 | Decoding the hex encoding of bytes gives the bytes back |
| `DeploymentPipeline.BoltOfAuraUri` | backend/app/api/v1/endpoints/deployment.py:222 | Stripping the schemes from "neo4j+s://host" leaves the host, when the host mentions neither scheme |
| `DeploymentPipeline.Wire` | backend/app/api/v1/endpoints/deployment.py:207-265 | With Aura credentials the URI and its stripped host are used, otherwise the Cloud Run service's URLs; the application gets the URI when one is given, else a bolt address on port 7687 |
| `DeploymentPipeline.UriWithoutCredentials` | backend/app/api/v1/endpoints/deployment.py:207-265 | A URI without user or password still takes the Cloud Run branch, yet the application is given the service URL |
| `DeploymentPipeline.ReplayAppend` | backend/app/api/v1/endpoints/deployment.py:142-382 | Folding events over the snapshot composes: running a + b is running a, then b |
| `DeploymentPipeline.StagesReplay` | backend/app/api/v1/endpoints/deployment.py:171-304 | Replaying the events of a run of stages agrees with the stage-by-stage reference account of the snapshot |
| `DeploymentPipeline.StagesClosedForm` | backend/app/api/v1/endpoints/deployment.py:171-304 | A run of stages adds the closed steps of the stages before the first failure and then the failing step still open; it leaves the last assigned progress and clears success on a failure |
| `DeploymentPipeline.StageTraceDiscipline` | backend/app/api/v1/endpoints/deployment.py:171-304 | In every snapshot during a run of stages, at most the newest step is still open |
| `DeploymentPipeline.TraceMonotone` | backend/app/api/v1/endpoints/deployment.py:182-314 | If the progress values assigned are sorted from the starting value, no snapshot shows lower progress than an earlier one |
| `DeploymentPipeline.StagesShape` | backend/app/api/v1/endpoints/deployment.py:171-304 | There are six steps, in phases DISCOVERY, ARCHITECTURE, MVP_CORE, MVP_CORE, BETA, PRODUCTION, assigning progress 5, 35, 55, 85 and 95 after the first five |
| `DeploymentPipeline.StagesFresh` | backend/app/api/v1/endpoints/deployment.py:171-304 | The six step ids are pairwise distinct |
| `DeploymentPipeline.PhasesInOrder` | backend/app/api/v1/endpoints/deployment.py:171-304 | A later step's phase never ranks below an earlier step's phase |
| `DeploymentPipeline.StagesSucceedIff` | backend/app/api/v1/endpoints/deployment.py:171-304 | All six stages complete exactly when every provisioning call succeeds |
| `DeploymentPipeline.SuccessfulRun` | backend/app/api/v1/endpoints/deployment.py:171-322 | On full success: progress 100, quality 95, success set, the four endpoints published, one decision appended, and six completed steps in phase order |
| `DeploymentPipeline.FailedRun` | backend/app/api/v1/endpoints/deployment.py:171-363 | When a call fails, the run stops at that stage: success is cleared, earlier steps stay completed, the failing step stays open, progress keeps the last assigned value, and no endpoint or decision is recorded |
| `DeploymentPipeline.PersistFailureAfterSuccess` | backend/app/api/v1/endpoints/deployment.py:306-363 | If saving the row fails after the success assignments, success is cleared but the endpoints, the 100% progress and the decision stay |
| `DeploymentPipeline.InitFailure` | backend/app/api/v1/endpoints/deployment.py:166-168 | A deployer that cannot be constructed ends the run with success cleared and nothing else changed |
| `DeploymentPipeline.StoreSecretMissing` | backend/app/api/v1/endpoints/deployment.py:171-182 | When the first secret call fails (as it always does, `_store_secret` being undefined on the deployer), a fresh deployment ends with one open step and progress 0 |
| `DeploymentPipeline.ProgressNeverDecreases` | backend/app/api/v1/endpoints/deployment.py:182-314 | For a run starting at progress 5 or less, no snapshot a poller sees shows lower progress than an earlier one |
| `DeploymentPipeline.StepsClosedInOrder` | backend/app/api/v1/endpoints/deployment.py:171-304 | In every snapshot of a run, every added step except the newest is completed |
| `DeploymentPipeline.RunError` | backend/app/api/v1/endpoints/deployment.py:361-363 | The handler records no error exactly when every provisioning call and the row update succeed |
| `DeploymentPipeline.MarkRunning` | backend/app/api/v1/endpoints/deployment.py:334-349 | The deployed row is RUNNING and healthy; it records the deterministic resource names of its id, the service, graph and database addresses and secrets of the run, the deployment and health-check time, and `updated_at` refreshed by its `onupdate`; every other column is kept |
| `DeploymentPipeline.MarkFailed` | backend/app/api/v1/endpoints/deployment.py:375-378 | The failed row is FAILED with the error text and deployable again, and `updated_at` is refreshed by its `onupdate`; no other column changes |
| `DeploymentPipeline.InstanceAfterRun` | backend/app/api/v1/endpoints/deployment.py:324-380 | A missing row stays missing; success makes it healthy, with `updated_at` refreshed; a failure marks it FAILED unless that write fails too, which leaves it as it was |
| `Schema.ApplyAll` | backend/alembic/versions/000_initial_tables.py:19-138 | A refusal names the position of an operation that exists in the sequence |
| `Schema.ApplyAllAppend` | backend/alembic/versions/000_initial_tables.py:19-108 | Running a + b is running a, then b from where a stopped, with failure positions shifted |
| `Schema.ApplyAllFailure` | backend/alembic/versions/000_initial_tables.py:19-138 | A refused run went through its prefix and was refused exactly at the reported operation |
| `Schema.ApplyAllKeepsWellFormed` | backend/alembic/versions/000_initial_tables.py:19-138 | Operations that go through keep every foreign key and index resolving |
| `Schema.UndoRestores` | backend/alembic/versions/000_initial_tables.py:111-138 | On a well-formed schema, the matching drop undoes a creating operation exactly |
| `Schema.UndoAllRestores` | backend/alembic/versions/000_initial_tables.py:111-138 | The inverse operations in reverse order take a well-formed schema back to where an upgrade started |
| `Schema.SwapDropIndexes` | backend/alembic/versions/000_initial_tables.py:121-123 | Exchanging two neighbouring drops of different indexes gives the same outcome |
| `Schema.DuplicateIndexRefused` | backend/alembic/versions/000_initial_tables.py:35-40 | An upgrade that creates one index name twice is refused, at the second creation at the latest |
| `Schema.DuplicateDropRefused` | backend/alembic/versions/000_initial_tables.py:121-136 | A downgrade that drops one index name twice is refused, at the second drop at the latest |
| `Schema.UndoAllDropsCreated` | backend/alembic/versions/000_initial_tables.py:111-138 | The inverse of an upgrade drops, for every table, the indexes it created, in reverse order |
| `Schema.TableThenIndexes` | backend/alembic/versions/000_initial_tables.py:23-108 | A new table whose foreign keys resolve, followed by fresh and pairwise different indexes on its columns, goes through and adds exactly those |
| `Migrations.CorrectionRemovesOnlyDuplicates` | backend/alembic/versions/000_initial_tables.py:35-136 | The corrected revision differs from the file only by dropping the first, non-unique creation of each duplicated index name (lines 36 and 71) and the second drop of each (lines 128 and 136) |
| `Migrations.Upgrade000Builds` | backend/alembic/versions/000_initial_tables.py:19-108 | The corrected upgrade builds the revision-000 schema from an empty database, table by table |
| `Migrations.UsersUpgradeAsWrittenRefused` | backend/alembic/versions/000_initial_tables.py:23-40 | As written, the users block is refused at its seventh operation, the second `ix_users_firebase_uid` |
| `Migrations.Upgrade000AsWrittenRefused` | backend/alembic/versions/000_initial_tables.py:19-108 | As written, the whole upgrade is refused on an empty database, at operation 6 |
| `Migrations.InstancesUpgradeAsWrittenRefused` | backend/alembic/versions/000_initial_tables.py:43-78 | As written, the instances block is refused from any schema, because it creates `ix_instances_slug` twice |
| `Migrations.Downgrade000Undoes` | backend/alembic/versions/000_initial_tables.py:111-138 | The corrected downgrade is the inverse of the corrected upgrade, except that two neighbouring index drops are exchanged |
| `Migrations.Downgrade000Empties` | backend/alembic/versions/000_initial_tables.py:111-138 | The corrected downgrade takes the revision-000 schema back to an empty database |
| `Migrations.Downgrade000AsWrittenRefusedAnywhere` | backend/alembic/versions/000_initial_tables.py:111-138 | As written, the downgrade is refused from any schema, at operation 13 at the latest |
| `Migrations.Downgrade000AsWrittenRefused` | backend/alembic/versions/000_initial_tables.py:111-138 | From the revision-000 schema, the downgrade as written is refused at operation 13, the second drop of `ix_instances_slug` |
| `Migrations.UsersDowngradeAsWrittenRefused` | backend/alembic/versions/000_initial_tables.py:132-138 | The users downgrade block as written is refused on its own, at the latest at its second drop of `ix_users_firebase_uid` |
| `Migrations.Downgrade000DropsCreatedIndexes` | backend/alembic/versions/000_initial_tables.py:35-136 | For every table, the corrected downgrade drops exactly the index names the corrected upgrade creates |
| `Migrations.Downgrade000AsWrittenDropsCreatedIndexes` | backend/alembic/versions/000_initial_tables.py:35-136 | The file's downgrade also names every index name its upgrade creates, with the same counts |
| `Migrations.Downgrade000Blocks` | backend/alembic/versions/000_initial_tables.py:111-138 | Block by block, the downgrade drops a table's indexes before the table, and exactly the indexes that table's upgrade block created |
| `Migrations.TableOrder000` | backend/alembic/versions/000_initial_tables.py:23-138 | Tables are created parents first (users, instances, api_keys, usage_metrics) and dropped in exactly the reverse order |
| `Migrations.OutOfOrderRefused` | backend/alembic/versions/000_initial_tables.py:43-67 | Out of order the same statements are refused: instances before users, or users while still referenced |
| `Revisions.Upgrade001Runs` | backend/alembic/versions/001_add_multi_tenant_resource_tracking.py:19-43 | On the revision-000 schema the upgrade goes through; it changes only the columns of `instances` and keeps every index and foreign key |
| `Revisions.Instances001ColumnsSpecs` | backend/alembic/versions/001_add_multi_tenant_resource_tracking.py:29-43 | Afterwards `instances` has exactly its old columns, with their specs, and the eleven added ones, with theirs |
| `Revisions.Upgrade001SafeForExistingRows` | backend/alembic/versions/001_add_multi_tenant_resource_tracking.py:29-43 | Every added column is nullable or has a server default, and the only NOT NULL ones are `postgres_database` and `postgres_user` |
| `Revisions.RequiredColumnUnsafe` | backend/alembic/versions/001_add_multi_tenant_resource_tracking.py:39-40 | A NOT NULL column without a default would not be safe for existing rows |
| `Revisions.Downgrade001Undoes` | backend/alembic/versions/001_add_multi_tenant_resource_tracking.py:46-59 | The downgrade drops exactly the added columns, in exactly the reverse order |
| `Revisions.Revision001RoundTrip` | backend/alembic/versions/001_add_multi_tenant_resource_tracking.py:19-59 | The downgrade restores the revision-000 schema exactly |
| `Revisions.Upgrade001NeedsRevision000` | backend/alembic/versions/001_add_multi_tenant_resource_tracking.py:13-14 | On an empty database revision 001 is refused at its first operation, because `instances` does not exist |
| `Revisions.Upgrade001NotTwice` | backend/alembic/versions/001_add_multi_tenant_resource_tracking.py:29 | Revision 001 cannot be applied twice: the second run is refused at its first column |
| `Revisions.Find` | backend/alembic/versions/001_add_multi_tenant_resource_tracking.py:13-14 | The revision found revises the given id and is the first such, or no revision revises it |
| `Revisions.PathIsSuffix` | backend/alembic/versions/001_add_multi_tenant_resource_tracking.py:13-14 | Following the revision links of a chain from a revision visits exactly the revisions after it |
| `Revisions.HistoryIsChain` | backend/alembic/versions/000_initial_tables.py:13-14 | The two revision files form a chain with `000_initial` as base and `001_multi_tenant` as head, both with revision 000 corrected and as written |
| `Revisions.UpgradeToHead` | backend/alembic/versions/001_add_multi_tenant_resource_tracking.py:13-43 | With revision 000 corrected, upgrading to the head, from an empty database or from revision 000, yields the revision-001 schema |
| `Revisions.DowngradeToBase` | backend/alembic/versions/001_add_multi_tenant_resource_tracking.py:46-59 | With revision 000 corrected, downgrading from the head to the base empties the database |
| `Revisions.UpgradeToHeadAsWritten` | backend/alembic/versions/000_initial_tables.py:19-40 | With the files as written, upgrading an empty database to the head is refused at the second creation of `ix_users_firebase_uid` |
| `Revisions.DowngradeToBaseAsWritten` | backend/alembic/versions/000_initial_tables.py:111-138 | With the files as written, downgrading from the head gets through revision 001 and is refused at the second drop of `ix_instances_slug` |

## Left out

- Column types, lengths, comments, column order, primary keys and `ondelete='CASCADE'` are
  not modelled. A column is only nullable or not, with or without a server default. No rows
  or data are modelled, so the existing rows of `SafeForExistingRows` are a predicate only.
- Alembic itself is reduced to following `down_revision` links and running operations in one
  transaction: `Revisions.UpgradeToHead` and `Revisions.DowngradeToBase` (and their as-written
  counterparts) apply the operations of the whole path as a single transaction, so a refusal
  in a later revision also rolls back the earlier ones. `Revisions.Path` takes a `fuel` bound. The lemmas give it
  the history's length, which is enough for a chain; a cyclic history is not modelled.
- Revision 001's docstring leaves "Revises:" empty, while its `down_revision` is
  `000_initial`. The model follows `down_revision`.
- `execute_deployment` calls `deployer._store_secret` (deployment.py:180, 194, 218 and 242),
  which `MemMachineDeployer` does not define, so every run that gets past the constructor
  raises `AttributeError` at step 1 and ends as `DeploymentPipeline.StoreSecretMissing`
  states. The model lets the three secret calls succeed, so `DeploymentPipeline.Wire`,
  `DeploymentPipeline.StagesSucceedIff`, `DeploymentPipeline.SuccessfulRun`,
  `DeploymentPipeline.PersistFailureAfterSuccess` and `DeploymentPipeline.MarkRunning`
  describe runs that the code as written cannot reach.
- Three calls in `execute_deployment` do not match the deployer's signatures, and each
  raises `TypeError` on every run. The model treats each call as one that can succeed, so
  `DeploymentPipeline.Wire`, `DeploymentPipeline.StagesSucceedIff` and
  `DeploymentPipeline.SuccessfulRun` describe runs that the code as written cannot reach:
  - deployment.py:196-198 passes two arguments to `_deploy_cloud_sql(self, instance_id)`
    (memmachine_deployer.py:170) and unpacks two values from its single string result;
  - deployment.py:244-246 calls `_deploy_neo4j(deployment_id, neo4j_password_generated)`
    and unpacks two values, while memmachine_deployer.py:211 takes only `instance_id`;
  - deployment.py:267-276 calls `_deploy_memmachine` with the keywords `postgres_ip`,
    `postgres_secret`, `neo4j_bolt_url`, `neo4j_secret`, `openai_secret` and
    `neo4j_connection_url`, none of which memmachine_deployer.py:259-266 accepts.
- The pipeline reads the clock once: every `started_at`, `completed_at` and `deployed_at`
  of one run is the same `now`. The code reads `datetime.utcnow()` afresh at each event, so
  no ordering between those timestamps (such as `started_at <= completed_at`) is stated.
- `Deployer.DeployedInstance` fills the columns the code leaves unset (resources, region,
  timestamps other than `deployed_at`) from `Instances.NewInstance`'s column defaults. In
  the code the `Instance` object is transient and those defaults only apply if it is ever
  inserted, so the model's values for those columns are not promised by the code.
- Revision 000 gives `instances.status` the server default 'creating', a status value, while
  the `SQLEnum(InstanceStatus)` column reads and writes member names such as "CREATING".
  A row that takes that server default cannot be loaded (`Instances.UpperCaseNameIsNotAStatus`
  states this); no row data is modelled beyond that.
- `DeploymentTracker.StartDeployment` models the commit's outcome as a parameter; the
  `db.refresh` that follows is not modelled.
- The WebSocket endpoint, `broadcast_update`, the connection list, logging and `asyncio`
  scheduling are left out. They only send or record the snapshot the model computes.
- `_rollback_deployment` is a stub. It is recorded as a `RollBack` call and has no effect.
- The bodies of `_store_openai_key`, `_deploy_cloud_sql`, `_deploy_neo4j` and
  `_deploy_memmachine` are Google Cloud client calls. Their answers are parameters; only the
  names and arguments they build are modelled.
- Secret Manager and environment variables are maps. `secrets.token_hex` is a parameter of
  random bytes. `datetime.utcnow()` is an integer `now`.
- `main.py`, `database.py`, the `instances` and `playground` endpoints, `api.py`, the
  `User` and `UsageMetric` models, the schemas, `migrate.py` and `init_database_simple.py`
  are not part of this model.
- `Strings.Lower` and `Strings.Upper` map ASCII letters only. Python's full Unicode case
  mapping is not modelled.
- `Config.GetSettings` does not model the `lru_cache`. Each call is evaluated afresh.
- `Deployer.ValidateDeployment` does not model the 10-second HTTP timeout. It counts the
  10-second waits after raised probes instead of sleeping.
- `Revisions.UpgradeToHead` holds only with revision 000 corrected. With the files as written
  the upgrade is refused, which `Revisions.UpgradeToHeadAsWritten` states.
- `Revisions.DowngradeToBase` holds only with revision 000 corrected. With the files as
  written the downgrade is refused, which `Revisions.DowngradeToBaseAsWritten` states.
- `Schema.ApplyAll` models only the PostgreSQL refusals that these revisions can meet:
  a duplicate or missing table, index or column, a foreign key with nothing to point at,
  and a drop of something still referenced.

## Findings

| source | as written | input that shows it | evidently intended | confidence | as-written member | corrected member |
|---|---|---|---|---|---|---|
| backend/alembic/versions/000_initial_tables.py:35-40 | `upgrade` creates `ix_users_firebase_uid` at line 36 and again, as unique, at line 40. Index names are schema-wide, so the second `CREATE INDEX` is refused. | `alembic upgrade head` on an empty database: refused at operation 6, and the transaction rolls back | One unique index on `firebase_uid` | high (not executed) | `Migrations.Upgrade000AsWrittenRefused` | `Migrations.Upgrade000Builds` |
| backend/alembic/versions/000_initial_tables.py:71-77 | `ix_instances_slug` is created at line 71 and again at line 77 | any schema: the instances block is refused at its ninth operation at the latest | One unique index on `slug` | high (not executed) | `Migrations.InstancesUpgradeAsWrittenRefused` | `Migrations.Upgrade000Builds` |
| backend/alembic/versions/000_initial_tables.py:121-138 | `downgrade` drops `ix_instances_slug` twice (lines 123 and 128) and `ix_users_firebase_uid` twice (lines 132 and 136) | the revision-000 schema: refused at operation 13, the second `DROP INDEX ix_instances_slug` | Each index dropped once, emptying the database | high (not executed) | `Migrations.Downgrade000AsWrittenRefused` | `Migrations.Downgrade000Empties` |
| backend/app/core/config.py:28-29, 82-90 | `validate_debug` reads ENVIRONMENT from the already-validated fields, but ENVIRONMENT is declared after DEBUG, so it is never there | `ENVIRONMENT=production DEBUG=true`: accepted | DEBUG=true refused in production | high (not executed) | `Config.DebugCheckNeverFires` | `Config.ValidateDebugWithEnvironment` |
