# biosim-server decision logic in Dafny

This project models the sequential decision logic at the edge of biosim-server, a
service that runs one model archive on several simulation engines and compares
their outputs. Four pieces are modelled, each lifted out of its HTTP, network or
workflow wrapper:

- **Simulator resolution** (`VerifyApi`, from `biosim_server/api/main.py`). Each
  requested string `name` or `name:version` is matched against the ordered
  simulator catalog. A pinned request takes the first entry matching id and
  version (the loop breaks). A bare name takes the last entry with that id (the
  loop does not break). The first request that matches nothing refuses the
  whole list before any workflow is started. `ResolveSimulators` is the loop,
  proved equal to the specification `ResolveAll`. `VerifyOmex` adds the
  workflow start and the initial PENDING output.
- **Catalog filtering and run submission** (`BiosimServiceRest`, from
  `biosim_server/common/biosim1_client/biosim_service_rest.py`). The upstream
  simulator list is filtered to the entries whose `image` object has a `url` and
  a `digest`, keeping their order. The filter sits behind a per-instance memo
  with a 3600-second time-to-live. A run request is built with
  `version or "latest"` and `maxTime` 600. After a successful submission, a
  caller spec without a version takes the version the server reports.
- **Run records and output metadata** (`RunModels`, from
  `biosim_server/biosim_runs/models.py`). This covers the run-status
  enumeration, the run-id validator that refuses dashes, `sedml_labels` (a
  first-match search over attributes) and `datasets` (a name-keyed dictionary
  filled group by group, where later entries overwrite earlier ones).
- **Not-found classification** (`BiosimActivities`, from
  `biosim_server/workflows/simulate/biosim_activities.py`). A remote lookup
  outcome and the `abort_on_not_found` flag decide what happens: the run is
  passed on, a synthetic `RUN_ID_NOT_FOUND` run is returned, or the error is
  raised again.

`Text` models the Python string operations these rely on, for a one-character
separator: `str.find` and `str.split`, with `Split` proved to invert `Join`.

HTTP replies, the clock, `uuid.uuid4()` and the run id assigned by the workflow
substrate are parameters. Each HTTP exchange is replaced by the parsed reply it
would produce. The workflow client is a class that records the workflows it is
asked to start.

Behaviours modelled as the code has them:

- A request such as `a:b:c` is not a 400. `name, version = simulator.split(":")`
  raises an unpacking `ValueError`, so the model has a separate error,
  `TooManyColons`.
- `simulator_spec.version or "latest"` treats an empty version like a missing
  one. The back-fill happens only when the version is `None`, so a spec with
  an empty version sends "latest" and keeps its empty version afterwards.
- The filter condition includes the operand `'url'`, a literal non-empty
  string, so it is always true. `HasUsableImageIff` proves that the condition
  comes down to "the image is an object with both a url and a digest".
- The catalog memo does not fall back to the last good catalog when a refresh
  fails: the failure is raised, and the model does the same.

## Model

| member | source | states |
|---|---|---|
| Text.Find | biosim_server/biosim_runs/models.py:101 | `find` returns -1 exactly when the character is absent, and otherwise the index of its first occurrence |
| Text.Split | biosim_server/api/main.py:148 | `split` gives one more part than there are separators; no part contains the separator; joining the parts gives back the input |
| Text.SplitJoin | biosim_server/api/main.py:148 | splitting parts that were joined, none holding the separator, gives back exactly those parts |
| RunModels.ParseStatus | biosim_server/biosim_runs/models.py:68-77 | a string accepted as a run status is that member's value |
| RunModels.ParseStatusValue | biosim_server/biosim_runs/models.py:68-77 | every status member's value parses back to that member |
| RunModels.ValidateId | biosim_server/biosim_runs/models.py:99-103 | an id is refused exactly when it contains `-`; an accepted id is returned unchanged |
| RunModels.SedmlLabels | biosim_server/biosim_runs/models.py:21-27 | no contract of its own; the search is characterised by SedmlLabelsFirst, SedmlLabelsNone and SedmlLabelsSource |
| RunModels.SedmlLabelsFirst | biosim_server/biosim_runs/models.py:21-26 | the labels are the string list of the first attribute keyed "sedmlDataSetLabels" whose value is a list of strings; earlier attributes with that key and another value are skipped |
| RunModels.SedmlLabelsNone | biosim_server/biosim_runs/models.py:27 | with no qualifying attribute the result is the empty list |
| RunModels.SedmlLabelsSource | biosim_server/biosim_runs/models.py:23-26 | a non-empty result is always the list of some qualifying attribute |
| RunModels.FileDatasets | biosim_server/biosim_runs/models.py:42-48 | the nested loop builds the name index of all datasets in group-then-position order |
| RunModels.AllDatasets | biosim_server/biosim_runs/models.py:45-46 | no contract of its own; the group-then-position visiting order, characterised by AllDatasetsContains and FileDatasetsSpec |
| RunModels.NameIndex | biosim_server/biosim_runs/models.py:44-47 | no contract of its own; the overwriting dictionary writes, characterised by NameIndexKeys and NameIndexLastWins |
| RunModels.NameIndexKeys | biosim_server/biosim_runs/models.py:43-48 | the dictionary's keys are exactly the dataset names, so no datasets give an empty dictionary |
| RunModels.NameIndexLastWins | biosim_server/biosim_runs/models.py:45-47 | a duplicated name maps to its last occurrence |
| RunModels.FileDatasetsSpec | biosim_server/biosim_runs/models.py:42-48 | for a file: keys are all dataset names across groups, and each maps to its last dataset in group-then-position order |
| RunModels.AllDatasetsContains | biosim_server/biosim_runs/models.py:45-46 | every dataset of every group is visited |
| BiosimServiceRest.HasUsableImage | biosim_server/common/biosim1_client/biosim_service_rest.py:114 | no contract of its own; the filter condition as written, characterised by HasUsableImageIff |
| BiosimServiceRest.HasUsableImageIff | biosim_server/common/biosim1_client/biosim_service_rest.py:114 | an entry is kept exactly when its image is an object with both `url` and `digest` |
| BiosimServiceRest.ToVersion | biosim_server/common/biosim1_client/biosim_service_rest.py:115-117 | a kept entry copies id, name and version, and url and digest from its image |
| BiosimServiceRest.KeptVersions | biosim_server/common/biosim1_client/biosim_service_rest.py:112-119 | the filtered catalog is never longer than the upstream list; its order and contents are given by KeptVersionsSubsequence and KeptVersionsMembership |
| BiosimServiceRest.KeptVersionsSubsequence | biosim_server/common/biosim1_client/biosim_service_rest.py:112-119 | the output is an ordered subsequence of the input: its positions strictly increase, every usable entry is among them, and the output is no longer than the input |
| BiosimServiceRest.KeptVersionsMembership | biosim_server/common/biosim1_client/biosim_service_rest.py:113-118 | a version is in the output exactly when some usable upstream entry converts to it |
| BiosimServiceRest.FilterSimulators | biosim_server/common/biosim1_client/biosim_service_rest.py:112-119 | the append loop computes the kept, converted entries in upstream order |
| BiosimServiceRest.SimulatorCatalogCache.GetSimulationVersions | biosim_server/common/biosim1_client/biosim_service_rest.py:102-119 | within the time-to-live the memoised list is returned unchanged; otherwise a successful reply is filtered and memoised, and a failed one is raised without memoising |
| BiosimServiceRest.SimulatorCatalogCache.RepeatedGet | tests/common/test_biosim1_client.py:14-16 | a second call within the time-to-live of a fetch returns the same list |
| BiosimServiceRest.RunFromJson | biosim_server/common/biosim1_client/biosim_service_rest.py:66-68 | the run copies every field of the reply; an unknown status string is an error |
| BiosimServiceRest.BuildRunRequest | biosim_server/common/biosim1_client/biosim_service_rest.py:47-49 | the request uses the spec's non-empty version, otherwise "latest"; `maxTime` is always 600 |
| BiosimServiceRest.RunBiosimSim | biosim_server/common/biosim1_client/biosim_service_rest.py:47-68 | a spec without a version takes the server's version after a successful submission; a spec with one, or after a failed reply, is unchanged |
| VerifyApi.ParseRequest | biosim_server/api/main.py:147-148 | a request is bare exactly when it has no colon, and then names itself; a pinned request is `name:version` with colon-free parts |
| VerifyApi.ParsePinnedIff | biosim_server/api/main.py:147-148 | a request reads as name and version exactly when it is `name:version` with no colon in either part |
| VerifyApi.ParseMalformedIff | biosim_server/api/main.py:147-148 | a request is a bare name exactly when it has no colon, and malformed exactly when it has two or more |
| VerifyApi.FirstPinned | biosim_server/api/main.py:149-152 | a found entry is in the catalog and matches both id and version; FirstPinnedIndex adds that it is the first |
| VerifyApi.LastByName | biosim_server/api/main.py:154-156 | a found entry is in the catalog and has the id; LastByNameIndex adds that it is the last |
| VerifyApi.FirstPinnedIndex | biosim_server/api/main.py:149-152 | the pinned search finds nothing exactly when no entry matches id and version, and otherwise finds the first match |
| VerifyApi.LastByNameIndex | biosim_server/api/main.py:154-156 | the bare search finds nothing exactly when no entry has the id, and otherwise finds the last one |
| VerifyApi.ResolveOne | biosim_server/api/main.py:146-160 | a resolved request yields a catalog entry; a refusal names the request string |
| VerifyApi.ResolveAll | biosim_server/api/main.py:145-160 | no contract of its own; the list resolution is characterised by ResolveAllPointwise, ResolveAllStopsAt and ResolveAllFirstFailure |
| VerifyApi.PinnedResolvesToFirstMatch | biosim_server/api/main.py:147-152 | `name:version` resolves exactly when some entry matches both, and then to the first such entry |
| VerifyApi.BareResolvesToLastMatch | biosim_server/api/main.py:153-156 | a bare name resolves exactly when some entry has that id, and then to the last such entry, whatever its version |
| VerifyApi.MalformedIsRejected | biosim_server/api/main.py:147-148 | a request with more than one colon is never accepted |
| VerifyApi.ResolveAllPointwise | biosim_server/api/main.py:145-158 | the list resolves exactly when every request does; the result then has the request list's length and entry i resolves request i |
| VerifyApi.ResolveAllPrefixFailure | biosim_server/api/main.py:157-160 | once a prefix of the requests is refused, the whole list is refused for the same reason |
| VerifyApi.ResolveAllStopsAt | biosim_server/api/main.py:157-160 | the first request that does not resolve refuses the list with its own error |
| VerifyApi.ResolveAllFirstFailure | biosim_server/api/main.py:145-160 | a refused list is refused for an unresolvable request all of whose predecessors resolve |
| VerifyApi.BareCopasiExample | tests/workflows/test_sim_workflow.py:32-34 | with two copasi entries, a bare "copasi" resolves to the later |
| VerifyApi.PinnedCopasiExample | biosim_server/api/main.py:149-152 | "copasi:4.44" resolves to the entry with that version, the earlier |
| VerifyApi.LastVersionWinsExample | biosim_server/api/main.py:145-158 | bare names resolve in request order, copasi to its later entry |
| VerifyApi.ResolveSimulators | biosim_server/api/main.py:141-160 | the nested loops, with break for a pinned request and none for a bare one, compute the list resolution |
| VerifyApi.WorkflowClient.StartWorkflow | biosim_server/api/main.py:173-178 | starting records exactly one workflow with the given id, input and task queue |
| VerifyApi.VerifyOmex | biosim_server/api/main.py:141-189 | a failed catalog fetch or a refused request starts nothing; otherwise one workflow starts with the resolved simulators, and the output is PENDING with the given settings and an id made of the prefix and the uuid |
| BiosimActivities.DefaultGetSimRunInput | biosim_server/workflows/simulate/biosim_activities.py:15-17 | the flag defaults to a value that does not abort |
| BiosimActivities.NotFoundRun | biosim_server/workflows/simulate/biosim_activities.py:32-38 | no contract of its own; the run it builds is characterised by GetSimRun |
| BiosimActivities.GetSimRun | biosim_server/workflows/simulate/biosim_activities.py:20-39 | a found run is returned unchanged; a 404 with the flag set returns a RUN_ID_NOT_FOUND run with the requested id and empty name, simulator and version; every other error is raised unchanged |
| BiosimActivities.DefaultRaisesOnNotFound | biosim_server/workflows/simulate/biosim_activities.py:17-39 | with the default flag a 404 is raised |
| BiosimActivities.OtherStatusRaises | biosim_server/workflows/simulate/biosim_activities.py:27-39 | a non-404 HTTP error is raised whatever the flag |
| BiosimActivities.NotFoundFlagDecides | biosim_server/workflows/simulate/biosim_activities.py:28-39 | on a 404 only an explicit true flag returns the not-found run; a false or missing flag raises |

## Left out

- HTTP plumbing is not modelled: FastAPI routing, CORS, dotenv, uvicorn, the `/`, `/version`, `/verify/runs` and `/verify/{workflow_id}` endpoints, and request parsing.
- Storing the uploaded archive (`get_cached_omex_file_from_upload`) is not modelled. `VerifyOmex` takes the stored archive as a parameter.
- Every aiohttp request, `raise_for_status`, JSON decoding, multipart form building and the `file_sender` generator are left out. Replies are parameters of type `Result`.
- The durable-execution substrate is left out beyond the list of started workflows: running the workflow, `get_workflow_handle`, `query`, and the activity decorators.
- The activities `submit_biosim_sim`, `get_hdf5_metadata` and `get_hdf5_data` are pure I/O orchestration and are left out.
- The tolerance values are carried as `real` and only passed along. The comparison engine that uses them is not part of this model.
- BiosimServiceRest.SimulatorCatalogCache.GetSimulationVersions: the TTL cache decorator is a foreign library. The model keeps only a per-instance memo that expires 3600 seconds after it was stored. Eviction timing and concurrent callers are not modelled.
- BiosimServiceRest.RunFromJson: a reply missing a field (a `KeyError` in Python) is not modelled. The reply type always has every field.
- BiosimServiceRest.FilterSimulators: a kept catalog entry without `id`, `name` or `version`, or with a non-string `url` or `digest`, makes Python raise and the whole fetch fail. The model's upstream entries always have these fields as strings, so this failure cannot occur.
- BiosimServiceRest.SimulatorCatalogCache.GetSimulationVersions: for the same reason, the case where a malformed kept entry fails the fetch, and nothing is memoised, is not modelled. Only a failed HTTP reply fails a fetch.
- The catalog entry type follows `biosim_service_rest.py`: id, name, version, and an image with url and digest. The flattened `BiosimulatorVersion` of `models.py`, with `created` and `updated`, is a different record and is not modelled.
- The run record follows the constructor calls in `biosim_service_rest.py` and `biosim_activities.py`: simulator and version as strings, and the digest as an optional string, because the not-found run in `biosim_activities.py` gives none. The run class in `models.py` nests a simulator record instead. Its id validator is modelled as `ValidateId` but is not applied when runs are built, because the class built there is not that one.
- `VerifyWorkflowStatus` declares only PENDING, the one member `main.py` uses. Its other members are not part of this model. The fields of `CompareSettings` and `OmexVerifyWorkflowInput` are taken from their use in `main.py`. Their defining module is not part of this model.
- Attribute values are modelled as already parsed. The way pydantic picks a member of the value union is not modelled. `sedml_labels` uses the runtime test on the items, which the model follows.
- Logging and the `print` in `run_biosim_sim` are left out.
