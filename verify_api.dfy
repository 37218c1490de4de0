/** The decision logic of the `verify_omex` endpoint in biosim_server/api/main.py:
    resolving the requested simulator strings against the catalog, rejecting
    the request before any workflow starts when one does not resolve, and the
    initial PENDING output. */
module VerifyApi {
  import opened Wrappers
  import Text
  import opened BiosimServiceRest

  // ---------------------------------------------------------------------
  // Parsing one requested simulator
  // ---------------------------------------------------------------------

  /** How a requested simulator string is read: without a colon it is a bare
      name; with one colon a name and a version; with more, the two-name
      unpacking of `simulator.split(":")` fails. */
  datatype SimulatorRequest = Bare(name: string) | Pinned(name: string, version: string) | Malformed

  function ParseRequest(simulator: string): (r: SimulatorRequest)
    ensures r.Bare? <==> ':' !in simulator
    ensures r.Bare? ==> r.name == simulator
    ensures r.Pinned? ==> simulator == r.name + ":" + r.version && ':' !in r.name && ':' !in r.version
  {
    if ':' !in simulator then Bare(simulator)
    else
      var parts := Text.Split(simulator, ':');
      if |parts| == 2 then
        assert Text.Join(parts[1..], ':') == parts[1];
        Pinned(parts[0], parts[1])
      else Malformed
  }

  /** A string reads as name and version exactly when it is `name:version`
      with no colon in either part. */
  lemma ParsePinnedIff(simulator: string, name: string, version: string)
    ensures ParseRequest(simulator) == Pinned(name, version) <==>
              simulator == name + ":" + version && ':' !in name && ':' !in version
  {
    if simulator == name + ":" + version && ':' !in name && ':' !in version {
      assert simulator == Text.Join([name, version], ':');
      Text.SplitJoin([name, version], ':');
      assert simulator[|name|] == ':';
    }
    if ParseRequest(simulator) == Pinned(name, version) {
      var parts := Text.Split(simulator, ':');
      assert Text.Join(parts[1..], ':') == parts[1];
    }
  }

  /** A string is malformed exactly when it holds two or more colons. */
  lemma ParseMalformedIff(simulator: string)
    ensures ParseRequest(simulator).Malformed? <==> Text.Count(simulator, ':') >= 2
    ensures ParseRequest(simulator).Bare? <==> ':' !in simulator
  {
    if ':' !in simulator {
      Text.NoOccurrenceCount(simulator, ':');
    }
  }

  // ---------------------------------------------------------------------
  // Matching against the catalog
  // ---------------------------------------------------------------------

  /** The first catalog entry with this id and version. */
  function FirstPinned(catalog: seq<BiosimulatorVersion>, name: string, version: string)
    : (r: Option<BiosimulatorVersion>)
    ensures r.Some? ==> r.value in catalog && r.value.id == name && r.value.version == version
  {
    if catalog == [] then None
    else if catalog[0].id == name && catalog[0].version == version then Some(catalog[0])
    else FirstPinned(catalog[1..], name, version)
  }

  /** The last catalog entry with this id, whatever its version. */
  function LastByName(catalog: seq<BiosimulatorVersion>, name: string): (r: Option<BiosimulatorVersion>)
    ensures r.Some? ==> r.value in catalog && r.value.id == name
  {
    if catalog == [] then None
    else
      var n := |catalog| - 1;
      if catalog[n].id == name then Some(catalog[n]) else LastByName(catalog[..n], name)
  }

  /** A pinned request finds an entry exactly when one matches both id and
      version, and then it is the first such entry in catalog order. */
  lemma {:induction false} FirstPinnedIndex(catalog: seq<BiosimulatorVersion>, name: string, version: string)
    ensures FirstPinned(catalog, name, version).None? <==>
              forall i :: 0 <= i < |catalog| ==> !(catalog[i].id == name && catalog[i].version == version)
    ensures FirstPinned(catalog, name, version).Some? ==>
              exists k :: 0 <= k < |catalog| && catalog[k] == FirstPinned(catalog, name, version).value
                && catalog[k].id == name && catalog[k].version == version
                && forall j :: 0 <= j < k ==> !(catalog[j].id == name && catalog[j].version == version)
  {
    if catalog != [] && !(catalog[0].id == name && catalog[0].version == version) {
      var rest := catalog[1..];
      FirstPinnedIndex(rest, name, version);
      assert forall i :: 1 <= i < |catalog| ==> catalog[i] == rest[i - 1];
      if FirstPinned(rest, name, version).Some? {
        var k :| 0 <= k < |rest| && rest[k] == FirstPinned(rest, name, version).value
                 && rest[k].id == name && rest[k].version == version
                 && forall j :: 0 <= j < k ==> !(rest[j].id == name && rest[j].version == version);
        assert catalog[k + 1] == rest[k];
      }
    }
  }

  /** A bare request finds an entry exactly when one has that id, and then it
      is the last such entry in catalog order. */
  lemma {:induction false} LastByNameIndex(catalog: seq<BiosimulatorVersion>, name: string)
    ensures LastByName(catalog, name).None? <==> forall i :: 0 <= i < |catalog| ==> catalog[i].id != name
    ensures LastByName(catalog, name).Some? ==>
              exists k :: 0 <= k < |catalog| && catalog[k] == LastByName(catalog, name).value
                && catalog[k].id == name
                && forall j :: k < j < |catalog| ==> catalog[j].id != name
  {
    if catalog != [] {
      var n := |catalog| - 1;
      if catalog[n].id != name {
        var front := catalog[..n];
        LastByNameIndex(front, name);
        assert forall i :: 0 <= i < n ==> catalog[i] == front[i];
      }
    }
  }

  // ---------------------------------------------------------------------
  // Resolving a request list
  // ---------------------------------------------------------------------

  /** Why a request list is refused: an unknown simulator (HTTP 400), or a
      string with too many colons (the unpacking raises ValueError). */
  datatype ResolveError = SimulatorNotFound(simulator: string) | TooManyColons(simulator: string)

  /** The resolution of one requested string. */
  function ResolveOne(simulator: string, catalog: seq<BiosimulatorVersion>)
    : (r: Result<BiosimulatorVersion, ResolveError>)
    ensures r.Success? ==> r.value in catalog
    ensures r.Failure? ==> r.error.simulator == simulator
  {
    match ParseRequest(simulator)
    case Malformed => Failure(TooManyColons(simulator))
    case Pinned(name, version) =>
      (match FirstPinned(catalog, name, version)
       case Some(sv) => Success(sv)
       case None => Failure(SimulatorNotFound(simulator)))
    case Bare(name) =>
      (match LastByName(catalog, name)
       case Some(sv) => Success(sv)
       case None => Failure(SimulatorNotFound(simulator)))
  }

  /** The resolution of a request list: each string in turn, the first
      failure refusing the whole list. */
  function ResolveAll(simulators: seq<string>, catalog: seq<BiosimulatorVersion>)
    : Result<seq<BiosimulatorVersion>, ResolveError>
  {
    if simulators == [] then Success([])
    else
      var n := |simulators| - 1;
      match ResolveAll(simulators[..n], catalog)
      case Failure(e) => Failure(e)
      case Success(resolved) =>
        match ResolveOne(simulators[n], catalog)
        case Failure(e) => Failure(e)
        case Success(sv) => Success(resolved + [sv])
  }

  /** A `name:version` request resolves only to an entry with that id and
      version, the first such in catalog order. */
  lemma PinnedResolvesToFirstMatch(simulator: string, name: string, version: string,
                                   catalog: seq<BiosimulatorVersion>)
    requires simulator == name + ":" + version && ':' !in name && ':' !in version
    ensures ResolveOne(simulator, catalog).Success? <==>
              exists i :: 0 <= i < |catalog| && catalog[i].id == name && catalog[i].version == version
    ensures ResolveOne(simulator, catalog).Success? ==>
              exists k :: 0 <= k < |catalog| && catalog[k] == ResolveOne(simulator, catalog).value
                && catalog[k].id == name && catalog[k].version == version
                && forall j :: 0 <= j < k ==> !(catalog[j].id == name && catalog[j].version == version)
  {
    ParsePinnedIff(simulator, name, version);
    FirstPinnedIndex(catalog, name, version);
  }

  /** A bare name resolves to the last entry with that id, whatever its version. */
  lemma BareResolvesToLastMatch(simulator: string, catalog: seq<BiosimulatorVersion>)
    requires ':' !in simulator
    ensures ResolveOne(simulator, catalog).Success? <==>
              exists i :: 0 <= i < |catalog| && catalog[i].id == simulator
    ensures ResolveOne(simulator, catalog).Success? ==>
              exists k :: 0 <= k < |catalog| && catalog[k] == ResolveOne(simulator, catalog).value
                && catalog[k].id == simulator
                && forall j :: k < j < |catalog| ==> catalog[j].id != simulator
  {
    LastByNameIndex(catalog, simulator);
  }

  /** A string with two or more colons is never accepted. */
  lemma MalformedIsRejected(simulator: string, catalog: seq<BiosimulatorVersion>)
    requires Text.Count(simulator, ':') >= 2
    ensures ResolveOne(simulator, catalog) == Failure(TooManyColons(simulator))
  {
    ParseMalformedIff(simulator);
  }

  /** On success the resolved list is as long as the request list and entry i
      is the resolution of request i; the list succeeds exactly when every
      request resolves. */
  lemma {:induction false} ResolveAllPointwise(simulators: seq<string>, catalog: seq<BiosimulatorVersion>)
    ensures ResolveAll(simulators, catalog).Success? <==>
              forall i :: 0 <= i < |simulators| ==> ResolveOne(simulators[i], catalog).Success?
    ensures ResolveAll(simulators, catalog).Success? ==>
              |ResolveAll(simulators, catalog).value| == |simulators|
              && forall i :: 0 <= i < |simulators| ==>
                   ResolveOne(simulators[i], catalog) == Success(ResolveAll(simulators, catalog).value[i])
  {
    if simulators != [] {
      var n := |simulators| - 1;
      var front := simulators[..n];
      ResolveAllPointwise(front, catalog);
      assert forall i :: 0 <= i < n ==> front[i] == simulators[i];
      var whole := ResolveAll(simulators, catalog);
      match ResolveAll(front, catalog)
      case Failure(e) =>
        assert whole == Failure(e);
        var i :| 0 <= i < n && !ResolveOne(front[i], catalog).Success?;
        assert !ResolveOne(simulators[i], catalog).Success?;
      case Success(resolved) =>
        match ResolveOne(simulators[n], catalog)
        case Failure(e) =>
          assert whole == Failure(e);
        case Success(sv) =>
          assert whole == Success(resolved + [sv]);
          forall i | 0 <= i < |simulators|
            ensures ResolveOne(simulators[i], catalog) == Success(whole.value[i])
          {
            if i < n {
              assert whole.value[i] == resolved[i];
            }
          }
    }
  }

  /** Once a prefix of the request list is refused, so is the whole list, for
      the same reason. */
  lemma {:induction false} ResolveAllPrefixFailure(simulators: seq<string>, k: nat,
                                                   catalog: seq<BiosimulatorVersion>)
    requires k <= |simulators|
    requires ResolveAll(simulators[..k], catalog).Failure?
    ensures ResolveAll(simulators, catalog) == ResolveAll(simulators[..k], catalog)
    decreases |simulators| - k
  {
    if k < |simulators| {
      var n := |simulators| - 1;
      var front := simulators[..n];
      assert front[..k] == simulators[..k];
      ResolveAllPrefixFailure(front, k, catalog);
    } else {
      assert simulators[..k] == simulators;
    }
  }

  /** The first request that does not resolve refuses the list with its error. */
  lemma ResolveAllStopsAt(simulators: seq<string>, i: nat, catalog: seq<BiosimulatorVersion>)
    requires i < |simulators|
    requires ResolveAll(simulators[..i], catalog).Success?
    requires ResolveOne(simulators[i], catalog).Failure?
    ensures ResolveAll(simulators, catalog) == Failure(ResolveOne(simulators[i], catalog).error)
  {
    var upTo := simulators[..i + 1];
    assert upTo[..i] == simulators[..i];
    assert upTo[i] == simulators[i];
    assert ResolveAll(upTo, catalog) == Failure(ResolveOne(simulators[i], catalog).error);
    ResolveAllPrefixFailure(simulators, i + 1, catalog);
  }

  /** A refused list is refused for its first unresolvable request. */
  lemma {:induction false} ResolveAllFirstFailure(simulators: seq<string>, catalog: seq<BiosimulatorVersion>)
    requires ResolveAll(simulators, catalog).Failure?
    ensures exists i :: 0 <= i < |simulators|
              && ResolveOne(simulators[i], catalog) == Failure(ResolveAll(simulators, catalog).error)
              && forall j :: 0 <= j < i ==> ResolveOne(simulators[j], catalog).Success?
  {
    var n := |simulators| - 1;
    var front := simulators[..n];
    assert forall i :: 0 <= i < n ==> front[i] == simulators[i];
    if ResolveAll(front, catalog).Failure? {
      ResolveAllFirstFailure(front, catalog);
      var i :| 0 <= i < |front|
                 && ResolveOne(front[i], catalog) == Failure(ResolveAll(front, catalog).error)
                 && forall j :: 0 <= j < i ==> ResolveOne(front[j], catalog).Success?;
      assert simulators[i] == front[i];
    } else {
      ResolveAllPointwise(front, catalog);
    }
  }

  /** Two copasi entries in catalog order, and another simulator between them. */
  function ExampleCatalog(): seq<BiosimulatorVersion> {
    [BiosimulatorVersion("copasi", "COPASI", "4.44", DockerContainerInfo("u1", "d1")),
     BiosimulatorVersion("vcell", "VCell", "7.7", DockerContainerInfo("u3", "d3")),
     BiosimulatorVersion("copasi", "COPASI", "4.45", DockerContainerInfo("u2", "d2"))]
  }

  /** A bare "copasi" picks the later of the two entries. */
  lemma BareCopasiExample()
    ensures ResolveOne("copasi", ExampleCatalog()) == Success(ExampleCatalog()[2])
  {
    assert ':' !in "copasi";
    assert ParseRequest("copasi") == Bare("copasi");
    assert LastByName(ExampleCatalog(), "copasi") == Some(ExampleCatalog()[2]);
  }

  /** "copasi:4.44" picks the earlier entry. */
  lemma PinnedCopasiExample()
    ensures ResolveOne("copasi:4.44", ExampleCatalog()) == Success(ExampleCatalog()[0])
  {
    assert ':' !in "copasi" && ':' !in "4.44";
    assert ':' in "copasi:4.44" by { assert "copasi:4.44"[6] == ':'; }
    assert Text.Join(["copasi", "4.44"], ':') == "copasi:4.44";
    Text.SplitJoin(["copasi", "4.44"], ':');
    assert ParseRequest("copasi:4.44") == Pinned("copasi", "4.44");
    assert FirstPinned(ExampleCatalog(), "copasi", "4.44") == Some(ExampleCatalog()[0]);
  }

  /** Bare names resolve in request order, copasi to its later entry. */
  lemma LastVersionWinsExample()
    ensures ResolveAll(["copasi", "vcell"], ExampleCatalog())
              == Success([ExampleCatalog()[2], ExampleCatalog()[1]])
  {
    BareCopasiExample();
    assert ':' !in "vcell";
    assert ResolveOne("vcell", ExampleCatalog()) == Success(ExampleCatalog()[1]);
    var simulators := ["copasi", "vcell"];
    assert simulators[0] == "copasi" && simulators[1] == "vcell";
    ResolveAllPointwise(simulators, ExampleCatalog());
    var r := ResolveAll(simulators, ExampleCatalog());
    assert r.Success?;
    assert r.value == [ExampleCatalog()[2], ExampleCatalog()[1]];
  }

  /** The resolution loop of `verify_omex`: for each requested string, a
      pinned request scans the catalog and stops at the first match, a bare
      request scans all of it and keeps the last match; the first string that
      finds nothing refuses the request. */
  method ResolveSimulators(simulators: seq<string>, allSimulatorVersions: seq<BiosimulatorVersion>)
    returns (r: Result<seq<BiosimulatorVersion>, ResolveError>)
    ensures r == ResolveAll(simulators, allSimulatorVersions)
  {
    var simulatorVersions: seq<BiosimulatorVersion> := [];
    var i := 0;
    while i < |simulators|
      invariant 0 <= i <= |simulators|
      invariant ResolveAll(simulators[..i], allSimulatorVersions) == Success(simulatorVersions)
    {
      var simulator := simulators[i];
      assert simulators[..i + 1][..i] == simulators[..i];
      var simulatorVersion: Option<BiosimulatorVersion> := None;
      if ':' in simulator {
        var parts := Text.Split(simulator, ':');
        if |parts| != 2 {
          ResolveAllStopsAt(simulators, i, allSimulatorVersions);
          return Failure(TooManyColons(simulator));
        }
        var name, version := parts[0], parts[1];
        var j := 0;
        while j < |allSimulatorVersions|
          invariant 0 <= j <= |allSimulatorVersions|
          invariant simulatorVersion.None?
          invariant FirstPinned(allSimulatorVersions[j..], name, version)
                      == FirstPinned(allSimulatorVersions, name, version)
        {
          var sv := allSimulatorVersions[j];
          if sv.id == name && sv.version == version {
            simulatorVersion := Some(sv);
            break;
          }
          assert allSimulatorVersions[j..][1..] == allSimulatorVersions[j + 1..];
          j := j + 1;
        }
        assert allSimulatorVersions[..] == allSimulatorVersions[0..];
      } else {
        var j := 0;
        while j < |allSimulatorVersions|
          invariant 0 <= j <= |allSimulatorVersions|
          invariant simulatorVersion == LastByName(allSimulatorVersions[..j], simulator)
        {
          var sv := allSimulatorVersions[j];
          assert allSimulatorVersions[..j + 1][..j] == allSimulatorVersions[..j];
          if sv.id == simulator {
            simulatorVersion := Some(sv);  // no break: the last match is kept
          }
          j := j + 1;
        }
        assert allSimulatorVersions[..j] == allSimulatorVersions;
      }
      if simulatorVersion.Some? {
        simulatorVersions := simulatorVersions + [simulatorVersion.value];
      } else {
        ResolveAllStopsAt(simulators, i, allSimulatorVersions);
        return Failure(SimulatorNotFound(simulator));
      }
      i := i + 1;
    }
    assert simulators[..i] == simulators;
    r := Success(simulatorVersions);
  }

  // ---------------------------------------------------------------------
  // Starting the verification workflow
  // ---------------------------------------------------------------------

  /** The stored archive the request refers to. */
  datatype OmexFile = OmexFile(fileHashMd5: string, uri: string, filename: string, fileSize: nat)

  /** `CompareSettings`; the tolerances are only passed along here. */
  datatype CompareSettings = CompareSettings(
    userDescription: string, includeOutputs: bool,
    relTol: real, absTolMin: real, absTolScale: real,
    observables: Option<seq<string>>)

  datatype OmexVerifyWorkflowInput = OmexVerifyWorkflowInput(
    omexFile: OmexFile, requestedSimulators: seq<BiosimulatorVersion>,
    compareSettings: CompareSettings, cacheBuster: string)

  /** The workflow status; the endpoint only ever produces PENDING. */
  datatype VerifyWorkflowStatus = PENDING

  datatype VerifyWorkflowOutput = VerifyWorkflowOutput(
    compareSettings: CompareSettings, workflowStatus: VerifyWorkflowStatus,
    timestamp: string, workflowId: string, workflowRunId: string)

  const TaskQueue := "verification_tasks"

  datatype StartedWorkflow = StartedWorkflow(id: string, input: OmexVerifyWorkflowInput, taskQueue: string)

  datatype WorkflowHandle = WorkflowHandle(id: string, runId: string)

  /** The durable-execution client, seen only through the workflows it has
      been asked to start. */
  class WorkflowClient {
    var started: seq<StartedWorkflow>

    constructor ()
      ensures started == []
    {
      started := [];
    }

    /** `start_workflow`; `runId` is the run id the substrate assigns. */
    method StartWorkflow(input: OmexVerifyWorkflowInput, taskQueue: string, id: string, runId: string)
      returns (handle: WorkflowHandle)
      modifies this
      ensures started == old(started) + [StartedWorkflow(id, input, taskQueue)]
      ensures handle == WorkflowHandle(id, runId)
    {
      started := started + [StartedWorkflow(id, input, taskQueue)];
      handle := WorkflowHandle(id, runId);
    }
  }

  /** Why `verify_omex` fails before starting anything: the catalog could
      not be fetched, or a requested simulator did not resolve. */
  datatype VerifyError = CatalogUnavailable(http: HttpError) | Rejected(reason: ResolveError)

  /** `verify_omex` after the archive has been stored: `catalogReply` is what
      `get_simulator_versions()` yields or raises, and `uuid`, `timestamp` and
      `runId` stand for `uuid.uuid4()`, the clock and the id the substrate
      gives the run. A failed catalog fetch or an unresolvable simulator
      refuses the request and starts nothing; otherwise exactly one workflow
      is started with the resolved simulators, and the output is PENDING with
      the given settings and an id made of the prefix and the uuid. */
  method VerifyOmex(client: WorkflowClient, omexFile: OmexFile, workflowIdPrefix: string,
                    simulators: seq<string>, catalogReply: Result<seq<BiosimulatorVersion>, HttpError>,
                    compareSettings: CompareSettings, cacheBuster: string,
                    uuid: string, timestamp: string, runId: string)
    returns (r: Result<VerifyWorkflowOutput, VerifyError>)
    modifies client
    ensures r.Failure? ==> client.started == old(client.started)
    ensures catalogReply.Failure? ==> r == Failure(CatalogUnavailable(catalogReply.error))
    ensures catalogReply.Success? ==>
              (r.Success? <==> ResolveAll(simulators, catalogReply.value).Success?)
    ensures catalogReply.Success? && r.Failure? ==>
              r.error == Rejected(ResolveAll(simulators, catalogReply.value).error)
    ensures r.Success? ==>
              && catalogReply.Success?
              && client.started == old(client.started) + [StartedWorkflow(
                   workflowIdPrefix + uuid,
                   OmexVerifyWorkflowInput(omexFile, ResolveAll(simulators, catalogReply.value).value,
                                           compareSettings, cacheBuster),
                   TaskQueue)]
              && r.value.workflowStatus == PENDING
              && r.value.compareSettings == compareSettings
              && r.value.workflowId == workflowIdPrefix + uuid
              && workflowIdPrefix <= r.value.workflowId
              && r.value.workflowRunId == runId
              && r.value.timestamp == timestamp
  {
    if catalogReply.Failure? {
      return Failure(CatalogUnavailable(catalogReply.error));
    }
    var allSimulatorVersions := catalogReply.value;
    var resolved := ResolveSimulators(simulators, allSimulatorVersions);
    if resolved.Failure? {
      return Failure(Rejected(resolved.error));
    }
    var workflowId := workflowIdPrefix + uuid;
    var input := OmexVerifyWorkflowInput(omexFile, resolved.value, compareSettings, cacheBuster);
    var handle := client.StartWorkflow(input, TaskQueue, workflowId, runId);
    assert handle.id == workflowId;
    r := Success(VerifyWorkflowOutput(compareSettings, PENDING, timestamp, workflowId, handle.runId));
  }
}
