/** The REST client of biosim_server/common/biosim1_client/biosim_service_rest.py,
    with every HTTP exchange replaced by the parsed reply it would produce:
    the simulator catalog filter and its memoising cache, the run-record
    decoding, and the submission request with the caller's version back-fill. */
module BiosimServiceRest {
  import opened Wrappers
  import opened RunModels

  // ---------------------------------------------------------------------
  // Simulator catalog
  // ---------------------------------------------------------------------

  datatype DockerContainerInfo = DockerContainerInfo(url: string, digest: string)

  /** One concrete simulator identity of the catalog. */
  datatype BiosimulatorVersion = BiosimulatorVersion(
    id: string, name: string, version: string, image: DockerContainerInfo)

  /** The `image` member of an upstream catalog entry: absent, JSON null, or
      an object (its members that the filter looks at are strings). */
  datatype ImageField = Absent | Null | Object(members: map<string, string>)

  /** One element of the upstream `/simulators` JSON list. */
  datatype UpstreamSimulator = UpstreamSimulator(
    id: string, name: string, version: string, image: ImageField)

  /** Python truthiness of `sim['image']`: null and `{}` are false. */
  predicate ImageTruthy(image: ImageField) {
    image.Object? && |image.members| > 0
  }

  /** The filter condition `'image' in sim and 'url' and sim['image'] and
      'url' in sim['image'] and 'digest' in sim['image']`. The literal operand
      `'url'` is a non-empty string and therefore always true. */
  predicate HasUsableImage(sim: UpstreamSimulator) {
    && !sim.image.Absent?
    && ImageTruthy(sim.image)
    && "url" in sim.image.members
    && "digest" in sim.image.members
  }

  /** The filter keeps an entry exactly when its image is an object holding
      both a url and a digest; the truthiness test adds nothing. */
  lemma HasUsableImageIff(sim: UpstreamSimulator)
    ensures HasUsableImage(sim) <==>
              sim.image.Object? && "url" in sim.image.members && "digest" in sim.image.members
  {
    if sim.image.Object? && "url" in sim.image.members {
      assert "url" in sim.image.members.Keys;
      assert |sim.image.members.Keys| > 0;
    }
  }

  /** The catalog entry built from a kept upstream entry. */
  function ToVersion(sim: UpstreamSimulator): (v: BiosimulatorVersion)
    requires HasUsableImage(sim)
    ensures v.id == sim.id && v.name == sim.name && v.version == sim.version
    ensures v.image.url == sim.image.members["url"] && v.image.digest == sim.image.members["digest"]
  {
    BiosimulatorVersion(sim.id, sim.name, sim.version,
      DockerContainerInfo(sim.image.members["url"], sim.image.members["digest"]))
  }

  /** The specification of the filter: the usable entries, converted, in order. */
  function KeptVersions(upstream: seq<UpstreamSimulator>): (r: seq<BiosimulatorVersion>)
    ensures |r| <= |upstream|
  {
    if upstream == [] then []
    else
      var n := |upstream| - 1;
      KeptVersions(upstream[..n]) + (if HasUsableImage(upstream[n]) then [ToVersion(upstream[n])] else [])
  }

  /** The upstream positions of the kept entries, in increasing order. */
  function KeptIndices(upstream: seq<UpstreamSimulator>): seq<nat>
  {
    if upstream == [] then []
    else
      var n := |upstream| - 1;
      KeptIndices(upstream[..n]) + (if HasUsableImage(upstream[n]) then [n] else [])
  }

  /** The filter's output is an ordered subsequence of its input: entry k of
      the output is the conversion of the upstream entry at position
      KeptIndices[k], those positions strictly increase, and every usable
      upstream entry has its position among them. */
  lemma {:induction false} KeptVersionsSubsequence(upstream: seq<UpstreamSimulator>)
    ensures |KeptIndices(upstream)| == |KeptVersions(upstream)| <= |upstream|
    ensures forall k :: 0 <= k < |KeptIndices(upstream)| ==>
              KeptIndices(upstream)[k] < |upstream|
              && HasUsableImage(upstream[KeptIndices(upstream)[k]])
              && KeptVersions(upstream)[k] == ToVersion(upstream[KeptIndices(upstream)[k]])
    ensures forall k, l :: 0 <= k < l < |KeptIndices(upstream)| ==>
              KeptIndices(upstream)[k] < KeptIndices(upstream)[l]
    ensures forall i :: 0 <= i < |upstream| && HasUsableImage(upstream[i]) ==> i in KeptIndices(upstream)
  {
    if upstream != [] {
      var n := |upstream| - 1;
      var front := upstream[..n];
      KeptVersionsSubsequence(front);
      assert forall i :: 0 <= i < n ==> front[i] == upstream[i];
    }
  }

  /** A version is in the filtered catalog exactly when some usable upstream
      entry converts to it. */
  lemma KeptVersionsMembership(upstream: seq<UpstreamSimulator>, v: BiosimulatorVersion)
    ensures v in KeptVersions(upstream) <==>
              exists i :: 0 <= i < |upstream| && HasUsableImage(upstream[i]) && ToVersion(upstream[i]) == v
  {
    KeptVersionsSubsequence(upstream);
    var idx := KeptIndices(upstream);
    var kept := KeptVersions(upstream);
    if v in kept {
      var k :| 0 <= k < |kept| && kept[k] == v;
      assert HasUsableImage(upstream[idx[k]]) && ToVersion(upstream[idx[k]]) == v;
    }
    if exists i :: 0 <= i < |upstream| && HasUsableImage(upstream[i]) && ToVersion(upstream[i]) == v {
      var i :| 0 <= i < |upstream| && HasUsableImage(upstream[i]) && ToVersion(upstream[i]) == v;
      assert i in idx;
      var k :| 0 <= k < |idx| && idx[k] == i;
      assert kept[k] == v;
    }
  }

  /** The loop of `get_simulation_versions` over the decoded upstream list. */
  method FilterSimulators(upstream: seq<UpstreamSimulator>) returns (simulationVersions: seq<BiosimulatorVersion>)
    ensures simulationVersions == KeptVersions(upstream)
  {
    simulationVersions := [];
    var i := 0;
    while i < |upstream|
      invariant 0 <= i <= |upstream|
      invariant simulationVersions == KeptVersions(upstream[..i])
    {
      var sim := upstream[i];
      assert upstream[..i + 1][..i] == upstream[..i];
      if !sim.image.Absent? && ImageTruthy(sim.image)
         && "url" in sim.image.members && "digest" in sim.image.members {
        var containerInfo := DockerContainerInfo(sim.image.members["url"], sim.image.members["digest"]);
        var simVersion := BiosimulatorVersion(sim.id, sim.name, sim.version, containerInfo);
        simulationVersions := simulationVersions + [simVersion];
      }
      i := i + 1;
    }
    assert upstream[..i] == upstream;
  }

  /** An HTTP status outside 2xx, as `raise_for_status` reports it. */
  datatype HttpError = HttpError(status: int, message: string)

  /** How long a fetched catalog is reused, in seconds. */
  const CatalogTtlSeconds: int := 3600

  datatype CacheEntry = CacheEntry(versions: seq<BiosimulatorVersion>, storedAt: int)

  /** The per-instance memo that the TTL cache decorator keeps for
      `get_simulation_versions`. */
  class SimulatorCatalogCache {
    var entry: Option<CacheEntry>

    constructor ()
      ensures entry == None
    {
      entry := None;
    }

    /** Whether a call at time `now` is answered from the memo. */
    predicate IsFresh(now: int)
      reads this
    {
      entry.Some? && now < entry.value.storedAt + CatalogTtlSeconds
    }

    /** `get_simulation_versions` at time `now`, where `reply` is what the
        catalog endpoint would return if asked. A fresh memo is returned
        without asking; otherwise a successful reply is filtered, memoised and
        returned, and a failed one is raised and nothing is memoised. */
    method GetSimulationVersions(now: int, reply: Result<seq<UpstreamSimulator>, HttpError>)
      returns (r: Result<seq<BiosimulatorVersion>, HttpError>)
      modifies this
      ensures old(IsFresh(now)) ==> r == Success(old(entry).value.versions) && entry == old(entry)
      ensures !old(IsFresh(now)) && reply.Success? ==>
                r == Success(KeptVersions(reply.value)) && entry == Some(CacheEntry(r.value, now))
      ensures !old(IsFresh(now)) && reply.Failure? ==> r == Failure(reply.error) && entry == old(entry)
    {
      if IsFresh(now) {
        return Success(entry.value.versions);
      }
      match reply
      case Failure(e) =>
        r := Failure(e);
      case Success(upstream) =>
        var versions := FilterSimulators(upstream);
        entry := Some(CacheEntry(versions, now));
        r := Success(versions);
    }

    /** Once a call has fetched the catalog, a second call within the
        time-to-live returns the same list, whatever the endpoint would say
        by then. */
    method RepeatedGet(first: int, second: int,
                       reply1: Result<seq<UpstreamSimulator>, HttpError>,
                       reply2: Result<seq<UpstreamSimulator>, HttpError>)
      returns (r1: Result<seq<BiosimulatorVersion>, HttpError>, r2: Result<seq<BiosimulatorVersion>, HttpError>)
      modifies this
      requires !IsFresh(first)
      requires first <= second < first + CatalogTtlSeconds
      ensures r1.Success? ==> r2 == r1
    {
      r1 := GetSimulationVersions(first, reply1);
      r2 := GetSimulationVersions(second, reply2);
    }
  }

  // ---------------------------------------------------------------------
  // Run records and submission
  // ---------------------------------------------------------------------

  /** The fields of a run as the runs endpoint returns them in JSON. */
  datatype RunJson = RunJson(
    id: string, name: string, simulator: string,
    simulatorVersion: string, simulatorDigest: string, status: string)

  datatype RunError = RunHttpError(http: HttpError) | UnknownStatus(status: string)

  /** The `BiosimSimulationRun(...)` built from a runs reply: fields copied,
      the status string converted, an unknown status raised. */
  function RunFromJson(res: RunJson): (r: Result<BiosimSimulationRun, RunError>)
    ensures r.Success? <==> ParseStatus(res.status).Some?
    ensures r.Failure? ==> r.error == UnknownStatus(res.status)
    ensures r.Success? ==>
              && r.value.id == res.id && r.value.name == res.name
              && r.value.simulator == res.simulator && r.value.simulatorVersion == res.simulatorVersion
              && r.value.simulatorDigest == Some(res.simulatorDigest)
              && StatusValue(r.value.status) == res.status
              && r.value.errorMessage.None?
  {
    match ParseStatus(res.status)
    case None => Failure(UnknownStatus(res.status))
    case Some(st) =>
      Success(BiosimSimulationRun(res.id, res.name, res.simulator, res.simulatorVersion,
                                  Some(res.simulatorDigest), st, None))
  }

  /** `BiosimSimulationRunApiRequest`, the JSON part of a run submission. */
  datatype BiosimSimulationRunApiRequest = BiosimSimulationRunApiRequest(
    name: string, simulator: string, simulatorVersion: string, maxTime: int)

  /** Minutes a submitted run may take. */
  const MaxTimeMinutes: int := 600

  const LatestVersion := "latest"

  /** The request built from a simulator spec: `version or "latest"`, so a
      missing version and an empty one both ask for "latest". */
  function BuildRunRequest(omexName: string, simulator: string, version: Option<string>)
    : (req: BiosimSimulationRunApiRequest)
    ensures req.name == omexName && req.simulator == simulator && req.maxTime == 600
    ensures version.Some? && version.value != "" ==> req.simulatorVersion == version.value
    ensures version.None? || version == Some("") ==> req.simulatorVersion == "latest"
  {
    BiosimSimulationRunApiRequest(omexName, simulator,
      if version.Some? && version.value != "" then version.value else LatestVersion,
      MaxTimeMinutes)
  }

  /** `BiosimSimulatorSpec`, which `run_biosim_sim` updates in place. */
  class BiosimSimulatorSpec {
    var simulator: string
    var version: Option<string>

    constructor (simulator: string, version: Option<string>)
      ensures this.simulator == simulator && this.version == version
    {
      this.simulator := simulator;
      this.version := version;
    }
  }

  /** `run_biosim_sim`, where `reply` is what the runs endpoint answers to the
      submission: returns the request that is sent and the run or the error
      raised. After a successful reply a spec without a version takes the
      version the server reports; a spec that had one (even an empty one) and
      every spec after a failed reply keep theirs. */
  method RunBiosimSim(omexName: string, spec: BiosimSimulatorSpec, reply: Result<RunJson, HttpError>)
    returns (sent: BiosimSimulationRunApiRequest, r: Result<BiosimSimulationRun, RunError>)
    modifies spec
    ensures sent == BuildRunRequest(omexName, old(spec.simulator), old(spec.version))
    ensures spec.simulator == old(spec.simulator)
    ensures reply.Failure? ==> r == Failure(RunHttpError(reply.error)) && spec.version == old(spec.version)
    ensures reply.Success? ==> r == RunFromJson(reply.value)
    ensures reply.Success? && old(spec.version).None? ==> spec.version == Some(reply.value.simulatorVersion)
    ensures old(spec.version).Some? ==> spec.version == old(spec.version)
  {
    sent := BuildRunRequest(omexName, spec.simulator, spec.version);
    match reply
    case Failure(e) =>
      r := Failure(RunHttpError(e));
    case Success(res) =>
      if spec.version.None? {
        spec.version := Some(res.simulatorVersion);
      }
      r := RunFromJson(res);
  }
}
