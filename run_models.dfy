/** The run and output-metadata records of biosim_server/biosim_runs/models.py:
    the run-status enumeration, the run record and its id validator, and the
    HDF5 metadata views (`sedml_labels`, `datasets`). */
module RunModels {
  import opened Wrappers
  import Text

  // ---------------------------------------------------------------------
  // Run status and run record
  // ---------------------------------------------------------------------

  /** `BiosimSimulationRunStatus`, a string enumeration. */
  datatype BiosimSimulationRunStatus =
    | CREATED | QUEUED | RUNNING | SKIPPED | PROCESSING
    | SUCCEEDED | FAILED | RUN_ID_NOT_FOUND | UNKNOWN

  /** The string each member stands for (the member's own name). */
  function StatusValue(s: BiosimSimulationRunStatus): string {
    match s
    case CREATED => "CREATED"
    case QUEUED => "QUEUED"
    case RUNNING => "RUNNING"
    case SKIPPED => "SKIPPED"
    case PROCESSING => "PROCESSING"
    case SUCCEEDED => "SUCCEEDED"
    case FAILED => "FAILED"
    case RUN_ID_NOT_FOUND => "RUN_ID_NOT_FOUND"
    case UNKNOWN => "UNKNOWN"
  }

  /** `BiosimSimulationRunStatus(s)`: the member whose value is `s`; None
      where Python raises ValueError. */
  function ParseStatus(s: string): (r: Option<BiosimSimulationRunStatus>)
    ensures r.Some? ==> StatusValue(r.value) == s
  {
    if s == "CREATED" then Some(CREATED)
    else if s == "QUEUED" then Some(QUEUED)
    else if s == "RUNNING" then Some(RUNNING)
    else if s == "SKIPPED" then Some(SKIPPED)
    else if s == "PROCESSING" then Some(PROCESSING)
    else if s == "SUCCEEDED" then Some(SUCCEEDED)
    else if s == "FAILED" then Some(FAILED)
    else if s == "RUN_ID_NOT_FOUND" then Some(RUN_ID_NOT_FOUND)
    else if s == "UNKNOWN" then Some(UNKNOWN)
    else None
  }

  /** Every member's value parses back to that member, so the value map is a
      bijection between the members and the accepted strings. */
  lemma ParseStatusValue(st: BiosimSimulationRunStatus)
    ensures ParseStatus(StatusValue(st)) == Some(st)
  {
    match st
    case CREATED =>
    case QUEUED =>
    case RUNNING =>
    case SKIPPED =>
    case PROCESSING =>
    case SUCCEEDED =>
    case FAILED =>
    case RUN_ID_NOT_FOUND =>
    case UNKNOWN =>
  }

  /** A simulation run as the service client builds it. */
  datatype BiosimSimulationRun = BiosimSimulationRun(
    id: string,
    name: string,
    simulator: string,
    simulatorVersion: string,
    simulatorDigest: Option<string>,
    status: BiosimSimulationRunStatus,
    errorMessage: Option<string>)

  datatype ValidationError = IdLooksLikeUuid(id: string)

  /** The `id` field validator: an id containing a dash is refused (it looks
      like a uuid); any other id is kept as it is. */
  function ValidateId(v: string): (r: Result<string, ValidationError>)
    ensures r.Success? <==> '-' !in v
    ensures r.Success? ==> r.value == v
    ensures r.Failure? ==> r.error == IdLooksLikeUuid(v)
  {
    if Text.Find(v, '-') >= 0 then Failure(IdLooksLikeUuid(v)) else Success(v)
  }

  // ---------------------------------------------------------------------
  // HDF5 metadata
  // ---------------------------------------------------------------------

  /** One element of a list-valued attribute. */
  datatype Scalar = IntItem(i: int) | FloatItem(f: real) | StrItem(s: string) | BoolItem(b: bool)

  /** `ATTRIBUTE_VALUE_TYPE`: a scalar or a list of scalars. */
  datatype AttributeValue =
    | IntValue(i: int) | FloatValue(f: real) | StrValue(s: string) | BoolValue(b: bool)
    | ListValue(items: seq<Scalar>)

  datatype HDF5Attribute = HDF5Attribute(key: string, value: AttributeValue)

  datatype HDF5Dataset = HDF5Dataset(name: string, shape: seq<int>, attributes: seq<HDF5Attribute>)

  datatype HDF5Group = HDF5Group(name: string, attributes: seq<HDF5Attribute>, datasets: seq<HDF5Dataset>)

  datatype HDF5File = HDF5File(filename: string, id: string, uri: string, groups: seq<HDF5Group>)

  const SedmlLabelsKey := "sedmlDataSetLabels"

  /** The runtime test `isinstance(value, list) and all(isinstance(v, str) ...)`. */
  predicate IsStringList(v: AttributeValue) {
    v.ListValue? && forall i :: 0 <= i < |v.items| ==> v.items[i].StrItem?
  }

  /** An attribute `sedml_labels` accepts. */
  predicate IsLabelAttribute(a: HDF5Attribute) {
    a.key == SedmlLabelsKey && IsStringList(a.value)
  }

  function Strings(items: seq<Scalar>): (r: seq<string>)
    requires forall i :: 0 <= i < |items| ==> items[i].StrItem?
    ensures |r| == |items| && forall i :: 0 <= i < |items| ==> r[i] == items[i].s
  {
    if items == [] then [] else [items[0].s] + Strings(items[1..])
  }

  /** `HDF5Dataset.sedml_labels`: the string list of the first attribute keyed
      "sedmlDataSetLabels" whose value is a list of strings; attributes with
      that key but another value are passed over; [] when none qualifies. */
  function SedmlLabels(attributes: seq<HDF5Attribute>): (labels: seq<string>)
  {
    if attributes == [] then []
    else if IsLabelAttribute(attributes[0]) then Strings(attributes[0].value.items)
    else SedmlLabels(attributes[1..])
  }

  /** The labels come from the first qualifying attribute, whatever follows. */
  lemma {:induction false} SedmlLabelsFirst(attributes: seq<HDF5Attribute>, k: nat)
    requires k < |attributes| && IsLabelAttribute(attributes[k])
    requires forall j :: 0 <= j < k ==> !IsLabelAttribute(attributes[j])
    ensures SedmlLabels(attributes) == Strings(attributes[k].value.items)
  {
    if k > 0 {
      assert !IsLabelAttribute(attributes[0]);
      SedmlLabelsFirst(attributes[1..], k - 1);
    }
  }

  /** No qualifying attribute gives the empty list. */
  lemma {:induction false} SedmlLabelsNone(attributes: seq<HDF5Attribute>)
    requires forall j :: 0 <= j < |attributes| ==> !IsLabelAttribute(attributes[j])
    ensures SedmlLabels(attributes) == []
  {
    if attributes != [] {
      assert !IsLabelAttribute(attributes[0]);
      SedmlLabelsNone(attributes[1..]);
    }
  }

  /** A non-empty result is always the list of some qualifying attribute. */
  lemma {:induction false} SedmlLabelsSource(attributes: seq<HDF5Attribute>)
    requires SedmlLabels(attributes) != []
    ensures exists k :: 0 <= k < |attributes| && IsLabelAttribute(attributes[k])
               && SedmlLabels(attributes) == Strings(attributes[k].value.items)
  {
    if !IsLabelAttribute(attributes[0]) {
      SedmlLabelsSource(attributes[1..]);
      var k :| 0 <= k < |attributes[1..]| && IsLabelAttribute(attributes[1..][k])
               && SedmlLabels(attributes[1..]) == Strings(attributes[1..][k].value.items);
      assert attributes[k + 1] == attributes[1..][k];
    }
  }

  /** All datasets of all groups, group by group, each group in its own order. */
  function AllDatasets(groups: seq<HDF5Group>): (r: seq<HDF5Dataset>)
  {
    if groups == [] then [] else AllDatasets(groups[..|groups| - 1]) + groups[|groups| - 1].datasets
  }

  /** The dictionary obtained by writing the datasets in order, keyed by name. */
  function NameIndex(datasets: seq<HDF5Dataset>): map<string, HDF5Dataset>
  {
    if datasets == [] then map[]
    else
      var last := datasets[|datasets| - 1];
      NameIndex(datasets[..|datasets| - 1])[last.name := last]
  }

  /** The key set of the name index is exactly the set of dataset names. */
  lemma {:induction false} NameIndexKeys(datasets: seq<HDF5Dataset>)
    ensures NameIndex(datasets).Keys == set i | 0 <= i < |datasets| :: datasets[i].name
  {
    if datasets != [] {
      var n := |datasets| - 1;
      NameIndexKeys(datasets[..n]);
      assert forall i :: 0 <= i < n ==> datasets[..n][i] == datasets[i];
    }
  }

  /** A name maps to its last occurrence. */
  lemma {:induction false} NameIndexLastWins(datasets: seq<HDF5Dataset>, k: nat)
    requires k < |datasets|
    requires forall j :: k < j < |datasets| ==> datasets[j].name != datasets[k].name
    ensures datasets[k].name in NameIndex(datasets)
    ensures NameIndex(datasets)[datasets[k].name] == datasets[k]
  {
    var n := |datasets| - 1;
    if k < n {
      assert datasets[..n][k] == datasets[k];
      NameIndexLastWins(datasets[..n], k);
    }
  }

  /** `HDF5File.datasets`: every dataset of every group, keyed by its name,
      a later dataset overwriting an earlier one of the same name. */
  method FileDatasets(file: HDF5File) returns (datasetDict: map<string, HDF5Dataset>)
    ensures datasetDict == NameIndex(AllDatasets(file.groups))
  {
    datasetDict := map[];
    var g := 0;
    while g < |file.groups|
      invariant 0 <= g <= |file.groups|
      invariant datasetDict == NameIndex(AllDatasets(file.groups[..g]))
    {
      var group := file.groups[g];
      ghost var before := AllDatasets(file.groups[..g]);
      var p := 0;
      assert before + group.datasets[..0] == before;
      while p < |group.datasets|
        invariant 0 <= p <= |group.datasets|
        invariant datasetDict == NameIndex(before + group.datasets[..p])
      {
        var dataset := group.datasets[p];
        assert (before + group.datasets[..p + 1])[..|before| + p] == before + group.datasets[..p];
        datasetDict := datasetDict[dataset.name := dataset];
        p := p + 1;
      }
      assert file.groups[..g + 1][..g] == file.groups[..g];
      assert group.datasets[..p] == group.datasets;
      g := g + 1;
    }
    assert file.groups[..g] == file.groups;
  }

  /** The view's keys are exactly the dataset names over all groups, and
      each name maps to its last dataset in group-then-position order. (For a
      file without datasets, NameIndexKeys gives the empty dictionary.) */
  lemma FileDatasetsSpec(file: HDF5File, k: nat)
    requires k < |AllDatasets(file.groups)|
    requires forall j :: k < j < |AllDatasets(file.groups)| ==>
               AllDatasets(file.groups)[j].name != AllDatasets(file.groups)[k].name
    ensures NameIndex(AllDatasets(file.groups)).Keys
              == set i | 0 <= i < |AllDatasets(file.groups)| :: AllDatasets(file.groups)[i].name
    ensures NameIndex(AllDatasets(file.groups))[AllDatasets(file.groups)[k].name] == AllDatasets(file.groups)[k]
  {
    NameIndexKeys(AllDatasets(file.groups));
    NameIndexLastWins(AllDatasets(file.groups), k);
  }

  /** Every dataset of every group takes part in the view. */
  lemma {:induction false} AllDatasetsContains(groups: seq<HDF5Group>, g: nat, p: nat)
    requires g < |groups| && p < |groups[g].datasets|
    ensures groups[g].datasets[p] in AllDatasets(groups)
  {
    var n := |groups| - 1;
    if g < n {
      assert groups[..n][g] == groups[g];
      AllDatasetsContains(groups[..n], g, p);
    }
  }
}
