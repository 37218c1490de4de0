/** The `get_sim_run` activity of biosim_server/workflows/simulate/biosim_activities.py:
    how the outcome of a remote run lookup and the `abort_on_not_found` flag
    decide between passing the run on, returning a synthetic not-found run,
    and raising. */
module BiosimActivities {
  import opened Wrappers
  import opened RunModels

  /** `GetSimRunInput`; the flag is optional and may be None. */
  datatype GetSimRunInput = GetSimRunInput(biosimRunId: string, abortOnNotFound: Option<bool>)

  /** Python truthiness of the optional flag: only an explicit True aborts. */
  predicate AbortsOnNotFound(input: GetSimRunInput) {
    input.abortOnNotFound == Some(true)
  }

  /** The input built with the flag left at its default. */
  function DefaultGetSimRunInput(biosimRunId: string): (input: GetSimRunInput)
    ensures input.biosimRunId == biosimRunId
    ensures !AbortsOnNotFound(input)
  {
    GetSimRunInput(biosimRunId, Some(false))
  }

  /** What a lookup can raise: an HTTP error response, which carries its
      status, or any other exception. */
  datatype LookupError = ClientResponseError(status: int, message: string) | OtherError(message: string)

  /** The outcome of asking the service for a run. */
  datatype LookupOutcome = Found(run: BiosimSimulationRun) | Raised(error: LookupError)

  /** What the activity does: return a run, or raise. */
  datatype ActivityResult = Returns(run: BiosimSimulationRun) | Raises(error: LookupError)

  const NotFoundStatus: int := 404

  /** The run returned instead of raising when the id is unknown. */
  function NotFoundRun(biosimRunId: string): BiosimSimulationRun {
    BiosimSimulationRun(biosimRunId, "", "", "", None, RUN_ID_NOT_FOUND, None)
  }

  /** Whether a lookup failure is a 404 that the caller asked to absorb. */
  predicate IsAbsorbedNotFound(input: GetSimRunInput, error: LookupError) {
    error.ClientResponseError? && error.status == NotFoundStatus && AbortsOnNotFound(input)
  }

  /** `get_sim_run`: a found run is passed on unchanged; a 404 with the flag
      set returns the not-found run for the requested id; every other failure
      is raised as it came. */
  function GetSimRun(input: GetSimRunInput, outcome: LookupOutcome): (r: ActivityResult)
    ensures outcome.Found? ==> r == Returns(outcome.run)
    ensures r.Raises? <==> outcome.Raised? && !IsAbsorbedNotFound(input, outcome.error)
    ensures r.Raises? ==> r.error == outcome.error
    ensures outcome.Raised? && r.Returns? ==>
              && r.run.id == input.biosimRunId && r.run.status == RUN_ID_NOT_FOUND
              && r.run.name == "" && r.run.simulator == "" && r.run.simulatorVersion == ""
  {
    match outcome
    case Found(run) => Returns(run)
    case Raised(e) =>
      match e
      case ClientResponseError(status, _) =>
        if status == NotFoundStatus && AbortsOnNotFound(input) then Returns(NotFoundRun(input.biosimRunId))
        else Raises(e)
      case OtherError(_) => Raises(e)
  }

  /** With the flag at its default, a 404 is raised. */
  lemma DefaultRaisesOnNotFound(biosimRunId: string, message: string)
    ensures GetSimRun(DefaultGetSimRunInput(biosimRunId), Raised(ClientResponseError(404, message)))
              == Raises(ClientResponseError(404, message))
  {
  }

  /** A status other than 404 is raised whatever the flag says. */
  lemma OtherStatusRaises(input: GetSimRunInput, status: int, message: string)
    requires status != 404
    ensures GetSimRun(input, Raised(ClientResponseError(status, message))) == Raises(ClientResponseError(status, message))
  {
  }

  /** Only the flag separates returning from raising on a 404: for the same
      lookup, a flag that does not abort raises and one that does returns
      the not-found run. */
  lemma NotFoundFlagDecides(biosimRunId: string, message: string, flag: Option<bool>)
    ensures var r := GetSimRun(GetSimRunInput(biosimRunId, flag), Raised(ClientResponseError(404, message)));
            (flag == Some(true) ==> r == Returns(NotFoundRun(biosimRunId)))
            && (flag != Some(true) ==> r == Raises(ClientResponseError(404, message)))
  {
  }
}
