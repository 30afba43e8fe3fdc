/**
 * The results slice (screens/resultsSlice.ts): a season's races and one session's data,
 * each with its own status, sharing one error field. Each reducer case is a method that
 * assigns the fields in place.
 */
module ResultsSlice {
  import opened Wrappers
  import opened ClientTypes

  /** Both fetch thunks reject with `{ message: err.message ?? "Error" }`. */
  function FetchRejection(err: HttpError): (p: RejectPayload)
    ensures p.status.None? && p.message.Some?
    ensures err.message.Some? ==> p.message == err.message
    ensures err.message.None? ==> p.message == Some("Error")
  {
    RejectPayload(Some(err.message.Or("Error")), None)
  }

  /** `??` keeps an empty `err.message`: such a rejection leaves an empty error message. */
  lemma EmptyMessageKept(err: HttpError, actionMessage: Option<string>)
    requires err.message == Some("")
    ensures RejectionMessage(Some(FetchRejection(err)), actionMessage) == ""
  {
  }

  class ResultsStore {
    var racesYear: Option<RacesYear>
    var sessionData: Option<SessionData>
    var status: Status
    var sessionStatus: Status
    var error: Option<string>

    /** The initial state: no data, both statuses "idle", no error. */
    constructor ()
      ensures racesYear.None? && sessionData.None?
      ensures status == Idle && sessionStatus == Idle && error.None?
    {
      racesYear := None;
      sessionData := None;
      status := Idle;
      sessionStatus := Idle;
      error := None;
    }

    /** `clearSession`: the session's data, status and the shared error are reset; the season stays. */
    method ClearSession()
      modifies this
      ensures sessionData.None? && sessionStatus == Idle && error.None?
      ensures racesYear == old(racesYear) && status == old(status)
    {
      sessionData := None;
      sessionStatus := Idle;
      error := None;
    }

    /** `fetchRacesYear.pending`. */
    method RacesPending()
      modifies this
      ensures status == Loading && error.None?
      ensures racesYear == old(racesYear) && sessionData == old(sessionData) && sessionStatus == old(sessionStatus)
    {
      status := Loading;
      error := None;
    }

    /** `fetchRacesYear.fulfilled`: the season is stored and the error is left as it was. */
    method RacesFulfilled(payload: Option<RacesYear>)
      modifies this
      ensures status == Succeeded && racesYear == payload
      ensures error == old(error) && sessionData == old(sessionData) && sessionStatus == old(sessionStatus)
    {
      status := Succeeded;
      racesYear := payload;
    }

    /** `fetchRacesYear.rejected`: whatever the error was, it becomes this rejection's message. */
    method RacesRejected(payload: Option<RejectPayload>, message: Option<string>)
      modifies this
      ensures status == Failed && error == Some(RejectionMessage(payload, message))
      ensures racesYear == old(racesYear) && sessionData == old(sessionData) && sessionStatus == old(sessionStatus)
    {
      status := Failed;
      error := Some(RejectionMessage(payload, message));
    }

    /** `fetchYearRoundSession.pending`. */
    method SessionPending()
      modifies this
      ensures sessionStatus == Loading && error.None?
      ensures sessionData == old(sessionData) && racesYear == old(racesYear) && status == old(status)
    {
      sessionStatus := Loading;
      error := None;
    }

    /** `fetchYearRoundSession.fulfilled`: the session is stored and the error is left as it was. */
    method SessionFulfilled(payload: Option<SessionData>)
      modifies this
      ensures sessionStatus == Succeeded && sessionData == payload
      ensures error == old(error) && racesYear == old(racesYear) && status == old(status)
    {
      sessionStatus := Succeeded;
      sessionData := payload;
    }

    /** `fetchYearRoundSession.rejected`: whatever the error was, it becomes this rejection's message. */
    method SessionRejected(payload: Option<RejectPayload>, message: Option<string>)
      modifies this
      ensures sessionStatus == Failed && error == Some(RejectionMessage(payload, message))
      ensures sessionData == old(sessionData) && racesYear == old(racesYear) && status == old(status)
    {
      sessionStatus := Failed;
      error := Some(RejectionMessage(payload, message));
    }
  }
}
