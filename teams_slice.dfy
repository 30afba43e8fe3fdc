/**
 * The teams slice (screens/teamsSlice.ts): `items`, the `byId` record derived from them,
 * and the fetch lifecycle, assigned in place by one method per reducer case.
 */
module TeamsSlice {
  import opened Wrappers
  import opened ClientTypes
  import opened ById

  /** The key the `byId` reduce files a team under. */
  function TeamKey(x: Team): int {
    x.id
  }

  /** `err.response.data?.message`: only an object body has a message. */
  function DataMessage(data: Option<ResponseData>): Option<string> {
    if data.Some? && data.value.Object? then data.value.message else None
  }

  /**
   * `fetchTeams`' rejection: with a response, its body's truthy message, else its status
   * text, together with its status; without one, `err.message || "Network error"`.
   */
  function FetchTeamsRejection(err: HttpError): (p: RejectPayload)
    ensures p.message.Some?
    ensures err.response.Some? ==>
              p.status == Some(err.response.value.status)
              && p.message == Some(OrIfFalsy(DataMessage(err.response.value.data), err.response.value.statusText))
    ensures err.response.None? ==>
              p.status.None? && p.message == Some(OrIfFalsy(err.message, "Network error")) && p.message.value != ""
  {
    match err.response
    case Some(r) => RejectPayload(Some(OrIfFalsy(DataMessage(r.data), r.statusText)), Some(r.status))
    case None => RejectPayload(Some(OrIfFalsy(err.message, "Network error")), None)
  }

  /**
   * The backend's 502 for a failed upstream call reaches the teams slice as its message;
   * a body without a message falls back to the status text.
   */
  lemma TeamsRejectionMessages(status: int, statusText: string, message: string, json: string,
                               m: Option<string>, text: string, actionMessage: Option<string>)
    requires message != ""
    ensures var e := HttpError(Some(HttpResponse(status, statusText, Some(Object(Some(message), None, json)))), m, text);
            RejectionMessage(Some(FetchTeamsRejection(e)), actionMessage) == message
    ensures var e := HttpError(Some(HttpResponse(status, statusText, Some(Text(json)))), m, text);
            RejectionMessage(Some(FetchTeamsRejection(e)), actionMessage) == statusText
  {
  }

  class TeamsStore {
    var items: seq<Team>
    var byId: map<int, Team>
    var status: Status
    var error: Option<string>

    /** `byId` is the record of `items`. */
    predicate Consistent()
      reads this
    {
      byId == Index(items, TeamKey)
    }

    /** The initial state: no items, an empty record, "idle", no error. */
    constructor ()
      ensures items == [] && byId == map[] && status == Idle && error == None
      ensures Consistent()
    {
      items := [];
      byId := map[];
      status := Idle;
      error := None;
    }

    /** `setTeams`: the items, their record, "succeeded" and no error. */
    method SetTeams(payload: seq<Team>)
      modifies this
      ensures items == payload && byId == Index(payload, TeamKey)
      ensures status == Succeeded && error == None
      ensures Consistent()
    {
      items := payload;
      byId := BuildIndex(payload, TeamKey);
      status := Succeeded;
      error := None;
    }

    /** `clearTeams`: back to the initial state, whatever the state was, so a second call changes nothing. */
    method ClearTeams()
      modifies this
      ensures items == [] && byId == map[] && status == Idle && error == None
      ensures Consistent()
    {
      items := [];
      byId := map[];
      status := Idle;
      error := None;
    }

    /** `fetchTeams.pending`: "loading" and no error; the items and their record stay. */
    method FetchPending()
      modifies this
      ensures status == Loading && error == None
      ensures items == old(items) && byId == old(byId)
    {
      status := Loading;
      error := None;
    }

    /** `fetchTeams.fulfilled`: items and record rebuilt as `setTeams` does, but the error is kept. */
    method FetchFulfilled(payload: seq<Team>)
      modifies this
      ensures items == payload && byId == Index(payload, TeamKey)
      ensures status == Succeeded && error == old(error)
      ensures Consistent()
    {
      status := Succeeded;
      items := payload;
      byId := BuildIndex(payload, TeamKey);
    }

    /** `fetchTeams.rejected`: "failed" and the rejection's message; the items and their record stay. */
    method FetchRejected(payload: Option<RejectPayload>, message: Option<string>)
      modifies this
      ensures status == Failed && error == Some(RejectionMessage(payload, message))
      ensures items == old(items) && byId == old(byId)
    {
      status := Failed;
      error := Some(RejectionMessage(payload, message));
    }

    /**
     * `selectTeamById`: in a consistent state, the last item with that id, or
     * `undefined` exactly when no item has it.
     */
    function SelectTeamById(id: int): (r: Option<Team>)
      reads this
      ensures Consistent() ==> (r.None? <==> forall i :: 0 <= i < |items| ==> items[i].id != id)
      ensures Consistent() && r.Some? ==>
                exists i :: 0 <= i < |items| && items[i] == r.value && items[i].id == id
                            && forall j :: i < j < |items| ==> items[j].id != id
    {
      LookupIndexed(items, TeamKey, id);
      Lookup(byId, id)
    }
  }
}
