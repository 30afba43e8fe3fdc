/**
 * The drivers slice (screens/driversSlice.ts): `items`, the `byId` record derived from them,
 * and the fetch lifecycle, assigned in place by one method per reducer case.
 */
module DriversSlice {
  import opened Wrappers
  import opened ClientTypes
  import opened ById

  /** The key the `byId` reduce files a driver under. */
  function DriverKey(x: Driver): int {
    x.id
  }

  /** `fetchDrivers`' rejection: `{ message: err.message || "Unknown error" }`. */
  function FetchDriversRejection(err: HttpError): (p: RejectPayload)
    ensures p.status.None? && p.message.Some? && p.message.value != ""
    ensures Truthy(err.message) ==> p.message == err.message
    ensures !Truthy(err.message) ==> p.message == Some("Unknown error")
  {
    RejectPayload(Some(OrIfFalsy(err.message, "Unknown error")), None)
  }

  /** A failed `fetchDrivers` always leaves a non-empty error message. */
  lemma DriversRejectionNonEmpty(err: HttpError, message: Option<string>)
    ensures RejectionMessage(Some(FetchDriversRejection(err)), message) != ""
  {
  }

  class DriversStore {
    var items: seq<Driver>
    var byId: map<int, Driver>
    var status: Status
    var error: Option<string>

    /** `byId` is the record of `items`. */
    predicate Consistent()
      reads this
    {
      byId == Index(items, DriverKey)
    }

    /** The initial state: no items, an empty record, "idle", no error. */
    constructor ()
      ensures items == [] && byId == map[] && status == Idle && error == None
      ensures Consistent()
    {
      items := [];
      byId := map[];
      status := Idle;
      error := None;
    }

    /** `setDrivers`: the items, their record, "succeeded" and no error. */
    method SetDrivers(payload: seq<Driver>)
      modifies this
      ensures items == payload && byId == Index(payload, DriverKey)
      ensures status == Succeeded && error == None
      ensures Consistent()
    {
      items := payload;
      byId := BuildIndex(payload, DriverKey);
      status := Succeeded;
      error := None;
    }

    /** `clearDrivers`: back to the initial state, whatever the state was, so a second call changes nothing. */
    method ClearDrivers()
      modifies this
      ensures items == [] && byId == map[] && status == Idle && error == None
      ensures Consistent()
    {
      items := [];
      byId := map[];
      status := Idle;
      error := None;
    }

    /** `fetchDrivers.pending`: "loading" and no error; the items and their record stay. */
    method FetchPending()
      modifies this
      ensures status == Loading && error == None
      ensures items == old(items) && byId == old(byId)
    {
      status := Loading;
      error := None;
    }

    /** `fetchDrivers.fulfilled`: items and record rebuilt as `setDrivers` does, but the error is kept. */
    method FetchFulfilled(payload: seq<Driver>)
      modifies this
      ensures items == payload && byId == Index(payload, DriverKey)
      ensures status == Succeeded && error == old(error)
      ensures Consistent()
    {
      status := Succeeded;
      items := payload;
      byId := BuildIndex(payload, DriverKey);
    }

    /** `fetchDrivers.rejected`: "failed" and the rejection's message; the items and their record stay. */
    method FetchRejected(payload: Option<RejectPayload>, message: Option<string>)
      modifies this
      ensures status == Failed && error == Some(RejectionMessage(payload, message))
      ensures items == old(items) && byId == old(byId)
    {
      status := Failed;
      error := Some(RejectionMessage(payload, message));
    }

    /**
     * `selectDriverById`: in a consistent state, the last item with that id, or
     * `undefined` exactly when no item has it.
     */
    function SelectDriverById(id: int): (r: Option<Driver>)
      reads this
      ensures Consistent() ==> (r.None? <==> forall i :: 0 <= i < |items| ==> items[i].id != id)
      ensures Consistent() && r.Some? ==>
                exists i :: 0 <= i < |items| && items[i] == r.value && items[i].id == id
                            && forall j :: i < j < |items| ==> items[j].id != id
    {
      LookupIndexed(items, DriverKey, id);
      Lookup(byId, id)
    }
  }
}
