/**
 * The profile settings form (screens/SettingsScreen.tsx): the fields it starts from, the
 * favourite switches, the payload it saves and the status it steps through while saving.
 * The update thunk is a parameter: the outcome it settles with.
 */
module SettingsScreen {
  import opened Wrappers
  import opened Strings
  import opened ClientTypes
  import Users
  import UserController

  /** The favourites a list starts from: the array if there is one, else the older key's value if there is one, else none. */
  function InitialFavourites(primary: Option<seq<string>>, legacy: Option<seq<string>>): (r: seq<string>)
    ensures primary.Some? ==> r == primary.value
    ensures primary.None? && legacy.Some? ==> r == legacy.value
    ensures primary.None? && legacy.None? ==> r == []
  {
    if primary.Some? then primary.value else if legacy.Some? then legacy.value else []
  }

  function InitialDrivers(user: Option<UserInfo>): seq<string> {
    if user.None? then [] else InitialFavourites(user.value.favoriteDriversIds, user.value.favoriteDriverIds)
  }

  function InitialTeams(user: Option<UserInfo>): seq<string> {
    if user.None? then [] else InitialFavourites(user.value.favoriteTeamsIds, user.value.favoriteTeamIds)
  }

  /** `user?.username ?? ""` and `user?.email ?? ""`. */
  function InitialUsername(user: Option<UserInfo>): string {
    if user.None? then "" else user.value.username
  }

  function InitialEmail(user: Option<UserInfo>): string {
    if user.None? then "" else user.value.email
  }

  /** An empty array under the new key still wins over the older key. */
  lemma EmptyArrayWins(legacy: seq<string>)
    ensures InitialFavourites(Some([]), Some(legacy)) == []
  {
  }

  /** A switch: on appends the id, even when it is already there; off removes every occurrence. */
  function Switch(prev: seq<string>, id: string, value: bool): (next: seq<string>)
    ensures value ==> next == prev + [id] && |next| == |prev| + 1
    ensures !value ==> id !in next && forall y :: y != id ==> multiset(next)[y] == multiset(prev)[y]
  {
    if value then prev + [id]
    else
      var r := Without(prev, id);
      assert forall y :: y != id ==> multiset(r)[y] == multiset(prev)[y] by {
        forall y | y != id
          ensures multiset(r)[y] == multiset(prev)[y]
        {
          if y !in prev {
            assert y !in r;
          }
        }
      }
      r
  }

  /** Switching on an id that is already selected repeats it. */
  lemma SwitchOnRepeats(prev: seq<string>, id: string)
    requires id in prev
    ensures !NoDuplicates(Switch(prev, id, true))
    ensures multiset(Switch(prev, id, true))[id] == multiset(prev)[id] + 1
  {
    var next := Switch(prev, id, true);
    var i :| 0 <= i < |prev| && prev[i] == id;
    assert next[i] == id && next[|prev|] == id;
  }

  /** The object `handleSave` dispatches: `password` only when the field is non-empty. */
  datatype SavePayload = SavePayload(
    username: string,
    email: string,
    password: Option<string>,
    favoriteDriversIds: seq<string>,
    favoriteTeamsIds: seq<string>)

  /** The payload as the backend's profile update receives it. */
  function BodyOf(p: SavePayload): UserController.UpdateBody {
    UserController.UpdateBody(UserController.Given(p.email), UserController.Given(p.username),
                              UserController.Given(p.favoriteDriversIds), UserController.Given(p.favoriteTeamsIds),
                              if p.password.Some? then UserController.Given(p.password.value) else UserController.Undefined)
  }

  /**
   * Saving with an empty password field keeps the stored password, and the stored row then
   * carries exactly the payload's trimmed username, email and both lists.
   */
  lemma SaveWritesPayload(u: Users.UserRecord, p: SavePayload, hash: string -> string)
    ensures var v := Users.Apply(u, UserController.PatchOf(BodyOf(p), hash));
            v.id == u.id && v.username == p.username && v.email == p.email
            && v.favoriteDriversIds == p.favoriteDriversIds && v.favoriteTeamsIds == p.favoriteTeamsIds
            && (p.password.None? ==> v.password == u.password)
            && (p.password.Some? ==> v.password == hash(p.password.value))
  {
  }

  /** `idle`, `saving`, `saved`, `error`. */
  datatype SaveStatus = NotSaved | Saving | Saved | SaveFailed

  /** What a failed save throws: an error object with a message, or the rejection's value itself. */
  datatype Thrown = Thrown(message: Option<string>, text: string)

  /** `err?.message || String(err)`. */
  function ThrownMessage(e: Thrown): string {
    OrIfFalsy(e.message, e.text)
  }

  /**
   * The thunk `handleSave` calls, when there is one; the outcome is None when the update
   * fulfils. Without a thunk, calling it throws before anything is dispatched.
   */
  function SaveOutcome(thunk: Option<SavePayload -> Option<Thrown>>, p: SavePayload, typeError: Thrown): (r: Option<Thrown>)
    ensures thunk.None? ==> r == Some(typeError)
    ensures thunk.Some? ==> r == thunk.value(p)
  {
    if thunk.None? then Some(typeError) else thunk.value(p)
  }

  /** The auth slice exports no `updateUser`, so the name the screen imports is undefined. */
  const ImportedThunk: Option<SavePayload -> Option<Thrown>> := None

  /**
   * As written, the outcome of every save is the TypeError thrown by calling the undefined
   * name, so `HandleSave` always ends in the error state with that message.
   */
  lemma SaveAlwaysFails(p: SavePayload, typeError: Thrown)
    ensures SaveOutcome(ImportedThunk, p, typeError) == Some(typeError)
  {
  }

  class SettingsForm {
    var username: string
    var email: string
    var password: string
    var favoriteDriversIds: seq<string>
    var favoriteTeamsIds: seq<string>
    var status: SaveStatus
    var error: Option<string>

    /** The fields the form starts with for the signed-in user. */
    constructor (user: Option<UserInfo>)
      ensures username == InitialUsername(user) && email == InitialEmail(user) && password == ""
      ensures favoriteDriversIds == InitialDrivers(user) && favoriteTeamsIds == InitialTeams(user)
      ensures status == NotSaved && error.None?
    {
      username := InitialUsername(user);
      email := InitialEmail(user);
      password := "";
      favoriteDriversIds := InitialDrivers(user);
      favoriteTeamsIds := InitialTeams(user);
      status := NotSaved;
      error := None;
    }

    /** The effect run when the user changes: the same starting values, password and status untouched. */
    method Reload(user: Option<UserInfo>)
      modifies this
      ensures username == InitialUsername(user) && email == InitialEmail(user)
      ensures favoriteDriversIds == InitialDrivers(user) && favoriteTeamsIds == InitialTeams(user)
      ensures password == old(password) && status == old(status) && error == old(error)
    {
      username := InitialUsername(user);
      email := InitialEmail(user);
      favoriteDriversIds := InitialDrivers(user);
      favoriteTeamsIds := InitialTeams(user);
    }

    /** `toggleDriver(id, value)`. */
    method ToggleDriver(id: string, value: bool)
      modifies this
      ensures favoriteDriversIds == Switch(old(favoriteDriversIds), id, value)
      ensures favoriteTeamsIds == old(favoriteTeamsIds) && username == old(username) && email == old(email)
      ensures password == old(password) && status == old(status) && error == old(error)
    {
      favoriteDriversIds := Switch(favoriteDriversIds, id, value);
    }

    /** `toggleTeam(id, value)`. */
    method ToggleTeam(id: string, value: bool)
      modifies this
      ensures favoriteTeamsIds == Switch(old(favoriteTeamsIds), id, value)
      ensures favoriteDriversIds == old(favoriteDriversIds) && username == old(username) && email == old(email)
      ensures password == old(password) && status == old(status) && error == old(error)
    {
      favoriteTeamsIds := Switch(favoriteTeamsIds, id, value);
    }

    /** The payload of the current fields. */
    function Payload(): (p: SavePayload)
      reads this`username, this`email, this`password, this`favoriteDriversIds, this`favoriteTeamsIds
      ensures p.username == Trim(username) && p.email == Trim(email)
      ensures p.password.Some? <==> password != ""
      ensures p.password.Some? ==> p.password.value == password
      ensures p.favoriteDriversIds == favoriteDriversIds && p.favoriteTeamsIds == favoriteTeamsIds
    {
      SavePayload(Trim(username), Trim(email), if password != "" then Some(password) else None,
                  favoriteDriversIds, favoriteTeamsIds)
    }

    /** The payload object built from the fields, `password` set only when the field is non-empty. */
    method BuildPayload() returns (payload: SavePayload)
      ensures payload == Payload()
    {
      payload := SavePayload(Trim(username), Trim(email), None, favoriteDriversIds, favoriteTeamsIds);
      if password != "" {
        payload := payload.(password := Some(password));
      }
    }

    /**
     * `handleSave`: the error cleared and "saving" first; then, when the update fulfils,
     * "saved" and an emptied password field, otherwise "error" with the thrown value's
     * message. The other fields are left as they were.
     */
    method HandleSave(thunk: Option<SavePayload -> Option<Thrown>>, typeError: Thrown)
      returns (sent: SavePayload, outcome: Option<Thrown>)
      modifies this`status, this`password, this`error
      ensures sent == old(Payload()) && outcome == SaveOutcome(thunk, sent, typeError)
      ensures outcome.None? ==> status == Saved && password == "" && error.None?
      ensures outcome.Some? ==> status == SaveFailed && password == old(password)
                                && error == Some(ThrownMessage(outcome.value))
    {
      error := None;
      status := Saving;
      sent := BuildPayload();
      outcome := SaveOutcome(thunk, sent, typeError);
      if outcome.None? {
        status := Saved;
        password := "";
      } else {
        error := Some(ThrownMessage(outcome.value));
        status := SaveFailed;
      }
    }
  }
}
