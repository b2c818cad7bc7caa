/**
 * The three request handlers: listing entries (the query parameters pick one
 * of four store queries), creating an entry (validated before the store is
 * touched) and the admin login check.
 */
module Routes {
  import opened Wrappers
  import opened Sequences
  import opened Time
  import opened Schema
  import opened Storage

  /** An exception raised by the storage layer. */
  datatype StoreError = StoreError

  datatype ResponseBody =
    | Entries(entries: seq<TimeEntry>)
    | Created(entry: TimeEntry)
    | Message(text: string)
    | Rejected(text: string, details: seq<string>)
    | LoginResult(success: bool, text: string)

  datatype Response = Response(status: int, body: ResponseBody)

  /** The store query a listing request runs. */
  datatype Query = All | ByName(name: string) | ByDate(date: string) | ByNameAndDate(name: string, date: string)

  /** A query parameter is taken only when it is given and not the empty string. */
  predicate Present(p: Option<string>) {
    p.Some? && p.value != ""
  }

  /** The if / else-if chain on `name && date`, `name`, `date`. */
  function ChooseQuery(name: Option<string>, date: Option<string>): (q: Query)
    ensures q.ByNameAndDate? <==> Present(name) && Present(date)
    ensures q.ByName? <==> Present(name) && !Present(date)
    ensures q.ByDate? <==> !Present(name) && Present(date)
    ensures q.All? <==> !Present(name) && !Present(date)
    ensures (q.ByName? || q.ByNameAndDate?) ==> q.name == name.value
    ensures (q.ByDate? || q.ByNameAndDate?) ==> q.date == date.value
  {
    if Present(name) && Present(date) then ByNameAndDate(name.value, date.value)
    else if Present(name) then ByName(name.value)
    else if Present(date) then ByDate(date.value)
    else All
  }

  /** Runs the chosen query; `parse` stands for `new Date(text)`. */
  function RunQuery(store: MemStorage, q: Query, parse: string -> JsDate): seq<TimeEntry>
    reads store
    requires store.Valid()
  {
    match q
    case ByNameAndDate(n, d) => store.GetTimeEntriesByNameAndDate(n, parse(d))
    case ByName(n) => store.GetTimeEntriesByName(n)
    case ByDate(d) => store.GetTimeEntriesByDate(parse(d))
    case All => store.GetAllTimeEntries()
  }

  /** A finished listing is sent as JSON; a store failure becomes status 500. */
  function ListResponse(outcome: Result<seq<TimeEntry>, StoreError>): (r: Response)
    ensures r.status == 500 <==> outcome.Failure?
    ensures outcome.Success? ==> r == Response(200, Entries(outcome.value))
  {
    match outcome
    case Success(entries) => Response(200, Entries(entries))
    case Failure(_) => Response(500, Message("Fehler beim Abrufen der Zeiteinträge."))
  }

  /**
   * GET /api/time-entries: each parameter that is present restricts the
   * result, an absent one does not; the order of the store listing is kept.
   */
  function HandleGetTimeEntries(store: MemStorage, name: Option<string>, date: Option<string>, parse: string -> JsDate): (r: Response)
    reads store
    requires store.Valid()
    ensures r.status == 200 && r.body.Entries?
    ensures forall e :: e in r.body.entries <==>
      && e in store.timeEntries.Values
      && (Present(name) ==> NameMatches(e, name.value))
      && (Present(date) ==> InClosedDay(e.timestamp, parse(date.value)))
    ensures IsSubsequence(r.body.entries, store.GetAllTimeEntries())
  {
    var q := ChooseQuery(name, date);
    if q.All? then
      var all := store.GetAllTimeEntries();
      FilterKeepsAll(all, (e: TimeEntry) => true);
      FilterIsSubsequence(all, (e: TimeEntry) => true);
      ListResponse(Success(all))
    else
      ListResponse(Success(RunQuery(store, q, parse)))
  }

  /** The created entry is sent with status 201; a store failure becomes status 500. */
  function CreateResponse(outcome: Result<TimeEntry, StoreError>): (r: Response)
    ensures r.status == 500 <==> outcome.Failure?
    ensures outcome.Success? ==> r == Response(201, Created(outcome.value))
  {
    match outcome
    case Success(e) => Response(201, Created(e))
    case Failure(_) => Response(500, Message("Fehler beim Erstellen des Zeiteintrags."))
  }

  const InvalidDataMessage: string := "Ungültige Daten. Bitte überprüfen Sie Ihre Eingaben."

  /**
   * POST /api/time-entries: an invalid body is answered with 400 and the
   * store is left alone; a valid one is stored exactly once and answered
   * with 201 and the stored record. `now` is the clock reading.
   */
  method HandleCreateTimeEntry(store: MemStorage, body: Body, now: int) returns (r: Response)
    requires store.Valid()
    modifies store
    ensures store.Valid()
    ensures ValidateInsertTimeEntry(body).Failure? ==>
      && r == Response(400, Rejected(InvalidDataMessage, ValidateInsertTimeEntry(body).error))
      && unchanged(store)
    ensures ValidateInsertTimeEntry(body).Success? ==>
      var e := BuildEntry(ValidateInsertTimeEntry(body).value, old(store.timeEntryId), now);
      && r == Response(201, Created(e))
      && store.timeEntries == old(store.timeEntries)[e.id := e]
      && store.timeEntryId == old(store.timeEntryId) + 1
      && store.admins == old(store.admins) && store.adminId == old(store.adminId)
  {
    var validation := ValidateInsertTimeEntry(body);
    if validation.Failure? {
      return Response(400, Rejected(InvalidDataMessage, validation.error));
    }
    var entry := store.CreateTimeEntry(validation.value, now);
    r := CreateResponse(Success(entry));
  }

  /** JavaScript truthiness of a body field; an absent field is `undefined`. */
  predicate Truthy(v: Option<Json>) {
    match v
    case None => false
    case Some(JNull) => false
    case Some(JBool(b)) => b
    case Some(JNumber(x)) => x != 0.0
    case Some(JString(s)) => s != ""
    case Some(JDate(_)) => true
    case Some(JOther) => true
  }

  function Field(body: Body, key: string): Option<Json> {
    if key in body then Some(body[key]) else None
  }

  /**
   * `validateAdmin(username, password)` on whatever the body holds: strict
   * equality with a stored string can only hold for string values.
   */
  predicate CredentialsAccepted(store: MemStorage, username: Json, password: Json)
    reads store
    requires store.Valid()
  {
    username.JString? && password.JString? && store.ValidateAdmin(username.s, password.s)
  }

  /** The answer to a credential check; a store failure becomes status 500. */
  function LoginResponse(outcome: Result<bool, StoreError>): (r: Response)
    ensures r.status == 500 <==> outcome.Failure?
    ensures outcome == Success(true) ==> r.status == 200 && r.body.LoginResult? && r.body.success
    ensures outcome == Success(false) ==> r.status == 401 && r.body.LoginResult? && !r.body.success
  {
    match outcome
    case Success(true) => Response(200, LoginResult(true, "Anmeldung erfolgreich."))
    case Success(false) => Response(401, LoginResult(false, "Ungültige Anmeldedaten."))
    case Failure(_) => Response(500, Message("Fehler bei der Anmeldung."))
  }

  /**
   * POST /api/admin/login: a falsy username or password is answered with 400
   * before any credential check; otherwise success is reported exactly when a
   * stored admin has this username and password.
   */
  function HandleAdminLogin(store: MemStorage, body: Body): (r: Response)
    reads store
    requires store.Valid()
    ensures !Truthy(Field(body, "username")) || !Truthy(Field(body, "password")) ==>
      r == Response(400, Message("Benutzername und Passwort sind erforderlich."))
    ensures Truthy(Field(body, "username")) && Truthy(Field(body, "password")) ==>
      && r.body.LoginResult?
      && (r.status == 200 || r.status == 401)
      && (r.body.success <==> r.status == 200)
      && (r.body.success <==>
            exists k :: k in store.admins &&
                        body["username"] == JString(store.admins[k].username) &&
                        body["password"] == JString(store.admins[k].password))
  {
    var username, password := Field(body, "username"), Field(body, "password");
    if !Truthy(username) || !Truthy(password) then
      Response(400, Message("Benutzername und Passwort sind erforderlich."))
    else
      LoginResponse(Success(CredentialsAccepted(store, username.value, password.value)))
  }
}
