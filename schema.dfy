/**
 * The two persisted record shapes (`time_entries`, `admins`), the insert
 * payloads derived from them, and the validation of a decoded request body
 * against the time-entry insert schema.
 */
module Schema {
  import opened Wrappers

  /** A stored clock-in or clock-out record; `timestamp` in milliseconds. */
  datatype TimeEntry = TimeEntry(
    id: int,
    name: string,
    entryType: string,
    timestamp: int,
    latitude: real,
    longitude: real,
    isDriver: bool)

  datatype Admin = Admin(id: int, username: string, password: string)

  /**
   * The time-entry insert payload: no `id`; `timestamp` and `isDriver` have
   * column defaults and may therefore be left out.
   */
  datatype InsertTimeEntry = InsertTimeEntry(
    name: string,
    entryType: string,
    timestamp: Option<int>,
    latitude: real,
    longitude: real,
    isDriver: Option<bool>)

  /** The admin insert payload: no `id`. */
  datatype InsertAdmin = InsertAdmin(username: string, password: string)

  /** A decoded request-body value, as the schema validator sees it. */
  datatype Json = JNull | JBool(b: bool) | JNumber(x: real) | JString(s: string) | JDate(ms: int) | JOther

  /** A request body: keys that are absent are `undefined`. */
  type Body = map<string, Json>

  /** The keys of the time-entry insert schema, in declaration order. */
  const InsertKeys: seq<string> := ["name", "type", "timestamp", "latitude", "longitude", "isDriver"]

  predicate IsString(v: Json) { v.JString? }
  predicate IsNumber(v: Json) { v.JNumber? }
  predicate IsDate(v: Json) { v.JDate? }
  predicate IsBool(v: Json) { v.JBool? }

  /** Whether the value under `key` is acceptable: required keys must be present. */
  predicate FieldOk(body: Body, key: string) {
    match key
    case "name" => key in body && IsString(body[key])
    case "type" => key in body && IsString(body[key])
    case "latitude" => key in body && IsNumber(body[key])
    case "longitude" => key in body && IsNumber(body[key])
    case "timestamp" => key !in body || IsDate(body[key])
    case "isDriver" => key !in body || IsBool(body[key])
    case _ => true
  }

  /** The schema keys whose value is missing or of the wrong type, in schema order. */
  function Issues(body: Body, keys: seq<string>): (r: seq<string>)
    ensures forall k :: k in r <==> k in keys && !FieldOk(body, k)
  {
    if keys == [] then []
    else (if FieldOk(body, keys[0]) then [] else [keys[0]]) + Issues(body, keys[1..])
  }

  /**
   * `insertTimeEntrySchema.safeParse(body)`: on success the parsed payload,
   * with keys outside the schema (among them `id`) dropped; otherwise the
   * list of offending keys.
   */
  function ValidateInsertTimeEntry(body: Body): (r: Result<InsertTimeEntry, seq<string>>)
    ensures r.Success? <==> forall k :: k in InsertKeys ==> FieldOk(body, k)
    ensures r.Failure? ==> r.error != [] && forall k :: k in r.error ==> k in InsertKeys && !FieldOk(body, k)
    ensures r.Failure? ==> r.error == Issues(body, InsertKeys)
    ensures r.Failure? ==> forall k :: k in InsertKeys && !FieldOk(body, k) ==> k in r.error
    ensures r.Success? ==>
      && "name" in body && body["name"] == JString(r.value.name)
      && "type" in body && body["type"] == JString(r.value.entryType)
      && "latitude" in body && body["latitude"] == JNumber(r.value.latitude)
      && "longitude" in body && body["longitude"] == JNumber(r.value.longitude)
      && (r.value.timestamp.Some? <==> "timestamp" in body)
      && (r.value.timestamp.Some? ==> body["timestamp"] == JDate(r.value.timestamp.value))
      && (r.value.isDriver.Some? <==> "isDriver" in body)
      && (r.value.isDriver.Some? ==> body["isDriver"] == JBool(r.value.isDriver.value))
  {
    var issues := Issues(body, InsertKeys);
    if issues != [] then
      assert issues[0] in issues;
      Failure(issues)
    else
      assert forall k :: k in InsertKeys ==> FieldOk(body, k);
      assert FieldOk(body, "name") && FieldOk(body, "type");
      assert FieldOk(body, "latitude") && FieldOk(body, "longitude");
      assert FieldOk(body, "timestamp") && FieldOk(body, "isDriver");
      Success(InsertTimeEntry(
        body["name"].s,
        body["type"].s,
        if "timestamp" in body then Some(body["timestamp"].ms) else None,
        body["latitude"].x,
        body["longitude"].x,
        if "isDriver" in body then Some(body["isDriver"].b) else None))
  }

  /** The body a client sends for a payload: optional fields only when given. */
  function ToBody(p: InsertTimeEntry): Body {
    var required := map["name" := JString(p.name), "type" := JString(p.entryType),
                        "latitude" := JNumber(p.latitude), "longitude" := JNumber(p.longitude)];
    var withTime := if p.timestamp.Some? then required["timestamp" := JDate(p.timestamp.value)] else required;
    if p.isDriver.Some? then withTime["isDriver" := JBool(p.isDriver.value)] else withTime
  }

  /** Every payload the schema describes passes validation unchanged. */
  lemma ValidateToBody(p: InsertTimeEntry)
    ensures ValidateInsertTimeEntry(ToBody(p)) == Success(p)
  {
    var body := ToBody(p);
    forall k | k in InsertKeys ensures FieldOk(body, k) {}
  }

  /** Keys outside the schema, `id` included, never change the outcome. */
  lemma ExtraKeysIgnored(body: Body, key: string, v: Json)
    requires key !in InsertKeys
    ensures ValidateInsertTimeEntry(body[key := v]) == ValidateInsertTimeEntry(body)
  {
    var b2 := body[key := v];
    forall k | k in InsertKeys ensures FieldOk(b2, k) == FieldOk(body, k) {}
    IssuesAgree(body, b2, InsertKeys);
  }

  lemma {:induction false} IssuesAgree(b1: Body, b2: Body, keys: seq<string>)
    requires forall k :: k in keys ==> FieldOk(b1, k) == FieldOk(b2, k)
    ensures Issues(b1, keys) == Issues(b2, keys)
  {
    if keys != [] {
      IssuesAgree(b1, b2, keys[1..]);
    }
  }
}
