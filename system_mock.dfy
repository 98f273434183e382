/**
 * The in-memory tables behind the mocked system-administration API: the staff list, the
 * audit log and the global settings.  Saving a staff member either merges the request
 * body into the record with the same id or puts a new record at the front; saving the
 * settings merges the body into them and puts one audit entry at the front of the log.
 *
 * Random values (generated ids, seeded dates and log entries) and the clock are
 * parameters of the operations that use them.
 */
module SystemMock {
  import opened Wrappers

  /** A JSON value as a request body holds it, plus `undefined` for a missing property. */
  datatype Json =
    | JUndefined
    | JNull
    | JBool(b: bool)
    | JNum(n: real)
    | JStr(s: string)
    | JArr(items: seq<Json>)
    | JObj(fields: map<string, Json>)

  /** JavaScript truthiness: undefined, null, false, 0 and "" are falsy. */
  predicate Truthy(v: Json) {
    match v
    case JUndefined => false
    case JNull => false
    case JBool(b) => b
    case JNum(n) => n != 0.0
    case JStr(s) => s != ""
    case _ => true
  }

  /**
   * `===` between a stored value and one from a freshly parsed body: primitives compare by
   * value, while an array or object from the body is a new object and so equals nothing stored.
   */
  predicate StrictEquals(a: Json, b: Json) {
    match (a, b)
    case (JUndefined, JUndefined) => true
    case (JNull, JNull) => true
    case (JBool(x), JBool(y)) => x == y
    case (JNum(x), JNum(y)) => x == y
    case (JStr(x), JStr(y)) => x == y
    case _ => false
  }

  /** A record: the properties of a plain object. */
  type Record = map<string, Json>

  /** `record.key`, undefined when the property is missing. */
  function Prop(record: Record, key: string): (v: Json)
    ensures key !in record ==> v == JUndefined
    ensures key in record ==> v == record[key]
  {
    if key in record then record[key] else JUndefined
  }

  /** The properties a body adds in an object spread; null, undefined and other primitives add none. */
  function Spread(body: Json): Record {
    if body.JObj? then body.fields else map[]
  }

  /** `{ ...record, ...body }`: the body's properties win, the record's others are kept. */
  function Merge(record: Record, body: Json): (r: Record)
    ensures r.Keys == record.Keys + Spread(body).Keys
    ensures forall k :: k in Spread(body) ==> r[k] == Spread(body)[k]
    ensures forall k :: k in record && k !in Spread(body) ==> r[k] == record[k]
  {
    record + Spread(body)
  }

  // ---------------------------------------------------------------------------
  // Staff

  /** The position of the first record whose id is `===` to `id`, or -1. */
  function FindIndex(list: seq<Record>, id: Json): (i: int)
    ensures -1 <= i < |list|
    ensures i >= 0 ==> StrictEquals(Prop(list[i], "id"), id)
    ensures forall j :: 0 <= j < |list| && (i == -1 || j < i) ==> !StrictEquals(Prop(list[j], "id"), id)
  {
    if |list| == 0 then -1
    else if StrictEquals(Prop(list[0], "id"), id) then 0
    else
      var k := FindIndex(list[1..], id);
      if k == -1 then -1 else k + 1
  }

  /** The record a save without an id creates. */
  function NewStaff(body: Record, newId: int): (r: Record)
    ensures r.Keys == {"id", "account", "role", "last_login", "status"}
    ensures r["id"] == JNum(newId as real)
    ensures r["account"] == Prop(body, "account") && r["role"] == Prop(body, "role")
    ensures r["last_login"] == JStr("-") && r["status"] == JStr("active")
  {
    map["id" := JNum(newId as real), "account" := Prop(body, "account"), "role" := Prop(body, "role"),
        "last_login" := JStr("-"), "status" := JStr("active")]
  }

  /**
   * The staff list after a save of `body` (an object), with `newId` the id a new record would
   * get. A save whose id is found merges the body into that record only, keeping length and
   * order; a save whose id matches no record changes nothing; a save without a truthy id (so
   * an id of 0 too) puts one new record first and shifts the rest.
   */
  function Upsert(list: seq<Record>, body: Record, newId: int): (r: seq<Record>)
    ensures var id := Prop(body, "id"); var i := FindIndex(list, id);
      Truthy(id) && i != -1 ==>
        && |r| == |list|
        && r[i] == Merge(list[i], JObj(body))
        && (forall j :: 0 <= j < |list| && j != i ==> r[j] == list[j])
    ensures Truthy(Prop(body, "id")) && (forall j :: 0 <= j < |list| ==> !StrictEquals(Prop(list[j], "id"), Prop(body, "id")))
      ==> r == list
    ensures !Truthy(Prop(body, "id")) ==> |r| == |list| + 1 && r[0] == NewStaff(body, newId) && r[1..] == list
  {
    var id := Prop(body, "id");
    if Truthy(id) then
      var idx := FindIndex(list, id);
      if idx != -1 then list[idx := Merge(list[idx], JObj(body))] else list
    else [NewStaff(body, newId)] + list
  }

  // ---------------------------------------------------------------------------
  // Audit log

  datatype AuditEntry = AuditEntry(
    id: string,
    time: int,            // milliseconds since the epoch
    operator: string,
    action: string,
    target: string,
    ip: string,
    changes: Json)

  /** Each entry is at least as recent as every entry after it. */
  predicate NewestFirst(log: seq<AuditEntry>) {
    forall i, j :: 0 <= i < j < |log| ==> log[i].time >= log[j].time
  }

  /** `e` put in front of the first entry that is not more recent than it. */
  function Insert(e: AuditEntry, log: seq<AuditEntry>): (r: seq<AuditEntry>)
    ensures multiset(r) == multiset(log) + multiset{e}
  {
    if log == [] || e.time >= log[0].time then [e] + log
    else
      assert log == [log[0]] + log[1..];
      [log[0]] + Insert(e, log[1..])
  }

  /** Inserting into a log kept newest first keeps it newest first. */
  lemma {:induction false} InsertKeepsOrder(e: AuditEntry, log: seq<AuditEntry>)
    requires NewestFirst(log)
    ensures NewestFirst(Insert(e, log))
  {
    if log != [] && e.time < log[0].time {
      var rest := Insert(e, log[1..]);
      InsertKeepsOrder(e, log[1..]);
      forall x | x in rest
        ensures log[0].time >= x.time
      {
        assert x in multiset(rest);
        if x != e {
          assert x in multiset(log[1..]);
        }
      }
      PrependKeepsOrder(rest, log[0]);
    }
  }

  /** The log ordered newest first, as the seeded log is sorted once at start-up. */
  function SortNewestFirst(log: seq<AuditEntry>): (r: seq<AuditEntry>)
    ensures NewestFirst(r)
    ensures multiset(r) == multiset(log)
  {
    if log == [] then []
    else
      assert log == [log[0]] + log[1..];
      InsertKeepsOrder(log[0], SortNewestFirst(log[1..]));
      Insert(log[0], SortNewestFirst(log[1..]))
  }

  /** The entry a settings update writes: stamped now, by admin, on the global configuration, with the body as its changes. */
  function SettingsEntry(logId: string, now: int, body: Json): (e: AuditEntry)
    ensures e.id == logId && e.time == now && e.changes == body
    ensures e.operator == "admin" && e.action == "UPDATE_SETTINGS" && e.target == "Global Config" && e.ip == "127.0.0.1"
  {
    AuditEntry(logId, now, "admin", "UPDATE_SETTINGS", "Global Config", "127.0.0.1", body)
  }

  /** A log kept newest first stays so when an entry stamped no earlier than all of it is put in front. */
  lemma PrependKeepsOrder(log: seq<AuditEntry>, e: AuditEntry)
    requires NewestFirst(log)
    requires forall x :: x in log ==> x.time <= e.time
    ensures NewestFirst([e] + log)
  {
  }

  // ---------------------------------------------------------------------------
  // The tables

  const InitialSettings: Record :=
    map["maintenance_mode" := JBool(false),
        "admin_whitelist" := JArr([JStr("127.0.0.1"), JStr("192.168.1.100")])]

  /** The four seeded staff members, with their generated last-login texts. */
  function SeedStaff(lastLogins: seq<string>): (list: seq<Record>)
    requires |lastLogins| == 4
    ensures |list| == 4
    ensures forall i :: 0 <= i < 4 ==> Prop(list[i], "id") == JNum((i + 1) as real)
    ensures forall i :: 0 <= i < 4 ==> Prop(list[i], "last_login") == JStr(lastLogins[i])
  {
    [ StaffRecord(1, "admin", "Super Admin", lastLogins[0], "active"),
      StaffRecord(2, "tech_lead", "Tech Lead", lastLogins[1], "active"),
      StaffRecord(3, "finance_01", "Finance", lastLogins[2], "active"),
      StaffRecord(4, "support_team", "Support", lastLogins[3], "disabled") ]
  }

  function StaffRecord(id: int, account: string, role: string, lastLogin: string, status: string): Record {
    map["id" := JNum(id as real), "account" := JStr(account), "role" := JStr(role),
        "last_login" := JStr(lastLogin), "status" := JStr(status)]
  }

  class MockBackend {
    var staffList: seq<Record>
    var auditLogs: seq<AuditEntry>
    var globalSettings: Record

    /** The tables at start-up; `generated` are the 25 random log entries before sorting. */
    constructor(lastLogins: seq<string>, generated: seq<AuditEntry>)
      requires |lastLogins| == 4 && |generated| == 25
      ensures staffList == SeedStaff(lastLogins)
      ensures auditLogs == SortNewestFirst(generated)
      ensures NewestFirst(auditLogs) && multiset(auditLogs) == multiset(generated)
      ensures globalSettings == InitialSettings
    {
      staffList := SeedStaff(lastLogins);
      auditLogs := SortNewestFirst(generated);
      globalSettings := InitialSettings;
    }

    /** GET staff: the list and its length. */
    method ListStaff() returns (list: seq<Record>, total: nat)
      ensures list == staffList && total == |staffList|
    {
      list := staffList;
      total := |staffList|;
    }

    /** GET audit-logs: the log and its length. */
    method ListAuditLogs() returns (list: seq<AuditEntry>, total: nat)
      ensures list == auditLogs && total == |auditLogs|
    {
      list := auditLogs;
      total := |auditLogs|;
    }

    /** GET settings. */
    method GetSettings() returns (settings: Record)
      ensures settings == globalSettings
    {
      settings := globalSettings;
    }

    /**
     * POST staff with a parsed `body`; `newId` is the random id a new record gets.  A null
     * or undefined body makes reading `body.id` throw, so nothing is saved (`saved` false).
     */
    method SaveStaff(body: Json, newId: int) returns (saved: bool)
      modifies this
      ensures saved <==> !(body.JNull? || body.JUndefined?)
      ensures saved ==> staffList == Upsert(old(staffList), Spread(body), newId)
      ensures !saved ==> staffList == old(staffList)
      ensures auditLogs == old(auditLogs) && globalSettings == old(globalSettings)
    {
      if body.JNull? || body.JUndefined? {
        return false;
      }
      var fields := Spread(body);
      var id := Prop(fields, "id");
      if Truthy(id) {
        var idx := FindIndex(staffList, id);
        if idx != -1 {
          staffList := staffList[idx := Merge(staffList[idx], body)];
        }
      } else {
        staffList := [NewStaff(fields, newId)] + staffList;
      }
      return true;
    }

    /** POST settings with a parsed `body`, at time `now`; `logId` is the random id of the audit entry. */
    method UpdateSettings(body: Json, logId: string, now: int)
      modifies this
      ensures globalSettings == Merge(old(globalSettings), body)
      ensures auditLogs == [SettingsEntry(logId, now, body)] + old(auditLogs)
      ensures staffList == old(staffList)
      ensures NewestFirst(old(auditLogs)) && (forall x :: x in old(auditLogs) ==> x.time <= now)
              ==> NewestFirst(auditLogs)
    {
      if NewestFirst(auditLogs) && (forall x :: x in auditLogs ==> x.time <= now) {
        PrependKeepsOrder(auditLogs, SettingsEntry(logId, now, body));
      }
      globalSettings := Merge(globalSettings, body);
      auditLogs := [SettingsEntry(logId, now, body)] + auditLogs;
    }
  }
}
