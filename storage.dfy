/**
 * The in-memory store: two tables keyed by id and two id counters. Entries
 * and admins are only ever added; the counters only grow.
 */
module Storage {
  import opened Wrappers
  import opened Text
  import opened Sequences
  import opened Time
  import opened Schema

  /** The stored record for a payload: the given id, the default timestamp and driver flag. */
  function BuildEntry(p: InsertTimeEntry, id: int, now: int): (e: TimeEntry)
    ensures e.id == id
    ensures e.name == p.name && e.entryType == p.entryType
    ensures e.latitude == p.latitude && e.longitude == p.longitude
    ensures p.timestamp.None? ==> e.timestamp == now
    ensures p.timestamp.Some? ==> e.timestamp == p.timestamp.value
    ensures p.isDriver.None? ==> !e.isDriver
    ensures p.isDriver.Some? ==> e.isDriver == p.isDriver.value
  {
    TimeEntry(id, p.name, p.entryType, p.timestamp.GetOr(now), p.latitude, p.longitude, p.isDriver.GetOr(false))
  }

  /** The name filter of the queries: case-insensitive substring match. */
  predicate NameMatches(e: TimeEntry, name: string) {
    ContainsIgnoringCase(e.name, name)
  }

  /** The selection of `getTimeEntriesByName`. */
  function NameQuery(name: string): TimeEntry -> bool {
    (e: TimeEntry) => NameMatches(e, name)
  }

  /** The selection of `getTimeEntriesByDate`. */
  function DayQuery(date: JsDate): TimeEntry -> bool {
    (e: TimeEntry) => InClosedDay(e.timestamp, date)
  }

  /** The selection of `getTimeEntriesByNameAndDate`. */
  function NameAndDayQuery(name: string, date: JsDate): TimeEntry -> bool {
    (e: TimeEntry) => NameMatches(e, name) && InClosedDay(e.timestamp, date)
  }

  /** The values of a map keyed 1..n, in key order (the order in which they were inserted). */
  function ValuesInKeyOrder<V>(m: map<int, V>, n: nat): (r: seq<V>)
    requires forall k :: 1 <= k <= n ==> k in m
    ensures |r| == n
    ensures forall i :: 0 <= i < n ==> r[i] == m[i + 1]
  {
    if n == 0 then [] else ValuesInKeyOrder(m, n - 1) + [m[n]]
  }

  /** When the keys are exactly 1..n, listing them in order lists every value. */
  lemma ValuesInKeyOrderAreValues<V>(m: map<int, V>, n: nat)
    requires forall k :: k in m <==> 1 <= k <= n
    ensures forall v :: v in ValuesInKeyOrder(m, n) <==> v in m.Values
  {
    var r := ValuesInKeyOrder(m, n);
    forall k | k in m ensures m[k] in r {
      assert r[k - 1] == m[k];
    }
  }

  class MemStorage {
    var timeEntries: map<int, TimeEntry>
    var admins: map<int, Admin>
    var timeEntryId: int
    var adminId: int

    /** Keys are exactly 1 .. counter - 1, and every record carries its own key as id. */
    ghost predicate Valid()
      reads this
    {
      && 1 <= timeEntryId && 1 <= adminId
      && (forall k :: k in timeEntries <==> 1 <= k < timeEntryId)
      && (forall k :: k in timeEntries ==> timeEntries[k].id == k)
      && (forall k :: k in admins <==> 1 <= k < adminId)
      && (forall k :: k in admins ==> admins[k].id == k)
    }

    /** A fresh store holds no entries and the default admin `admin`/`admin123` under id 1. */
    constructor ()
      ensures Valid()
      ensures timeEntries == map[] && timeEntryId == 1
      ensures admins == map[1 := Admin(1, "admin", "admin123")] && adminId == 2
      ensures ValidateAdmin("admin", "admin123")
      ensures forall p :: p != "admin123" ==> !ValidateAdmin("admin", p)
    {
      timeEntries := map[];
      admins := map[];
      timeEntryId := 1;
      adminId := 1;
      new;
      var _ := CreateAdmin(InsertAdmin("admin", "admin123"));
      assert AdminList()[0] == Admin(1, "admin", "admin123");
    }

    /** `Array.from(this.timeEntries.values())`: every entry, oldest first. */
    function GetAllTimeEntries(): (r: seq<TimeEntry>)
      reads this
      requires Valid()
      ensures |r| == timeEntryId - 1
      ensures forall i :: 0 <= i < |r| ==> r[i] == timeEntries[i + 1] && r[i].id == i + 1
      ensures forall e :: e in r <==> e in timeEntries.Values
    {
      ValuesInKeyOrderAreValues(timeEntries, timeEntryId - 1);
      ValuesInKeyOrder(timeEntries, timeEntryId - 1)
    }

    /** Entries whose lower-cased name contains the lower-cased `name`. */
    function GetTimeEntriesByName(name: string): (r: seq<TimeEntry>)
      reads this
      requires Valid()
      ensures forall e :: e in r <==> e in timeEntries.Values && NameMatches(e, name)
      ensures IsSubsequence(r, GetAllTimeEntries())
    {
      var all := GetAllTimeEntries();
      FilterIsSubsequence(all, NameQuery(name));
      Filter(all, NameQuery(name))
    }

    /** An empty name is contained in every name, so the name query then lists every entry. */
    lemma EmptyNameSelectsAll()
      requires Valid()
      ensures GetTimeEntriesByName("") == GetAllTimeEntries()
    {
      var all := GetAllTimeEntries();
      forall e | e in all
        ensures NameQuery("")(e)
      {
        ContainsEmptyAndSelf(Lower(e.name));
      }
      FilterKeepsAll(all, NameQuery(""));
    }

    /** Entries from the first to the last millisecond of `date`'s day, both included. */
    function GetTimeEntriesByDate(date: JsDate): (r: seq<TimeEntry>)
      reads this
      requires Valid()
      ensures forall e :: e in r <==> e in timeEntries.Values && InClosedDay(e.timestamp, date)
      ensures IsSubsequence(r, GetAllTimeEntries())
    {
      var all := GetAllTimeEntries();
      FilterIsSubsequence(all, DayQuery(date));
      Filter(all, DayQuery(date))
    }

    /** Entries satisfying both the name and the day condition. */
    function GetTimeEntriesByNameAndDate(name: string, date: JsDate): (r: seq<TimeEntry>)
      reads this
      requires Valid()
      ensures forall e :: e in r <==> e in timeEntries.Values && NameMatches(e, name) && InClosedDay(e.timestamp, date)
      ensures IsSubsequence(r, GetAllTimeEntries())
    {
      var all := GetAllTimeEntries();
      FilterIsSubsequence(all, NameAndDayQuery(name, date));
      Filter(all, NameAndDayQuery(name, date))
    }

    /** `Array.from(this.admins.values())`, oldest first. */
    function AdminList(): (r: seq<Admin>)
      reads this
      requires Valid()
      ensures |r| == adminId - 1
      ensures forall i :: 0 <= i < |r| ==> r[i] == admins[i + 1]
    {
      ValuesInKeyOrder(admins, adminId - 1)
    }

    /** True exactly when a stored admin has this username and this password. */
    function ValidateAdmin(username: string, password: string): (r: bool)
      reads this
      requires Valid()
      ensures r <==> exists k :: k in admins && admins[k].username == username && admins[k].password == password
    {
      var list := AdminList();
      var found := Find(list, (a: Admin) => a.username == username && a.password == password);
      assert found.Some? ==> exists k :: k in admins && admins[k].username == username && admins[k].password == password by {
        if found.Some? {
          var i :| 0 <= i < |list| && list[i].username == username && list[i].password == password;
          assert admins[i + 1] == list[i];
        }
      }
      assert (exists k :: k in admins && admins[k].username == username && admins[k].password == password) ==> found.Some? by {
        if exists k :: k in admins && admins[k].username == username && admins[k].password == password {
          var k :| k in admins && admins[k].username == username && admins[k].password == password;
          assert list[k - 1] == admins[k];
        }
      }
      found.Some?
    }

    /**
     * Stores the payload under the next id with its defaults filled in,
     * returns the stored record, and changes nothing else.
     */
    method CreateTimeEntry(insertEntry: InsertTimeEntry, now: int) returns (entry: TimeEntry)
      requires Valid()
      modifies this
      ensures Valid()
      ensures entry == BuildEntry(insertEntry, old(timeEntryId), now)
      ensures old(timeEntryId) !in old(timeEntries)
      ensures forall k :: k in old(timeEntries) ==> k < entry.id
      ensures timeEntries == old(timeEntries)[entry.id := entry]
      ensures timeEntryId == old(timeEntryId) + 1
      ensures GetAllTimeEntries() == old(GetAllTimeEntries()) + [entry]
      ensures admins == old(admins) && adminId == old(adminId)
    {
      var id := timeEntryId;
      timeEntryId := timeEntryId + 1;
      entry := BuildEntry(insertEntry, id, now);
      timeEntries := timeEntries[id := entry];
    }

    /** Stores the admin under the next id; usernames are not checked for uniqueness here. */
    method CreateAdmin(insertAdmin: InsertAdmin) returns (admin: Admin)
      requires Valid()
      modifies this
      ensures Valid()
      ensures admin == Admin(old(adminId), insertAdmin.username, insertAdmin.password)
      ensures old(adminId) !in old(admins)
      ensures admins == old(admins)[admin.id := admin]
      ensures adminId == old(adminId) + 1
      ensures timeEntries == old(timeEntries) && timeEntryId == old(timeEntryId)
    {
      var id := adminId;
      adminId := adminId + 1;
      admin := Admin(id, insertAdmin.username, insertAdmin.password);
      admins := admins[id := admin];
    }
  }

  /**
   * The in-memory store does not enforce unique usernames: a second `admin`
   * is stored, and both passwords are then accepted.
   */
  method DuplicateUsernameAccepted() returns (defaultAccepted: bool, secondAccepted: bool, admins: nat)
    ensures defaultAccepted && secondAccepted && admins == 2
  {
    var store := new MemStorage();
    var _ := store.CreateAdmin(InsertAdmin("admin", "geheim"));
    defaultAccepted := store.ValidateAdmin("admin", "admin123");
    secondAccepted := store.ValidateAdmin("admin", "geheim");
    admins := store.adminId - 1;
  }

  /**
   * Two entries for "Anna" on 2024-01-01 and one for "Bob" on 2024-01-02:
   * asking for "anna" on 2024-01-01 returns exactly the two Anna entries.
   */
  method AnnaOnNewYear() returns (r: seq<TimeEntry>, first: TimeEntry, second: TimeEntry)
    ensures r == [first, second]
    ensures first.name == "Anna" && second.name == "Anna"
    ensures first.id == 1 && second.id == 2 && !first.isDriver && !second.isDriver
  {
    var newYear := 19_723 * DayMs;  // 2024-01-01T00:00:00.000
    var store := new MemStorage();
    first := store.CreateTimeEntry(InsertTimeEntry("Anna", "Einstempeln", Some(newYear + 28_800_000), 52.5, 13.4, None), 0);
    second := store.CreateTimeEntry(InsertTimeEntry("Anna", "Ausstempeln", Some(newYear + 57_600_000), 52.5, 13.4, None), 0);
    var bob := store.CreateTimeEntry(InsertTimeEntry("Bob", "Einstempeln", Some(newYear + DayMs + 28_800_000), 52.5, 13.4, None), 0);
    var day := Date(newYear + 43_200_000);
    r := store.GetTimeEntriesByNameAndDate("anna", day);
    var all := store.GetAllTimeEntries();
    assert all == [first, second, bob];
    AnnaSelected(first, second, bob, day);
  }

  lemma AnnaSelected(first: TimeEntry, second: TimeEntry, bob: TimeEntry, day: JsDate)
    requires first.name == "Anna" && second.name == "Anna" && bob.name == "Bob"
    requires day == Date(19_723 * DayMs + 43_200_000)
    requires first.timestamp == 19_723 * DayMs + 28_800_000
    requires second.timestamp == 19_723 * DayMs + 57_600_000
    ensures Filter([first, second, bob], NameAndDayQuery("anna", day)) == [first, second]
  {
    var q := NameAndDayQuery("anna", day);
    assert q(first) && q(second) by {
      assert Lower("Anna") == "anna";
      ContainsEmptyAndSelf("anna");
      DayStartOfOffset(19_723, 43_200_000);
    }
    assert !q(bob) by {
      assert Lower("Bob") == "bob";
      assert !Contains("bob", "anna");
    }
    assert Filter([bob], q) == [];
    assert Filter([second, bob], q) == [second];
    assert [first, second, bob][1..] == [second, bob];
  }
}
