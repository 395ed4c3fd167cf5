/**
 * The patient record store: the routes that load the data file, change the
 * table of rows keyed by patient identifier, and persist it again, first to
 * the file and then, in the background, to the database mirror.
 *
 * Each route is specified by a pure function over the table (Lookup,
 * Create, Update, Delete, SortEntries); the ApiClient class holds the file
 * and ties each route's new state to those functions.
 */
module Api {
  import opened Wrappers
  import opened Orm

  /** The data file's content: patient identifier to stored row. */
  type Table = map<string, Row>

  /** What reading the data file finds. */
  datatype FileState = Missing | Unreadable | Present(table: Table)

  datatype Detail = Message(text: string) | InvalidFields(fields: seq<FieldName>)

  /** An HTTP error status with its detail. */
  datatype ApiError = ApiError(status: int, detail: Detail)

  const DataFileNotFound := ApiError(404, Message("Data file not found"))
  const LoadFailed := ApiError(500, Message("Failed to load data"))
  const SaveFailed := ApiError(500, Message("Failed to save data"))
  const PatientNotFound := ApiError(404, Message("Patient not found"))
  const IdExists := ApiError(400, Message("Patient ID already exists"))
  const InvalidSortColumn :=
    ApiError(400, Message("Invalid sort column, select from ['height', 'weight', 'bmi', 'age']"))
  const InvalidOrder := ApiError(400, Message("Order must be 'asc' or 'desc'"))

  /** What a route answers: a success status with a body, or an error. */
  datatype Response<+T> = Ok(status: int, body: T) | Err(error: ApiError)

  /** The side effects of persisting, in the order they happen. */
  datatype Event = FileWritten(table: Table) | MirrorSubmitted(snapshot: Table)

  /** Loading the data file: a missing file is 404, any other failure 500. */
  function Load(f: FileState): (r: Result<Table, ApiError>)
    ensures r.Success? <==> f.Present?
    ensures r.Success? ==> r.value == f.table
    ensures f.Missing? ==> r == Failure(DataFileNotFound)
    ensures f.Unreadable? ==> r == Failure(LoadFailed)
  {
    match f
    case Missing => Failure(DataFileNotFound)
    case Unreadable => Failure(LoadFailed)
    case Present(t) => Success(t)
  }

  // ---------------------------------------------------------------------
  // The routes as functions on the table
  // ---------------------------------------------------------------------

  /** Every stored row has valid fields and up-to-date bmi and verdict. */
  predicate Consistent(t: Table) {
    forall id | id in t :: ValidRow(t[id])
  }

  function Lookup(t: Table, id: string): (r: Result<Row, ApiError>)
    ensures r.Success? <==> id in t
    ensures r.Success? ==> r.value == t[id]
    ensures r.Failure? ==> r.error == PatientNotFound
  {
    if id in t then Success(t[id]) else Failure(PatientNotFound)
  }

  /** Adds a new patient; an identifier already present is a conflict. */
  function Create(t: Table, p: Patient): (r: Result<Table, ApiError>)
    ensures r.Failure? <==> p.patientId in t
    ensures r.Failure? ==> r.error == IdExists
    ensures r.Success? ==> r.value.Keys == t.Keys + {p.patientId}
    ensures r.Success? ==> r.value[p.patientId] == Dump(p)
    ensures r.Success? ==> forall id | id in t :: r.value[id] == t[id]
  {
    if p.patientId in t then Failure(IdExists) else Success(t[p.patientId := Dump(p)])
  }

  /**
   * The stored fields of a row overlaid with the fields the patch sets,
   * with the identifier forced to the one the row is stored under.
   */
  function Merge(id: string, row: Row, u: PatientUpdate): (d: Draft)
    ensures d.patientId == id
    ensures Patched(d.name, Some(row.name), u.name) && Patched(d.city, Some(row.city), u.city)
    ensures Patched(d.age, Some(row.age), u.age) && Patched(d.gender, Some(row.gender), u.gender)
    ensures Patched(d.height, Some(row.height), u.height) && Patched(d.weight, Some(row.weight), u.weight)
  {
    var stored := Unpack(id, row);
    Draft(id, Overlay(stored.name, u.name), Overlay(stored.city, u.city), Overlay(stored.age, u.age),
          Overlay(stored.gender, u.gender), Overlay(stored.height, u.height), Overlay(stored.weight, u.weight))
  }

  /** Merges a patch into a stored patient, validates the result and replaces the row. */
  function Update(t: Table, id: string, u: PatientUpdate): (r: Result<(Table, Patient), ApiError>)
    ensures id !in t ==> r == Failure(PatientNotFound)
    ensures id in t ==> (r.Success? <==> FieldErrors(Merge(id, t[id], u)) == [])
    ensures id in t && r.Failure? ==> r.error == ApiError(400, InvalidFields(FieldErrors(Merge(id, t[id], u))))
    ensures id in t && !u.NoNulls() ==> r.Failure?
    ensures r.Success? ==> id in t && r.value.1.patientId == id
    ensures r.Success? ==> var (p, row) := (r.value.1, t[id]);
      && p.name == (if u.name.Given? then u.name.value else row.name)
      && p.city == (if u.city.Given? then u.city.value else row.city)
      && p.age == (if u.age.Given? then u.age.value else row.age)
      && p.gender == (if u.gender.Given? then u.gender.value else row.gender)
      && p.height == (if u.height.Given? then u.height.value else row.height)
      && p.weight == (if u.weight.Given? then u.weight.value else row.weight)
    ensures r.Success? ==> r.value.0.Keys == t.Keys && r.value.0[id] == Dump(r.value.1)
    ensures r.Success? ==> forall k | k in t && k != id :: r.value.0[k] == t[k]
  {
    if id !in t then Failure(PatientNotFound)
    else
      match Validate(Merge(id, t[id], u))
      case Failure(errors) => Failure(ApiError(400, InvalidFields(errors)))
      case Success(p) => Success((t[id := Dump(p)], p))
  }

  /** Removes a patient; an absent identifier is not found. */
  function Delete(t: Table, id: string): (r: Result<Table, ApiError>)
    ensures r.Success? <==> id in t
    ensures r.Failure? ==> r.error == PatientNotFound
    ensures r.Success? ==> r.value.Keys == t.Keys - {id}
    ensures r.Success? ==> forall k | k in r.value :: r.value[k] == t[k]
  {
    if id in t then Success(t - {id}) else Failure(PatientNotFound)
  }

  // ---------------------------------------------------------------------
  // Properties of the table operations
  // ---------------------------------------------------------------------

  /** No route leaves a row with stale or invalid fields. */
  lemma RoutesKeepConsistency(t: Table, p: Patient, id: string, u: PatientUpdate)
    requires Consistent(t)
    ensures Create(t, p).Success? ==> Consistent(Create(t, p).value)
    ensures Update(t, id, u).Success? ==> Consistent(Update(t, id, u).value.0)
    ensures Delete(t, id).Success? ==> Consistent(Delete(t, id).value)
  {
  }

  /** A created patient is found again, and a second create of its identifier conflicts. */
  lemma CreateThenGet(t: Table, p: Patient, q: Patient)
    requires p.patientId !in t
    requires q.patientId == p.patientId
    ensures Lookup(Create(t, p).value, p.patientId) == Success(Dump(p))
    ensures Create(Create(t, p).value, q) == Failure(IdExists)
  {
  }

  /** A deleted patient is not found any more. */
  lemma DeleteThenGet(t: Table, id: string)
    requires Delete(t, id).Success?
    ensures Lookup(Delete(t, id).value, id) == Failure(PatientNotFound)
  {
  }

  /** A stored row that is valid accepts every patch that sends no null. */
  lemma UpdateOfValidRowSucceeds(t: Table, id: string, u: PatientUpdate)
    requires id in t && ValidRow(t[id])
    requires u.NoNulls()
    ensures Update(t, id, u).Success?
  {
    var row := t[id];
    var d := Merge(id, row, u);
    assert AgeOk(d.age) && GenderOk(d.gender) && PositiveOk(d.height) && PositiveOk(d.weight);
  }

  /** Age 30, height 1.75 and weight 70 patched to weight 80 is bmi 26.12, Overweight. */
  lemma UpdateExample()
    ensures var row := Row("John Doe", "New York", 30, "male", 1.75, 70.0, 2286, "Normal");
            var u := UpdateData(Unset, Unset, Unset, Unset, Unset, Given(80.0));
            var r := Update(map["P001" := row], "P001", u);
            && r.Success?
            && r.value.1 == PatientData("P001", "John Doe", "New York", 30, "male", 1.75, 80.0)
            && r.value.0["P001"].bmi == 2612
            && r.value.0["P001"].verdict == "Overweight"
  {
    var x := 100.0 * 80.0 / (1.75 * 1.75);
    assert 2611.5 <= x < 2612.5;
    RoundIsNearest(x, 2612);
  }

  // ---------------------------------------------------------------------
  // Sorting
  // ---------------------------------------------------------------------

  /** One row of a listing, with its identifier. */
  datatype Entry = Entry(id: string, row: Row)

  /** The columns a listing can be sorted by. */
  datatype SortField = ByHeight | ByWeight | ByBmi | ByAge

  function ParseSortField(name: string): (f: Option<SortField>)
    ensures f.Some? <==> name in ["height", "weight", "bmi", "age"]
    ensures f == Some(ByHeight) <==> name == "height"
    ensures f == Some(ByWeight) <==> name == "weight"
    ensures f == Some(ByBmi) <==> name == "bmi"
    ensures f == Some(ByAge) <==> name == "age"
  {
    if name == "height" then Some(ByHeight)
    else if name == "weight" then Some(ByWeight)
    else if name == "bmi" then Some(ByBmi)
    else if name == "age" then Some(ByAge)
    else None
  }

  predicate ValidOrder(order: string) {
    order == "asc" || order == "desc"
  }

  /** The value of a row in a sort column. */
  function Key(row: Row, f: SortField): real
  {
    match f
    case ByHeight => row.height
    case ByWeight => row.weight
    case ByBmi => row.bmi as real / 100.0
    case ByAge => row.age as real
  }

  /** Non-decreasing in the column when ascending, non-increasing otherwise. */
  predicate SortedBy(s: seq<Entry>, f: SortField, ascending: bool) {
    forall i, j | 0 <= i < j < |s| ::
      if ascending then Key(s[i].row, f) <= Key(s[j].row, f) else Key(s[i].row, f) >= Key(s[j].row, f)
  }

  /** The table's entries, each exactly once. */
  function Items(t: Table): set<Entry>
  {
    set id | id in t :: Entry(id, t[id])
  }

  /** The listing holds every entry of the table exactly once and nothing else. */
  predicate Lists(s: seq<Entry>, t: Table) {
    multiset(s) == multiset(Items(t))
  }

  /** A listing has the table's rows under their own identifiers, every identifier once. */
  lemma ListingFacts(s: seq<Entry>, t: Table)
    requires Lists(s, t)
    ensures forall i | 0 <= i < |s| :: s[i].id in t && s[i].row == t[s[i].id]
    ensures forall id | id in t :: exists i :: 0 <= i < |s| && s[i].id == id
    ensures forall i, j | 0 <= i < j < |s| :: s[i].id != s[j].id
  {
    forall i | 0 <= i < |s| ensures s[i].id in t && s[i].row == t[s[i].id] {
      assert s[i] in multiset(s);
    }
    forall id | id in t ensures exists i :: 0 <= i < |s| && s[i].id == id {
      assert Entry(id, t[id]) in Items(t);
      assert Entry(id, t[id]) in multiset(s);
      var i :| 0 <= i < |s| && s[i] == Entry(id, t[id]);
    }
    forall i, j | 0 <= i < j < |s| ensures s[i].id != s[j].id {
      RepeatCountsTwice(s, i, j);
      assert multiset(Items(t))[s[i]] <= 1;
    }
  }

  /** Two equal positions make an element occur at least twice. */
  lemma RepeatCountsTwice(s: seq<Entry>, i: int, j: int)
    requires 0 <= i < j < |s|
    ensures s[i] == s[j] ==> multiset(s)[s[i]] >= 2
  {
    assert s == s[..j] + s[j..];
    assert s[i] in multiset(s[..j]) && s[j] in multiset(s[j..]);
  }

  /** Lists the table's entries, in an order the model leaves open. */
  method TableEntries(t: Table) returns (s: seq<Entry>)
    ensures Lists(s, t)
  {
    s := [];
    var rest := t;
    while rest.Keys != {}
      invariant multiset(s) + multiset(Items(rest)) == multiset(Items(t))
      decreases rest.Keys
    {
      var id :| id in rest;
      var e := Entry(id, rest[id]);
      var after := rest - {id};
      forall x ensures x in Items(rest) <==> x in Items(after) + {e} {
        if x in Items(rest) && x != e {
          assert x.id in after;
        }
      }
      assert Items(rest) == Items(after) + {e};
      assert e !in Items(after);
      s := s + [e];
      rest := after;
    }
    assert Items(rest) == {};
  }

  /** The position of an entry in the sort: the key, negated for descending order. */
  function Rank(e: Entry, f: SortField, ascending: bool): real
  {
    if ascending then Key(e.row, f) else -Key(e.row, f)
  }

  /** The insertion sort's own form of the order, on ranks; `SortedBy` is what a listing promises. */
  predicate Ordered(s: seq<Entry>, f: SortField, ascending: bool) {
    forall i, j | 0 <= i < j < |s| :: Rank(s[i], f, ascending) <= Rank(s[j], f, ascending)
  }

  /** Places an entry before the first one that does not rank below it. */
  function Insert(e: Entry, s: seq<Entry>, f: SortField, ascending: bool): (r: seq<Entry>)
    ensures |r| == |s| + 1
    ensures e in r && forall x | x in s :: x in r
  {
    if s == [] || Rank(e, f, ascending) <= Rank(s[0], f, ascending) then [e] + s
    else [s[0]] + Insert(e, s[1..], f, ascending)
  }

  /** Sorts entries by a column; ties are left in no particular promised order. */
  function SortEntries(s: seq<Entry>, f: SortField, ascending: bool): (r: seq<Entry>)
    ensures |r| == |s|
    ensures forall x | x in s :: x in r
  {
    if s == [] then [] else Insert(s[0], SortEntries(s[1..], f, ascending), f, ascending)
  }

  lemma {:induction false} InsertPermutes(e: Entry, s: seq<Entry>, f: SortField, ascending: bool)
    ensures multiset(Insert(e, s, f, ascending)) == multiset(s) + multiset{e}
  {
    if s == [] || Rank(e, f, ascending) <= Rank(s[0], f, ascending) {
    } else {
      InsertPermutes(e, s[1..], f, ascending);
      assert s == [s[0]] + s[1..];
    }
  }

  lemma {:induction false} InsertKeepsOrder(e: Entry, s: seq<Entry>, f: SortField, ascending: bool)
    requires Ordered(s, f, ascending)
    ensures Ordered(Insert(e, s, f, ascending), f, ascending)
  {
    if s == [] || Rank(e, f, ascending) <= Rank(s[0], f, ascending) {
    } else {
      var tail := Insert(e, s[1..], f, ascending);
      InsertKeepsOrder(e, s[1..], f, ascending);
      InsertPermutes(e, s[1..], f, ascending);
      forall k | 0 <= k < |tail| ensures Rank(s[0], f, ascending) <= Rank(tail[k], f, ascending) {
        assert tail[k] in multiset(tail);
        if tail[k] != e {
          assert tail[k] in multiset(s[1..]);
          var m :| 0 <= m < |s[1..]| && s[1..][m] == tail[k];
          assert s[m + 1] == tail[k];
        }
      }
      assert Insert(e, s, f, ascending) == [s[0]] + tail;
    }
  }

  lemma {:induction false} SortPermutes(s: seq<Entry>, f: SortField, ascending: bool)
    ensures multiset(SortEntries(s, f, ascending)) == multiset(s)
  {
    if s != [] {
      SortPermutes(s[1..], f, ascending);
      InsertPermutes(s[0], SortEntries(s[1..], f, ascending), f, ascending);
      assert s == [s[0]] + s[1..];
    }
  }

  lemma {:induction false} SortOrders(s: seq<Entry>, f: SortField, ascending: bool)
    ensures Ordered(SortEntries(s, f, ascending), f, ascending)
    ensures SortedBy(SortEntries(s, f, ascending), f, ascending)
  {
    if s != [] {
      SortOrders(s[1..], f, ascending);
      InsertKeepsOrder(s[0], SortEntries(s[1..], f, ascending), f, ascending);
    }
    var r := SortEntries(s, f, ascending);
    forall i, j | 0 <= i < j < |r|
      ensures if ascending then Key(r[i].row, f) <= Key(r[j].row, f) else Key(r[i].row, f) >= Key(r[j].row, f)
    {
      assert Rank(r[i], f, ascending) <= Rank(r[j], f, ascending);
    }
  }

  // ---------------------------------------------------------------------
  // The client: the data file and the routes over it
  // ---------------------------------------------------------------------

  class ApiClient {
    /** The data file as the next load will find it. */
    var file: FileState
    /** Whether writing the data file succeeds. */
    var writable: bool
    /** File writes and mirror submissions, in the order they happen. */
    ghost var events: seq<Event>

    constructor (file: FileState, writable: bool)
      ensures this.file == file && this.writable == writable && events == []
    {
      this.file := file;
      this.writable := writable;
      events := [];
    }

    /** Overwrites the whole data file; an unwritable file is 500 and leaves it as it was. */
    method SaveDataToJson(t: Table) returns (err: Option<ApiError>)
      modifies this`file, this`events
      ensures writable ==> err == None && file == Present(t) && events == old(events) + [FileWritten(t)]
      ensures !writable ==> err == Some(SaveFailed) && file == old(file) && events == old(events)
    {
      if !writable {
        return Some(SaveFailed);
      }
      file := Present(t);
      events := events + [FileWritten(t)];
      return None;
    }

    /** Hands a snapshot to the background mirror writer; its outcome is never awaited. */
    method SaveDataToDb(t: Table)
      modifies this`events
      ensures events == old(events) + [MirrorSubmitted(t)]
    {
      events := events + [MirrorSubmitted(t)];
    }

    /** Writes the file, and only once that succeeded submits the mirror write. */
    method Persist(t: Table) returns (err: Option<ApiError>)
      modifies this`file, this`events
      ensures writable ==> err == None && file == Present(t)
                           && events == old(events) + [FileWritten(t), MirrorSubmitted(t)]
      ensures !writable ==> err == Some(SaveFailed) && file == old(file) && events == old(events)
    {
      err := SaveDataToJson(t);
      if err.None? {
        SaveDataToDb(t);
      }
    }

    /** The whole table. */
    function GetPatientsData(): (r: Response<Table>)
      reads this
      ensures r.Ok? <==> file.Present?
      ensures r.Ok? ==> r == Ok(200, file.table)
      ensures r.Err? ==> r.error == Load(file).error
    {
      match Load(file)
      case Failure(e) => Err(e)
      case Success(t) => Ok(200, t)
    }

    /** The stored row of one patient. */
    function GetPatientsById(id: string): (r: Response<Row>)
      reads this
      ensures r.Ok? <==> file.Present? && id in file.table
      ensures r.Ok? ==> r == Ok(200, file.table[id])
      ensures file.Present? && id !in file.table ==> r == Err(PatientNotFound)
      ensures !file.Present? ==> r == Err(Load(file).error)
    {
      match Load(file)
      case Failure(e) => Err(e)
      case Success(t) =>
        match Lookup(t, id)
        case Failure(e) => Err(e)
        case Success(row) => Ok(200, row)
    }

    /** The table as a listing sorted by a column; the arguments are checked before loading. */
    method SortPatients(sortBy: string, order: string) returns (r: Response<seq<Entry>>)
      ensures ParseSortField(sortBy).None? ==> r == Err(InvalidSortColumn)
      ensures ParseSortField(sortBy).Some? && !ValidOrder(order) ==> r == Err(InvalidOrder)
      ensures ParseSortField(sortBy).Some? && ValidOrder(order) && !file.Present? ==> r == Err(Load(file).error)
      ensures r.Ok? <==> ParseSortField(sortBy).Some? && ValidOrder(order) && file.Present?
      ensures r.Ok? ==> r.status == 200 && Lists(r.body, file.table)
                        && SortedBy(r.body, ParseSortField(sortBy).value, order == "asc")
    {
      var field := ParseSortField(sortBy);
      if field.None? {
        return Err(InvalidSortColumn);
      }
      if !ValidOrder(order) {
        return Err(InvalidOrder);
      }
      var loaded := Load(file);
      if loaded.Failure? {
        return Err(loaded.error);
      }
      var ascending := order == "asc";
      var rows := TableEntries(loaded.value);
      var sorted := SortEntries(rows, field.value, ascending);
      SortPermutes(rows, field.value, ascending);
      SortOrders(rows, field.value, ascending);
      return Ok(200, sorted);
    }

    /** Adds a patient and persists the table; nothing is written on any failure. */
    method CreatePatient(p: Patient) returns (r: Response<Patient>)
      modifies this`file, this`events
      ensures r.Err? ==> file == old(file) && events == old(events)
      ensures !old(file).Present? ==> r == Err(Load(old(file)).error)
      ensures old(file).Present? ==>
        var c := Create(old(file).table, p);
        && (c.Failure? ==> r == Err(c.error))
        && (c.Success? && writable ==>
              r == Ok(201, p) && file == Present(c.value)
              && events == old(events) + [FileWritten(c.value), MirrorSubmitted(c.value)])
        && (c.Success? && !writable ==> r == Err(SaveFailed))
      ensures r.Ok? ==> GetPatientsById(p.patientId) == Ok(200, Dump(p))
    {
      var loaded := Load(file);
      if loaded.Failure? {
        return Err(loaded.error);
      }
      var created := Create(loaded.value, p);
      if created.Failure? {
        return Err(created.error);
      }
      var err := Persist(created.value);
      if err.Some? {
        return Err(err.value);
      }
      return Ok(201, p);
    }

    /** Merges a patch into a patient and persists the table; nothing is written on any failure. */
    method UpdatePatient(id: string, u: PatientUpdate) returns (r: Response<Patient>)
      modifies this`file, this`events
      ensures r.Err? ==> file == old(file) && events == old(events)
      ensures !old(file).Present? ==> r == Err(Load(old(file)).error)
      ensures old(file).Present? ==>
        var c := Update(old(file).table, id, u);
        && (c.Failure? ==> r == Err(c.error))
        && (c.Success? && writable ==>
              r == Ok(200, c.value.1) && file == Present(c.value.0)
              && events == old(events) + [FileWritten(c.value.0), MirrorSubmitted(c.value.0)])
        && (c.Success? && !writable ==> r == Err(SaveFailed))
      ensures r.Ok? ==> r.body.patientId == id && GetPatientsById(id) == Ok(200, Dump(r.body))
    {
      var loaded := Load(file);
      if loaded.Failure? {
        return Err(loaded.error);
      }
      var updated := Update(loaded.value, id, u);
      if updated.Failure? {
        return Err(updated.error);
      }
      var err := Persist(updated.value.0);
      if err.Some? {
        return Err(err.value);
      }
      return Ok(200, updated.value.1);
    }

    /** Removes a patient and persists the table; nothing is written on any failure. */
    method DeletePatient(id: string) returns (r: Response<string>)
      modifies this`file, this`events
      ensures r.Err? ==> file == old(file) && events == old(events)
      ensures !old(file).Present? ==> r == Err(Load(old(file)).error)
      ensures old(file).Present? ==>
        var c := Delete(old(file).table, id);
        && (c.Failure? ==> r == Err(c.error))
        && (c.Success? && writable ==>
              r == Ok(200, id) && file == Present(c.value)
              && events == old(events) + [FileWritten(c.value), MirrorSubmitted(c.value)])
        && (c.Success? && !writable ==> r == Err(SaveFailed))
      ensures r.Ok? ==> GetPatientsById(id) == Err(PatientNotFound)
    {
      var loaded := Load(file);
      if loaded.Failure? {
        return Err(loaded.error);
      }
      var deleted := Delete(loaded.value, id);
      if deleted.Failure? {
        return Err(deleted.error);
      }
      var err := Persist(deleted.value);
      if err.Some? {
        return Err(err.value);
      }
      return Ok(200, id);
    }
  }
}
