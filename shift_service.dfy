/** `ShiftService` (backend/src/services/shift.service.ts) over an in-memory copy of its two
    tables: the `shift` rows and the `shift_dates` rows (entities/shift-date.entity.ts). */
module ShiftService {
  import opened Wrappers
  import opened Domain
  import Seqs
  import ShiftDateDto
  import ShiftDto

  type ShiftDateEntry = ShiftDateDto.ShiftDateEntry

  /** The columns of a `shift` row that the service writes. */
  datatype ShiftInfo = ShiftInfo(title: string, description: Option<string>)

  /** A `shift_dates` row. */
  datatype ShiftDateRow = ShiftDateRow(
    id: Id, shiftId: Id, date: CalendarDate, startTime: Minutes, endTime: Minutes,
    price: Cents, shiftType: ShiftType)

  /** A shift loaded with its `dates` relation. */
  datatype ShiftView = ShiftView(id: Id, title: string, description: Option<string>, dates: seq<ShiftDateRow>)

  datatype PriceBounds = PriceBounds(min: Cents, max: Cents)

  /** The description column a new shift gets: the text when one is sent, otherwise `NULL`. */
  function CreatedDescription(d: ShiftDto.DescriptionField): Option<string>
  {
    if d.Text? then Some(d.text) else None
  }

  /** The description column after `Object.assign(shift, dto)`: a member that was left out keeps
      the stored value, a member sent as `null` overwrites it with `NULL`. */
  function AssignedDescription(stored: Option<string>, d: ShiftDto.DescriptionField): Option<string>
  {
    if d.Absent? then stored else CreatedDescription(d)
  }

  /** `EntityNotFoundError` from `findOneOrFail`, and the `BadRequestException` for an overlap. */
  datatype ServiceError = NotFound(id: Id) | TimeOverlap(date: CalendarDate, shiftType: ShiftType)

  /** The text of the `BadRequestException`. */
  function OverlapMessage(date: CalendarDate, t: ShiftType): string
  {
    "Time overlap detected for date " + ShiftDateDto.FormatDate(date) + " and type " + TypeName(t)
  }

  /** The message quotes the date and type exactly as they were submitted. */
  lemma OverlapMessageQuotesRequest(dto: ShiftDateDto.CreateShiftDateDto)
    requires ShiftDateDto.IsValid(dto)
    ensures var e := ShiftDateDto.Parse(dto).value;
            OverlapMessage(e.date, e.shiftType) ==
              "Time overlap detected for date " + dto.date + " and type " + dto.shiftType
  {
  }

  // ---------------------------------------------------------------------------
  // checkTimeOverlap

  /** The WHERE clause of the overlap query: same date, same type, closed intervals that meet,
      and, when an id to exclude is given, a different owning shift. */
  predicate Matches(row: ShiftDateRow, date: CalendarDate, startTime: Minutes, endTime: Minutes,
                    t: ShiftType, exclude: Option<Id>)
  {
    row.date == date && row.shiftType == t &&
    row.startTime <= endTime && row.endTime >= startTime &&
    (exclude.Some? ==> row.shiftId != exclude.value)
  }

  /** `query.getCount()`. */
  function CountMatching(rows: seq<ShiftDateRow>, date: CalendarDate, startTime: Minutes, endTime: Minutes,
                         t: ShiftType, exclude: Option<Id>): (n: nat)
    ensures n <= |rows|
    ensures n > 0 <==> exists i :: 0 <= i < |rows| && Matches(rows[i], date, startTime, endTime, t, exclude)
  {
    if rows == [] then 0
    else
      var rest := CountMatching(rows[1..], date, startTime, endTime, t, exclude);
      assert forall i :: 1 <= i < |rows| ==> rows[i] == rows[1..][i - 1];
      rest + if Matches(rows[0], date, startTime, endTime, t, exclude) then 1 else 0
  }

  /** `checkTimeOverlap`: true iff some stored row matches the query. */
  function CheckTimeOverlap(rows: seq<ShiftDateRow>, date: CalendarDate, startTime: Minutes, endTime: Minutes,
                            t: ShiftType, exclude: Option<Id>): (r: bool)
    ensures r <==> exists i :: 0 <= i < |rows| && Matches(rows[i], date, startTime, endTime, t, exclude)
  {
    CountMatching(rows, date, startTime, endTime, t, exclude) > 0
  }

  /** The check as the create and update loops call it for one submitted entry. */
  predicate EntryConflicts(rows: seq<ShiftDateRow>, e: ShiftDateEntry, exclude: Option<Id>)
  {
    CheckTimeOverlap(rows, e.date, e.startTime, e.endTime, e.shiftType, exclude)
  }

  /** The rows with the date and type of the query; the only rows the query can match. */
  function SameSlot(rows: seq<ShiftDateRow>, date: CalendarDate, t: ShiftType): seq<ShiftDateRow>
  {
    Seqs.Filter((row: ShiftDateRow) => row.date == date && row.shiftType == t, rows)
  }

  /** Rows of other dates or other types never make a difference to the answer. */
  lemma {:induction false} OtherSlotsNeverConflict(rows: seq<ShiftDateRow>, date: CalendarDate, startTime: Minutes,
                                                endTime: Minutes, t: ShiftType, exclude: Option<Id>)
    ensures CheckTimeOverlap(rows, date, startTime, endTime, t, exclude) ==
            CheckTimeOverlap(SameSlot(rows, date, t), date, startTime, endTime, t, exclude)
  {
    var same := SameSlot(rows, date, t);
    if CheckTimeOverlap(rows, date, startTime, endTime, t, exclude) {
      var i :| 0 <= i < |rows| && Matches(rows[i], date, startTime, endTime, t, exclude);
      assert rows[i] in same;
      var j :| 0 <= j < |same| && same[j] == rows[i];
    }
    if CheckTimeOverlap(same, date, startTime, endTime, t, exclude) {
      var j :| 0 <= j < |same| && Matches(same[j], date, startTime, endTime, t, exclude);
      assert same[j] in rows;
      var i :| 0 <= i < |rows| && rows[i] == same[j];
    }
  }

  /** A store whose rows all have another date or another type never reports an overlap. */
  lemma DifferentDateOrTypeNeverConflicts(rows: seq<ShiftDateRow>, date: CalendarDate, startTime: Minutes,
                                          endTime: Minutes, t: ShiftType, exclude: Option<Id>)
    requires forall i :: 0 <= i < |rows| ==> rows[i].date != date || rows[i].shiftType != t
    ensures !CheckTimeOverlap(rows, date, startTime, endTime, t, exclude)
  {
  }

  /** With an id to exclude, the check is the unrestricted check over the other shifts' rows. */
  lemma {:induction false} ExcludeIgnoresOwnRows(rows: seq<ShiftDateRow>, date: CalendarDate, startTime: Minutes,
                                              endTime: Minutes, t: ShiftType, id: Id)
    ensures CheckTimeOverlap(rows, date, startTime, endTime, t, Some(id)) ==
            CheckTimeOverlap(RowsNotOf(rows, id), date, startTime, endTime, t, None)
  {
    var others := RowsNotOf(rows, id);
    if CheckTimeOverlap(rows, date, startTime, endTime, t, Some(id)) {
      var i :| 0 <= i < |rows| && Matches(rows[i], date, startTime, endTime, t, Some(id));
      assert rows[i] in others;
      var j :| 0 <= j < |others| && others[j] == rows[i];
    }
    if CheckTimeOverlap(others, date, startTime, endTime, t, None) {
      var j :| 0 <= j < |others| && Matches(others[j], date, startTime, endTime, t, None);
      assert others[j] in rows;
      var i :| 0 <= i < |rows| && rows[i] == others[j];
    }
  }

  /** Intervals that only touch at an endpoint conflict: 10:00-12:00 against 12:00-14:00. */
  lemma TouchingEndpointsConflict(row: ShiftDateRow)
    requires row.startTime == 600 && row.endTime == 720
    ensures CheckTimeOverlap([row], row.date, 720, 840, row.shiftType, None)
  {
    assert Matches([row][0], row.date, 720, 840, row.shiftType, None);
  }

  /** The interval test is symmetric: a stored row meets a candidate exactly when the candidate,
      stored, would meet the row as a candidate. */
  lemma OverlapIsSymmetric(a: ShiftDateRow, b: ShiftDateRow)
    ensures CheckTimeOverlap([a], b.date, b.startTime, b.endTime, b.shiftType, None) ==
            CheckTimeOverlap([b], a.date, a.startTime, a.endTime, a.shiftType, None)
  {
    assert [a][0] == a && [b][0] == b;
  }

  predicate InClosed(m: int, lo: int, hi: int) { lo <= m <= hi }

  /** For well-formed intervals the closed test holds exactly when some minute lies in both. */
  lemma {:induction false} MeetIffShareMinute(row: ShiftDateRow, startTime: Minutes, endTime: Minutes)
    requires row.startTime <= row.endTime && startTime <= endTime
    ensures Matches(row, row.date, startTime, endTime, row.shiftType, None) <==>
            exists m: int :: InClosed(m, row.startTime, row.endTime) && InClosed(m, startTime, endTime)
  {
    if Matches(row, row.date, startTime, endTime, row.shiftType, None) {
      var m := if row.startTime <= startTime then startTime else row.startTime;
      assert InClosed(m, row.startTime, row.endTime) && InClosed(m, startTime, endTime);
    }
  }

  // ---------------------------------------------------------------------------
  // The create and update loops

  /** Entry `j` is the first submitted entry that the check rejects. */
  predicate FirstConflictAt(rows: seq<ShiftDateRow>, entries: seq<ShiftDateEntry>, exclude: Option<Id>, j: nat)
  {
    j < |entries| && EntryConflicts(rows, entries[j], exclude) &&
    forall k :: 0 <= k < j ==> !EntryConflicts(rows, entries[k], exclude)
  }

  /** The validation loop of `create` and `update`: each submitted entry is checked, in order,
      against the stored rows only, never against the other submitted entries; the loop stops at
      the first entry that is rejected. */
  method FirstConflict(rows: seq<ShiftDateRow>, entries: seq<ShiftDateEntry>, exclude: Option<Id>)
    returns (k: Option<nat>)
    ensures k.Some? ==> FirstConflictAt(rows, entries, exclude, k.value)
    ensures k.None? ==> forall j :: 0 <= j < |entries| ==> !EntryConflicts(rows, entries[j], exclude)
  {
    var i := 0;
    while i < |entries|
      invariant 0 <= i <= |entries|
      invariant forall j :: 0 <= j < i ==> !EntryConflicts(rows, entries[j], exclude)
    {
      var e := entries[i];
      var overlapping := CheckTimeOverlap(rows, e.date, e.startTime, e.endTime, e.shiftType, exclude);
      if overlapping {
        return Some(i);
      }
      i := i + 1;
    }
    return None;
  }

  // ---------------------------------------------------------------------------
  // Row sets

  /** The rows of shift `id` (`relations: ['dates']`). */
  function RowsOf(rows: seq<ShiftDateRow>, id: Id): seq<ShiftDateRow>
  {
    Seqs.Filter((row: ShiftDateRow) => row.shiftId == id, rows)
  }

  /** The rows left by `shiftDateRepository.delete({ shift: { id } })`. */
  function RowsNotOf(rows: seq<ShiftDateRow>, id: Id): seq<ShiftDateRow>
  {
    Seqs.Filter((row: ShiftDateRow) => row.shiftId != id, rows)
  }

  /** The row saved for a submitted entry. */
  predicate Stores(row: ShiftDateRow, e: ShiftDateEntry)
  {
    row.date == e.date && row.startTime == e.startTime && row.endTime == e.endTime &&
    row.price == e.price && row.shiftType == e.shiftType
  }

  /** The rows that saving the shift inserts for its `dates`, with fresh ids from `firstId` on. */
  function NewRows(shiftId: Id, firstId: Id, entries: seq<ShiftDateEntry>): (r: seq<ShiftDateRow>)
    ensures |r| == |entries|
    ensures forall i :: 0 <= i < |r| ==> r[i].shiftId == shiftId && r[i].id == firstId + i && Stores(r[i], entries[i])
  {
    seq(|entries|, i requires 0 <= i < |entries| =>
      var e := entries[i];
      ShiftDateRow(firstId + i, shiftId, e.date, e.startTime, e.endTime, e.price, e.shiftType))
  }

  // ---------------------------------------------------------------------------
  // getPriceRange

  /** `SELECT MIN(price), MAX(price)`, with `parseFloat(...) || 0` turning the NULLs of an empty
      table into 0. */
  function PriceRange(rows: seq<ShiftDateRow>): (r: PriceBounds)
    ensures rows == [] ==> r == PriceBounds(0, 0)
    ensures forall i :: 0 <= i < |rows| ==> r.min <= rows[i].price <= r.max
    ensures rows != [] ==> exists i :: 0 <= i < |rows| && rows[i].price == r.min
    ensures rows != [] ==> exists i :: 0 <= i < |rows| && rows[i].price == r.max
  {
    if rows == [] then PriceBounds(0, 0)
    else if |rows| == 1 then PriceBounds(rows[0].price, rows[0].price)
    else
      var rest := PriceRange(rows[1..]);
      assert forall i :: 1 <= i < |rows| ==> rows[i] == rows[1..][i - 1];
      var p := rows[0].price;
      PriceBounds(if p < rest.min then p else rest.min, if p > rest.max then p else rest.max)
  }

  // ---------------------------------------------------------------------------
  // The service over its store

  class ShiftStore {
    var shifts: map<Id, ShiftInfo>
    var dates: seq<ShiftDateRow>
    var nextId: Id

    /** Ids come from the counter, and every date row belongs to a stored shift (the foreign key). */
    ghost predicate Valid()
      reads this
    {
      (forall id | id in shifts :: id < nextId) &&
      (forall row | row in dates :: row.id < nextId && row.shiftId in shifts)
    }

    constructor ()
      ensures Valid() && shifts == map[] && dates == []
    {
      shifts := map[];
      dates := [];
      nextId := 0;
    }

    /** `findOne`: the shift with its dates, or the not-found error of `findOneOrFail`. */
    function FindOne(id: Id): (r: Result<ShiftView, ServiceError>)
      reads this
      ensures r.Success? <==> id in shifts
      ensures r.Failure? ==> r.error == NotFound(id)
      ensures r.Success? ==> r.value.id == id && shifts[id] == ShiftInfo(r.value.title, r.value.description)
      ensures r.Success? ==> forall i :: 0 <= i < |r.value.dates| ==> r.value.dates[i] in dates && r.value.dates[i].shiftId == id
      ensures r.Success? ==> forall i :: 0 <= i < |dates| && dates[i].shiftId == id ==> dates[i] in r.value.dates
    {
      if id in shifts then Success(ShiftView(id, shifts[id].title, shifts[id].description, RowsOf(dates, id)))
      else Failure(NotFound(id))
    }

    /** `getPriceRange`: (0, 0) for an empty `shift_dates` table, otherwise the lowest and the
        highest price stored in it, over the rows of every shift. */
    function GetPriceRange(): (r: PriceBounds)
      reads this
      ensures dates == [] ==> r == PriceBounds(0, 0)
      ensures forall i :: 0 <= i < |dates| ==> r.min <= dates[i].price <= r.max
      ensures dates != [] ==> exists i :: 0 <= i < |dates| && dates[i].price == r.min
      ensures dates != [] ==> exists i :: 0 <= i < |dates| && dates[i].price == r.max
    {
      PriceRange(dates)
    }

    /** `create`: rejects the whole payload, writing nothing, when an entry overlaps a stored row,
        naming the first such entry's date and type; otherwise saves the shift and all of its
        entries. */
    method Create(input: ShiftDto.ShiftInput) returns (r: Result<ShiftView, ServiceError>)
      requires Valid()
      modifies this
      ensures Valid()
      ensures r.Failure? <==> exists j :: 0 <= j < |input.dates| && EntryConflicts(old(dates), input.dates[j], None)
      ensures r.Failure? ==>
        exists j: nat :: FirstConflictAt(old(dates), input.dates, None, j) &&
                         r.error == TimeOverlap(input.dates[j].date, input.dates[j].shiftType)
      ensures r.Failure? ==> shifts == old(shifts) && dates == old(dates) && nextId == old(nextId)
      ensures r.Success? ==>
        var id := old(nextId);
        var added := NewRows(id, id + 1, input.dates);
        id !in old(shifts) &&
        shifts == old(shifts)[id := ShiftInfo(input.title, CreatedDescription(input.description))] &&
        dates == old(dates) + added &&
        nextId == id + 1 + |input.dates| &&
        r.value == ShiftView(id, input.title, CreatedDescription(input.description), added)
      ensures r.Success? ==> (r.value.description.Some? <==> input.description.Text?)
      ensures r.Success? ==> FindOne(r.value.id) == r
    {
      var k := FirstConflict(dates, input.dates, None);
      if k.Some? {
        var e := input.dates[k.value];
        return Failure(TimeOverlap(e.date, e.shiftType));
      }
      var id := nextId;
      var added := NewRows(id, id + 1, input.dates);
      OnlyNewRowsBelongTo(dates, added, id);
      var description := CreatedDescription(input.description);
      shifts := shifts[id := ShiftInfo(input.title, description)];
      dates := dates + added;
      nextId := id + 1 + |input.dates|;
      r := Success(ShiftView(id, input.title, description, added));
    }

    /** `update`: an unknown id fails before anything is checked; an overlap with another shift's
        rows fails before the old rows are deleted; otherwise the shift's rows are replaced by the
        new entries and the other shifts' rows stay as they were. A description that was left out
        keeps the stored one, and one sent as `null` clears it (`Object.assign` copies every member
        present, `null` included). */
    method Update(id: Id, input: ShiftDto.ShiftInput) returns (r: Result<ShiftView, ServiceError>)
      requires Valid()
      modifies this
      ensures Valid()
      ensures id !in old(shifts) ==> r == Failure(NotFound(id))
      ensures id in old(shifts) ==>
        (r.Failure? <==> exists j :: 0 <= j < |input.dates| && EntryConflicts(old(dates), input.dates[j], Some(id)))
      ensures id in old(shifts) && r.Failure? ==>
        exists j: nat :: FirstConflictAt(old(dates), input.dates, Some(id), j) &&
                         r.error == TimeOverlap(input.dates[j].date, input.dates[j].shiftType)
      ensures r.Failure? ==> shifts == old(shifts) && dates == old(dates) && nextId == old(nextId)
      ensures r.Success? ==>
        var added := NewRows(id, old(nextId), input.dates);
        var description := AssignedDescription(old(shifts)[id].description, input.description);
        shifts == old(shifts)[id := ShiftInfo(input.title, description)] &&
        dates == RowsNotOf(old(dates), id) + added &&
        nextId == old(nextId) + |input.dates| &&
        RowsOf(dates, id) == added &&
        RowsNotOf(dates, id) == RowsNotOf(old(dates), id) &&
        r == FindOne(id) && r.value.dates == added
      ensures r.Success? && input.description.Absent? ==> shifts[id].description == old(shifts)[id].description
      ensures r.Success? && input.description.Null? ==> shifts[id].description == None
      ensures r.Success? && input.description.Text? ==> shifts[id].description == Some(input.description.text)
    {
      var found := FindOne(id);
      if found.Failure? {
        return Failure(found.error);
      }
      var k := FirstConflict(dates, input.dates, Some(id));
      if k.Some? {
        var e := input.dates[k.value];
        return Failure(TimeOverlap(e.date, e.shiftType));
      }
      var kept := RowsNotOf(dates, id);
      var added := NewRows(id, nextId, input.dates);
      ReplacedRows(kept, added, id);
      var description := AssignedDescription(shifts[id].description, input.description);
      shifts := shifts[id := ShiftInfo(input.title, description)];
      dates := kept + added;
      nextId := nextId + |input.dates|;
      r := Success(ShiftView(id, input.title, description, added));
    }

    /** `remove`: deletes the shift and, through the cascading foreign key, its rows. An unknown id
        is not an error. */
    method Remove(id: Id)
      requires Valid()
      modifies this
      ensures Valid()
      ensures shifts == old(shifts) - {id}
      ensures dates == RowsNotOf(old(dates), id)
      ensures nextId == old(nextId)
      ensures FindOne(id) == Failure(NotFound(id))
    {
      shifts := shifts - {id};
      dates := RowsNotOf(dates, id);
    }
  }

  /** Rows stored before a create belong to older shifts, so a new shift owns exactly its new rows. */
  lemma OnlyNewRowsBelongTo(rows: seq<ShiftDateRow>, added: seq<ShiftDateRow>, id: Id)
    requires forall i :: 0 <= i < |rows| ==> rows[i].shiftId != id
    requires forall i :: 0 <= i < |added| ==> added[i].shiftId == id
    ensures RowsOf(rows + added, id) == added
  {
    var p := (row: ShiftDateRow) => row.shiftId == id;
    Seqs.FilterAppend(p, rows, added);
    Seqs.FilterKeepsNone(p, rows);
    Seqs.FilterKeepsAll(p, added);
  }

  /** After an update the shift owns exactly its new rows and the others' rows are unchanged. */
  lemma ReplacedRows(kept: seq<ShiftDateRow>, added: seq<ShiftDateRow>, id: Id)
    requires forall i :: 0 <= i < |kept| ==> kept[i].shiftId != id
    requires forall i :: 0 <= i < |added| ==> added[i].shiftId == id
    ensures RowsOf(kept + added, id) == added
    ensures RowsNotOf(kept + added, id) == kept
  {
    OnlyNewRowsBelongTo(kept, added, id);
    var q := (row: ShiftDateRow) => row.shiftId != id;
    Seqs.FilterAppend(q, kept, added);
    Seqs.FilterKeepsAll(q, kept);
    Seqs.FilterKeepsNone(q, added);
  }

  // ---------------------------------------------------------------------------
  // Scenarios, proved from the contracts above

  /** Shift A takes 09:00-12:00 Consultation on 2024-03-20; shift B asks for 11:00-13:00
      Consultation on that day and is rejected with that date and type; shift C asks for the same
      span as a Telephone shift and is saved. */
  method EndToEndScenario() returns (a: Result<ShiftView, ServiceError>, b: Result<ShiftView, ServiceError>,
                                     c: Result<ShiftView, ServiceError>)
    ensures a.Success? && c.Success?
    ensures b == Failure(TimeOverlap(CalendarDate(2024, 3, 20), Consultation))
  {
    var day := CalendarDate(2024, 3, 20);
    var store := new ShiftStore();
    var entryA := ShiftDateDto.ShiftDateEntry(day, 540, 720, 10000, Consultation);
    a := store.Create(ShiftDto.ShiftInput("A", ShiftDto.Absent, [entryA]));
    var rows := store.dates;
    assert |rows| == 1 && Stores(rows[0], entryA);
    var entryB := ShiftDateDto.ShiftDateEntry(day, 660, 780, 10000, Consultation);
    assert Matches(rows[0], day, 660, 780, Consultation, None);
    assert EntryConflicts(rows, [entryB][0], None);
    b := store.Create(ShiftDto.ShiftInput("B", ShiftDto.Absent, [entryB]));
    var entryC := ShiftDateDto.ShiftDateEntry(day, 660, 780, 10000, Telephone);
    assert !EntryConflicts(rows, entryC, None);
    c := store.Create(ShiftDto.ShiftInput("C", ShiftDto.Absent, [entryC]));
  }

  /** Two entries of one payload that overlap each other are both saved: each is checked only
      against the stored rows. */
  method OverlappingSiblingsAccepted() returns (r: Result<ShiftView, ServiceError>)
    ensures r.Success? && |r.value.dates| == 2
  {
    var day := CalendarDate(2024, 3, 20);
    var store := new ShiftStore();
    var first := ShiftDateDto.ShiftDateEntry(day, 540, 720, 0, Ambulance);
    var second := ShiftDateDto.ShiftDateEntry(day, 600, 660, 0, Ambulance);
    r := store.Create(ShiftDto.ShiftInput("Siblings", ShiftDto.Absent, [first, second]));
  }

  /** Saving a shift again with its own stored span succeeds, because its own rows are excluded. */
  method ResaveOwnSpan() returns (r: Result<ShiftView, ServiceError>)
    ensures r.Success?
  {
    var day := CalendarDate(2024, 3, 20);
    var store := new ShiftStore();
    var entry := ShiftDateDto.ShiftDateEntry(day, 540, 600, 0, Consultation);
    var created := store.Create(ShiftDto.ShiftInput("X", ShiftDto.Absent, [entry]));
    assert created.Success?;
    var rows := store.dates;
    assert |rows| == 1 && rows[0].shiftId == created.value.id;
    assert !EntryConflicts(rows, entry, Some(created.value.id));
    r := store.Update(created.value.id, ShiftDto.ShiftInput("X", ShiftDto.Absent, [entry]));
  }

  /** An update that leaves the description out keeps the stored text; one that sends `null`
      clears it. */
  method DescriptionOnUpdate() returns (kept: Result<ShiftView, ServiceError>, cleared: Result<ShiftView, ServiceError>)
    ensures kept.Success? && kept.value.description == Some("notes")
    ensures cleared.Success? && cleared.value.description == None
  {
    var day := CalendarDate(2024, 3, 20);
    var store := new ShiftStore();
    var entry := ShiftDateDto.ShiftDateEntry(day, 540, 600, 0, Telephone);
    var created := store.Create(ShiftDto.ShiftInput("X", ShiftDto.Text("notes"), [entry]));
    assert created.Success?;
    var id := created.value.id;
    assert !EntryConflicts(store.dates, entry, Some(id));
    kept := store.Update(id, ShiftDto.ShiftInput("X", ShiftDto.Absent, [entry]));
    assert RowsNotOf(store.dates, id) == [];
    assert !EntryConflicts(store.dates, entry, Some(id));
    cleared := store.Update(id, ShiftDto.ShiftInput("X", ShiftDto.Null, [entry]));
  }
}
