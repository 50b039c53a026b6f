/** The form state of `ShiftDrawer` (frontend/src/components/ShiftDrawer.tsx): `title`,
    `description` and the `dates` being edited, with the handlers that replace them. `new Date()`
    is the `today` parameter. */
module ShiftDrawer {
  import opened Wrappers
  import opened Domain
  import opened ClientTypes

  /** The entry `handleAddDate` appends and the form starts with: 09:00-17:00, price 0,
      Consultation, on the current date. */
  function DefaultEntry(today: CalendarDate): ShiftDate
  {
    ShiftDate(None, today, 540, 1020, 0, Consultation, None)
  }

  /** `dates` after `handleAddDate`. */
  function AppendDefault(dates: seq<ShiftDate>, today: CalendarDate): seq<ShiftDate>
  {
    dates + [DefaultEntry(today)]
  }

  /** `dates.filter((_, i) => i !== index)`, walking positions from `offset`. */
  function DropIndex(dates: seq<ShiftDate>, index: int, offset: nat): (r: seq<ShiftDate>)
    ensures |r| <= |dates|
  {
    if dates == [] then []
    else (if offset != index then [dates[0]] else []) + DropIndex(dates[1..], index, offset + 1)
  }

  /** `dates` after `handleRemoveDate(index)`. */
  function RemoveAt(dates: seq<ShiftDate>, index: int): seq<ShiftDate>
  {
    DropIndex(dates, index, 0)
  }

  lemma {:induction false} DropIndexPast(dates: seq<ShiftDate>, index: int, offset: nat)
    requires index < offset || index >= offset + |dates|
    ensures DropIndex(dates, index, offset) == dates
  {
    if dates != [] {
      DropIndexPast(dates[1..], index, offset + 1);
      assert [dates[0]] + dates[1..] == dates;
    }
  }

  lemma {:induction false} DropIndexAt(dates: seq<ShiftDate>, index: int, offset: nat)
    requires offset <= index < offset + |dates|
    ensures DropIndex(dates, index, offset) == dates[..index - offset] + dates[index - offset + 1..]
  {
    if index == offset {
      DropIndexPast(dates[1..], index, offset + 1);
    } else {
      DropIndexAt(dates[1..], index, offset + 1);
      assert dates[1..][..index - offset - 1] == dates[1..index - offset];
      assert [dates[0]] + dates[1..index - offset] == dates[..index - offset];
      assert dates[1..][index - offset..] == dates[index - offset + 1..];
    }
  }

  /** Removing drops exactly the entry at `index`, keeping the others in order; an index out of
      range changes nothing. */
  lemma RemoveAtSpec(dates: seq<ShiftDate>, index: int)
    ensures 0 <= index < |dates| ==> RemoveAt(dates, index) == dates[..index] + dates[index + 1..]
    ensures !(0 <= index < |dates|) ==> RemoveAt(dates, index) == dates
  {
    if 0 <= index < |dates| {
      DropIndexAt(dates, index, 0);
    } else {
      DropIndexPast(dates, index, 0);
    }
  }

  /** The fields the form edits (`keyof ShiftDate` as the pickers and text fields use it). */
  datatype Field = DateField | StartTimeField | EndTimeField | PriceField | TypeField

  /** The `value: any` of `handleDateChange`, tagged with its kind. */
  datatype FieldValue = DateValue(d: CalendarDate) | TimeValue(t: Minutes) | PriceValue(p: Cents) | TypeValue(k: ShiftType)

  /** The value has the kind the field holds. */
  predicate Fits(f: Field, v: FieldValue)
  {
    match f
    case DateField => v.DateValue?
    case StartTimeField | EndTimeField => v.TimeValue?
    case PriceField => v.PriceValue?
    case TypeField => v.TypeValue?
  }

  function Get(e: ShiftDate, f: Field): (v: FieldValue)
    ensures Fits(f, v)
  {
    match f
    case DateField => DateValue(e.date)
    case StartTimeField => TimeValue(e.startTime)
    case EndTimeField => TimeValue(e.endTime)
    case PriceField => PriceValue(e.price)
    case TypeField => TypeValue(e.shiftType)
  }

  /** `{ ...entry, [field]: value }`. */
  function Set(e: ShiftDate, f: Field, v: FieldValue): ShiftDate
    requires Fits(f, v)
  {
    match f
    case DateField => e.(date := v.d)
    case StartTimeField => e.(startTime := v.t)
    case EndTimeField => e.(endTime := v.t)
    case PriceField => e.(price := v.p)
    case TypeField => e.(shiftType := v.k)
  }

  /** Setting a field: it then holds the value, every other field (ids included) keeps its value,
      and setting a field to its own value changes nothing. */
  lemma SetChangesOnlyThatField(e: ShiftDate, f: Field, v: FieldValue)
    requires Fits(f, v)
    ensures Get(Set(e, f, v), f) == v
    ensures forall g :: g != f ==> Get(Set(e, f, v), g) == Get(e, g)
    ensures Set(e, f, v).id == e.id && Set(e, f, v).shiftId == e.shiftId
    ensures Set(e, f, Get(e, f)) == e
  {
  }

  class DrawerForm {
    var title: string
    var description: string
    var dates: seq<ShiftDate>

    /** The `useState` initialisers: `shift?.title || ''`, `shift?.description || ''`, and
        `shift?.dates || [default]`; an array is truthy, so a shift with no dates starts empty. */
    constructor (shift: Option<Shift>, today: CalendarDate)
      ensures shift.None? ==> title == "" && description == "" && dates == [DefaultEntry(today)]
      ensures shift.Some? ==> title == shift.value.title && dates == shift.value.dates
      ensures shift.Some? ==> description == if shift.value.description.Some? then shift.value.description.value else ""
    {
      if shift.Some? {
        title := shift.value.title;
        description := if shift.value.description.Some? then shift.value.description.value else "";
        dates := shift.value.dates;
      } else {
        title := "";
        description := "";
        dates := [DefaultEntry(today)];
      }
    }

    method HandleAddDate(today: CalendarDate)
      modifies this
      ensures dates == AppendDefault(old(dates), today)
      ensures |dates| == |old(dates)| + 1 && dates[..|old(dates)|] == old(dates)
      ensures title == old(title) && description == old(description)
    {
      dates := AppendDefault(dates, today);
    }

    method HandleRemoveDate(index: int)
      modifies this
      ensures dates == RemoveAt(old(dates), index)
      ensures title == old(title) && description == old(description)
    {
      dates := RemoveAt(dates, index);
    }

    /** Copies the list and writes the changed entry at `index`; the controls only ever pass an
        index of a rendered entry and a value of the field's kind. */
    method HandleDateChange(index: nat, f: Field, v: FieldValue)
      requires index < |dates| && Fits(f, v)
      modifies this
      ensures |dates| == |old(dates)|
      ensures dates[index] == Set(old(dates)[index], f, v)
      ensures forall j :: 0 <= j < |dates| && j != index ==> dates[j] == old(dates)[j]
      ensures title == old(title) && description == old(description)
    {
      var newDates := dates;
      newDates := newDates[index := Set(newDates[index], f, v)];
      dates := newDates;
    }

    /** `handleSubmit`: the form's fields, passed to `onSave` as they are. */
    function HandleSubmit(): (data: ShiftData)
      reads this
      ensures data.title == title && data.description == description && data.dates == dates
    {
      ShiftData(title, description, dates)
    }
  }

  // ---------------------------------------------------------------------------
  // What the controls can do to the list

  /** One click or edit in the rendered form. */
  datatype DrawerEvent = AddDate(today: CalendarDate) | RemoveDate(index: nat) | ChangeDate(index: nat, f: Field, v: FieldValue)

  /** The control exists and is enabled: indices are those of rendered entries, and the remove
      control is disabled when one entry is left. */
  predicate Enabled(dates: seq<ShiftDate>, ev: DrawerEvent)
  {
    match ev
    case AddDate(_) => true
    case RemoveDate(i) => i < |dates| && |dates| != 1
    case ChangeDate(i, f, v) => i < |dates| && Fits(f, v)
  }

  function Step(dates: seq<ShiftDate>, ev: DrawerEvent): seq<ShiftDate>
    requires Enabled(dates, ev)
  {
    match ev
    case AddDate(today) => AppendDefault(dates, today)
    case RemoveDate(i) => RemoveAt(dates, i)
    case ChangeDate(i, f, v) => dates[i := Set(dates[i], f, v)]
  }

  /** The list after a run of events, or None when some event's control was not enabled. */
  function Run(dates: seq<ShiftDate>, events: seq<DrawerEvent>): Option<seq<ShiftDate>>
    decreases |events|
  {
    if events == [] then Some(dates)
    else if Enabled(dates, events[0]) then Run(Step(dates, events[0]), events[1..])
    else None
  }

  /** Edits made through the controls never leave a form that had an entry without one. */
  lemma {:induction false} ControlsKeepAnEntry(dates: seq<ShiftDate>, events: seq<DrawerEvent>)
    requires |dates| >= 1
    requires Run(dates, events).Some?
    ensures |Run(dates, events).value| >= 1
    decreases |events|
  {
    if events != [] {
      var next := Step(dates, events[0]);
      if events[0].RemoveDate? {
        RemoveAtSpec(dates, events[0].index);
      }
      assert |next| >= 1;
      ControlsKeepAnEntry(next, events[1..]);
    }
  }

  /** Without the guard, removing the only entry would leave the form with none. */
  lemma UnguardedRemoveEmptiesForm(e: ShiftDate)
    ensures RemoveAt([e], 0) == []
    ensures !Enabled([e], RemoveDate(0))
  {
  }
}
