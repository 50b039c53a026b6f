/** The state of the `App` component (frontend/src/App.tsx): whether the drawer is open, which
    shift it edits, the price filter, and the list the filter shows. Dispatches become returned
    requests. */
module App {
  import opened Wrappers
  import opened Domain
  import opened ClientTypes
  import Seqs

  /** `shift.dates.some(date => date.price >= lo && date.price <= hi)`. */
  predicate HasDateInRange(s: Shift, lo: Cents, hi: Cents)
  {
    exists i :: 0 <= i < |s.dates| && lo <= s.dates[i].price <= hi
  }

  /** `filteredShifts`. */
  function FilterByPrice(shifts: seq<Shift>, lo: Cents, hi: Cents): seq<Shift>
  {
    Seqs.Filter((s: Shift) => HasDateInRange(s, lo, hi), shifts)
  }

  /** The filter keeps exactly the shifts with a date priced within the bounds, every copy of
      them, in their order. */
  lemma FilterByPriceSpec(shifts: seq<Shift>, lo: Cents, hi: Cents)
    ensures forall j :: 0 <= j < |FilterByPrice(shifts, lo, hi)| ==>
      var s := FilterByPrice(shifts, lo, hi)[j];
      s in shifts && exists i :: 0 <= i < |s.dates| && lo <= s.dates[i].price <= hi
    ensures forall j, i :: 0 <= j < |shifts| && 0 <= i < |shifts[j].dates| && lo <= shifts[j].dates[i].price <= hi ==>
      shifts[j] in FilterByPrice(shifts, lo, hi)
    ensures forall x ::
      multiset(FilterByPrice(shifts, lo, hi))[x] == if HasDateInRange(x, lo, hi) then multiset(shifts)[x] else 0
    ensures Seqs.IsSubsequence(FilterByPrice(shifts, lo, hi), shifts)
  {
    Seqs.FilterIsSubsequence((s: Shift) => HasDateInRange(s, lo, hi), shifts);
    Seqs.FilterMultiset((s: Shift) => HasDateInRange(s, lo, hi), shifts);
  }

  /** A shift without dates is never shown. */
  lemma ShiftWithoutDatesNeverShown(shifts: seq<Shift>, lo: Cents, hi: Cents)
    ensures forall j :: 0 <= j < |FilterByPrice(shifts, lo, hi)| ==> FilterByPrice(shifts, lo, hi)[j].dates != []
  {
  }

  /** Crossed bounds show nothing. */
  lemma CrossedBoundsShowNothing(shifts: seq<Shift>, lo: Cents, hi: Cents)
    requires lo > hi
    ensures FilterByPrice(shifts, lo, hi) == []
  {
    Seqs.FilterKeepsNone((s: Shift) => HasDateInRange(s, lo, hi), shifts);
  }

  /** What a handler dispatches: `createShift(data)`, `updateShift({ id, shift: data })` or
      `deleteShift(id)`; the id is `selectedShift.id!`, which may be absent. */
  datatype Request = CreateRequest(data: ShiftData) | UpdateRequest(id: Option<Id>, data: ShiftData) | DeleteRequest(id: Option<Id>)

  /** `useState<[number, number]>([0, 1000])`, in cents. */
  const InitialPriceFilter: (Cents, Cents) := (0, 100000)

  class AppState {
    var drawerOpen: bool
    var selectedShift: Option<Shift>
    var priceFilter: (Cents, Cents)

    constructor ()
      ensures !drawerOpen && selectedShift == None && priceFilter == InitialPriceFilter
    {
      drawerOpen := false;
      selectedShift := None;
      priceFilter := InitialPriceFilter;
    }

    /** The slider's `onChange`, and the effect that sets the filter to the fetched price range. */
    method SetPriceFilter(lo: Cents, hi: Cents)
      modifies this
      ensures priceFilter == (lo, hi)
      ensures drawerOpen == old(drawerOpen) && selectedShift == old(selectedShift)
    {
      priceFilter := (lo, hi);
    }

    method HandleCreateShift()
      modifies this
      ensures selectedShift == None && drawerOpen
      ensures priceFilter == old(priceFilter)
    {
      selectedShift := None;
      drawerOpen := true;
    }

    method HandleEditShift(shift: Shift)
      modifies this
      ensures selectedShift == Some(shift) && drawerOpen
      ensures priceFilter == old(priceFilter)
    {
      selectedShift := Some(shift);
      drawerOpen := true;
    }

    /** Updates the selected shift if there is one, otherwise creates; then closes the drawer
        and clears the selection whatever the request's outcome. */
    method HandleSaveShift(data: ShiftData) returns (request: Request)
      modifies this
      ensures old(selectedShift).Some? ==> request == UpdateRequest(old(selectedShift).value.id, data)
      ensures old(selectedShift).None? ==> request == CreateRequest(data)
      ensures !drawerOpen && selectedShift == None
      ensures priceFilter == old(priceFilter)
    {
      if selectedShift.Some? {
        request := UpdateRequest(selectedShift.value.id, data);
      } else {
        request := CreateRequest(data);
      }
      drawerOpen := false;
      selectedShift := None;
    }

    /** Deletes the selected shift and closes the drawer; with no selection it does nothing. */
    method HandleDeleteShift() returns (request: Option<Request>)
      modifies this
      ensures old(selectedShift).None? ==> request == None && drawerOpen == old(drawerOpen) && selectedShift == None
      ensures old(selectedShift).Some? ==>
        request == Some(DeleteRequest(old(selectedShift).value.id)) && !drawerOpen && selectedShift == None
      ensures priceFilter == old(priceFilter)
    {
      if selectedShift.Some? {
        request := Some(DeleteRequest(selectedShift.value.id));
        drawerOpen := false;
        selectedShift := None;
      } else {
        request := None;
      }
    }

    /** The drawer's `onClose`. */
    method HandleClose()
      modifies this
      ensures !drawerOpen && selectedShift == None
      ensures priceFilter == old(priceFilter)
    {
      drawerOpen := false;
      selectedShift := None;
    }
  }
}
