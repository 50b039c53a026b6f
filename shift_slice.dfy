/** The Redux slice `shifts` (frontend/src/store/shiftSlice.ts): its `initialState` and the
    `extraReducers` cases, each a step on the mutable draft `state`. Thunk payloads are inputs. */
module ShiftSlice {
  import opened Wrappers
  import opened Domain
  import opened ClientTypes
  import Seqs

  datatype PriceRange = PriceRange(min: Cents, max: Cents)

  /** `initialState.priceRange`: 0 to 1000 euros. */
  const InitialPriceRange := PriceRange(0, 100000)

  const FetchFailedMessage := "Failed to fetch shifts"

  /** `action.error.message || 'Failed to fetch shifts'`: an absent or empty message falls back. */
  function ErrorText(message: Option<string>): (r: string)
    ensures r != ""
    ensures message.Some? && message.value != "" ==> r == message.value
    ensures message.None? || message.value == "" ==> r == FetchFailedMessage
  {
    if message.Some? && message.value != "" then message.value else FetchFailedMessage
  }

  /** `shifts.findIndex(shift => shift.id === id)`; ids compare with `===`, so an absent id
      matches an absent id. */
  function IndexOfId(shifts: seq<Shift>, id: Option<Id>): (k: int)
    ensures -1 <= k < |shifts|
    ensures k >= 0 ==> shifts[k].id == id
    ensures forall j :: 0 <= j < |shifts| && (k == -1 || j < k) ==> shifts[j].id != id
  {
    if shifts == [] then -1
    else if shifts[0].id == id then 0
    else
      var k := IndexOfId(shifts[1..], id);
      assert forall j :: 1 <= j < |shifts| ==> shifts[j] == shifts[1..][j - 1];
      if k == -1 then -1 else k + 1
  }

  /** The loop that `findIndex` runs. */
  method FindIndex(shifts: seq<Shift>, id: Option<Id>) returns (k: int)
    ensures k == IndexOfId(shifts, id)
  {
    k := 0;
    while k < |shifts|
      invariant 0 <= k <= |shifts|
      invariant forall j :: 0 <= j < k ==> shifts[j].id != id
    {
      if shifts[k].id == id {
        return;
      }
      k := k + 1;
    }
    k := -1;
  }

  /** The list after `updateShift.fulfilled`: the first shift with the payload's id is replaced. */
  function ReplaceFirst(shifts: seq<Shift>, payload: Shift): (r: seq<Shift>)
    ensures |r| == |shifts|
    ensures (forall j :: 0 <= j < |shifts| ==> shifts[j].id != payload.id) ==> r == shifts
    ensures forall j :: 0 <= j < |shifts| && j != IndexOfId(shifts, payload.id) ==> r[j] == shifts[j]
    ensures IndexOfId(shifts, payload.id) >= 0 ==> r[IndexOfId(shifts, payload.id)] == payload
  {
    var k := IndexOfId(shifts, payload.id);
    if k != -1 then shifts[k := payload] else shifts
  }

  /** Only the first matching shift is replaced; later shifts with the same id stay. */
  lemma ReplaceFirstKeepsLaterDuplicates(shifts: seq<Shift>, payload: Shift, j: nat)
    requires 0 <= j < |shifts| && shifts[j].id == payload.id
    requires exists i :: 0 <= i < j && shifts[i].id == payload.id
    ensures ReplaceFirst(shifts, payload)[j] == shifts[j]
  {
  }

  /** The list after `deleteShift.fulfilled`. */
  function RemoveId(shifts: seq<Shift>, id: Id): seq<Shift>
  {
    Seqs.Filter((s: Shift) => s.id != Some(id), shifts)
  }

  /** Deleting keeps exactly the shifts with another id, every copy of them, in their original
      order. */
  lemma RemoveIdKeepsOthersInOrder(shifts: seq<Shift>, id: Id)
    ensures forall j :: 0 <= j < |RemoveId(shifts, id)| ==> RemoveId(shifts, id)[j].id != Some(id)
    ensures forall j :: 0 <= j < |shifts| && shifts[j].id != Some(id) ==> shifts[j] in RemoveId(shifts, id)
    ensures forall x :: multiset(RemoveId(shifts, id))[x] == if x.id != Some(id) then multiset(shifts)[x] else 0
    ensures Seqs.IsSubsequence(RemoveId(shifts, id), shifts)
  {
    Seqs.FilterIsSubsequence((s: Shift) => s.id != Some(id), shifts);
    Seqs.FilterMultiset((s: Shift) => s.id != Some(id), shifts);
  }

  class ShiftState {
    var shifts: seq<Shift>
    var priceRange: PriceRange
    var loading: bool
    var error: Option<string>

    constructor ()
      ensures shifts == [] && priceRange == InitialPriceRange && !loading && error == None
    {
      shifts := [];
      priceRange := InitialPriceRange;
      loading := false;
      error := None;
    }

    method FetchShiftsPending()
      modifies this
      ensures loading && error == None
      ensures shifts == old(shifts) && priceRange == old(priceRange)
    {
      loading := true;
      error := None;
    }

    method FetchShiftsFulfilled(payload: seq<Shift>)
      modifies this
      ensures !loading && shifts == payload
      ensures error == old(error) && priceRange == old(priceRange)
    {
      loading := false;
      shifts := payload;
    }

    method FetchShiftsRejected(message: Option<string>)
      modifies this
      ensures !loading && error == Some(ErrorText(message))
      ensures shifts == old(shifts) && priceRange == old(priceRange)
    {
      loading := false;
      error := Some(ErrorText(message));
    }

    method FetchPriceRangeFulfilled(payload: PriceRange)
      modifies this
      ensures priceRange == payload
      ensures shifts == old(shifts) && loading == old(loading) && error == old(error)
    {
      priceRange := payload;
    }

    /** `state.shifts.push(action.payload)`. */
    method CreateShiftFulfilled(payload: Shift)
      modifies this
      ensures shifts == old(shifts) + [payload]
      ensures |shifts| == |old(shifts)| + 1 && shifts[..|old(shifts)|] == old(shifts)
      ensures loading == old(loading) && error == old(error) && priceRange == old(priceRange)
    {
      shifts := shifts + [payload];
    }

    method UpdateShiftFulfilled(payload: Shift)
      modifies this
      ensures shifts == ReplaceFirst(old(shifts), payload)
      ensures loading == old(loading) && error == old(error) && priceRange == old(priceRange)
    {
      var index := FindIndex(shifts, payload.id);
      if index != -1 {
        shifts := shifts[index := payload];
      }
    }

    method DeleteShiftFulfilled(id: Id)
      modifies this
      ensures shifts == RemoveId(old(shifts), id)
      ensures loading == old(loading) && error == old(error) && priceRange == old(priceRange)
    {
      shifts := RemoveId(shifts, id);
    }
  }
}
