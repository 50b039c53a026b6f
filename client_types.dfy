/** The frontend's `ShiftDate` and `Shift` (frontend/src/types/index.ts). Ids are optional there:
    a shift being drafted has none. */
module ClientTypes {
  import opened Wrappers
  import opened Domain

  datatype ShiftDate = ShiftDate(
    id: Option<Id>, date: CalendarDate, startTime: Minutes, endTime: Minutes,
    price: Cents, shiftType: ShiftType, shiftId: Option<Id>)

  datatype Shift = Shift(id: Option<Id>, title: string, description: Option<string>, dates: seq<ShiftDate>)

  /** `Partial<Shift>` as the drawer submits it: title, description and dates only. */
  datatype ShiftData = ShiftData(title: string, description: string, dates: seq<ShiftDate>)
}
