/** The value types shared by the backend entity (`ShiftDate`) and the frontend types. */
module Domain {

  /** `enum ShiftType`. */
  datatype ShiftType = Consultation | Telephone | Ambulance

  /** The enum's string values, as sent over the wire and stored in the `type` column. */
  function TypeName(t: ShiftType): string
  {
    match t
    case Consultation => "Consultation"
    case Telephone => "Telephone"
    case Ambulance => "Ambulance"
  }

  /** A SQL `time` value of the form HH:mm, as minutes since midnight; compared chronologically. */
  type Minutes = m: int | 0 <= m < 1440

  /** A calendar date; the model only ever compares two of them for equality. */
  datatype CalendarDate = CalendarDate(year: nat, month: nat, day: nat)

  /** Entity identifiers (uuids in the source), drawn from a counter in the model. */
  type Id = nat

  /** A price column `decimal(10, 2)`, as a whole number of cents. */
  type Cents = int
}
