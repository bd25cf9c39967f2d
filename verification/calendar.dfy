/** The data the calendar works on: Java's 64-bit `long`, `java.util.Date`
    (a millisecond count), and the persisted `Event` record. */
module Calendar {

  /** Java's `long`: two's-complement 64-bit. */
  newtype Long = x: int | -0x8000_0000_0000_0000 <= x < 0x8000_0000_0000_0000

  const LongMin: int := -0x8000_0000_0000_0000
  const LongMax: int := 0x7fff_ffff_ffff_ffff
  const LongModulus: int := 0x1_0000_0000_0000_0000

  /** The `long` that Java's wrap-around arithmetic produces for the exact value `x`. */
  function WrapLong(x: int): (r: Long)
    ensures (r as int - x) % LongModulus == 0
    ensures LongMin <= x <= LongMax ==> r as int == x
  {
    ((x - LongMin) % LongModulus + LongMin) as Long
  }

  /** `java.util.Date`: a wrapper around milliseconds since the epoch. */
  datatype Date = Date(millis: Long)

  /** A `java.util.UUID`, kept opaque. */
  type Uuid = nat

  /** The event kinds. Only `ASSIGNMENT` is singled out by the code; every
      other constant of the enum behaves alike and is named by `Other`. */
  datatype EventType = Assignment | Other(name: string)

  /** The single persisted entity; `eventType` is the Java field `type`. */
  datatype Event = Event(
    id: Uuid,
    name: string,
    description: string,
    eventType: EventType,
    startTime: Date,
    endTime: Date)

  /** The Java exceptions the modelled code can raise. */
  datatype Error =
    | IllegalState(message: string)
    | IndexOutOfBounds(index: int)
}
