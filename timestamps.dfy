/**
 * Timestamps as pandas represents them once parsed: a naive value is a
 * wall-clock reading with no zone; an aware value is an instant (UTC
 * nanoseconds since the epoch) together with the zone it is shown in.
 * Before parsing, a timestamp cell holds the free text the API sent.
 */
module Timestamps {
  import opened Wrappers

  datatype Zone = Utc | FixedOffset(seconds: int)

  datatype Timestamp =
    | Naive(wall: int)
    | Aware(instant: int, zone: Zone)

  /** A timestamp column's cell: the API's text (or nothing) before conversion, a parsed value or NaT (`None`) after it. */
  datatype Moment =
    | Text(raw: Option<string>)
    | Stamp(time: Option<Timestamp>)

  /** Offset of a zone from UTC, in nanoseconds. */
  function OffsetNanos(z: Zone): int {
    match z
    case Utc => 0
    case FixedOffset(s) => s * 1_000_000_000
  }

  /** The wall-clock reading a timestamp shows. */
  function WallClock(t: Timestamp): int {
    match t
    case Naive(w) => w
    case Aware(i, z) => i + OffsetNanos(z)
  }
}
