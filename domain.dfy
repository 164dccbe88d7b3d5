/** The value types of the service: a telemetry event about a talent and a
    leaderboard row. */
module Domain {

  /** A 128-bit event identifier (a UUID). Only equality is ever used. */
  newtype Uuid = x: int | 0 <= x < 0x1_0000_0000_0000_0000_0000_0000_0000_0000

  /** Scores are only compared, never combined arithmetically, so an exact
      ordered number type stands for Go's float64. */
  type Score = real

  /** An instant in time, as a count of nanoseconds since an epoch. */
  type Instant = int

  /** An event about a talent; `score` stays zero until the scorer fills it in. */
  datatype Event = Event(
    eventId: Uuid,
    talentId: string,
    rawMetric: real,
    skill: string,
    ts: Instant,
    score: Score)

  /** A leaderboard row. Rank 0 means "no rank"; real ranks start at 1. */
  datatype Leader = Leader(rank: nat, talentId: string, score: Score)

  /** Go's zero value `leader.Leader{}`. */
  const ZeroLeader := Leader(0, "", 0.0)

  /** A Go `error` value. */
  datatype Error = Error(message: string)
}
