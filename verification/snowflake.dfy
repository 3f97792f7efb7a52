/**
 * The provider's time-ordered identifiers ("Snowflake IDs"): the number of
 * milliseconds since the provider's epoch, shifted left past 22 low bits.
 * Timestamps are integer milliseconds since 1970-01-01T00:00:00Z.
 */
module Snowflake {

  /** The provider's epoch, in milliseconds since the POSIX epoch. */
  const Epoch: int := 1288834974657

  /** 2^22: `<< 22` is multiplication by it and `>> 22` floor division by it. */
  const TimeShift: int := 4194304

  /** `snowflake_id`: the smallest identifier the provider issues in millisecond `ms`. */
  function SnowflakeId(ms: int): (id: int)
    ensures id % TimeShift == 0
    ensures id / TimeShift == ms - Epoch
  {
    (ms - Epoch) * TimeShift
  }

  /**
   * `timestamp_from_snowflake_id`: the millisecond an identifier was issued in.
   * Dafny's `/` by a positive divisor floors, as Python's `>>` does on the
   * negative identifiers of times before the provider's epoch.
   */
  function TimestampFromSnowflakeId(id: int): (ms: int)
    ensures SnowflakeId(ms) <= id < SnowflakeId(ms) + TimeShift
  {
    id / TimeShift + Epoch
  }

  /** Every millisecond survives the trip through an identifier. */
  lemma TimestampRoundTrip(ms: int)
    ensures TimestampFromSnowflakeId(SnowflakeId(ms)) == ms
  {
  }

  /** An identifier comes back from its timestamp exactly when its 22 low bits are zero. */
  lemma SnowflakeRoundTrip(id: int)
    ensures SnowflakeId(TimestampFromSnowflakeId(id)) == id <==> id % TimeShift == 0
  {
  }

  /** Later milliseconds give larger identifiers. */
  lemma SnowflakeMonotone(a: int, b: int)
    ensures a <= b ==> SnowflakeId(a) <= SnowflakeId(b)
    ensures a < b ==> SnowflakeId(a) + TimeShift <= SnowflakeId(b)
  {
  }

  /** The identifiers of the first two seconds of 1970. */
  lemma SnowflakeVectors()
    ensures SnowflakeId(0) == -5405765689543753728
    ensures SnowflakeId(1000) == -5405765685349449728
    ensures TimestampFromSnowflakeId(-5405765685349449728) == 1000
  {
  }
}
