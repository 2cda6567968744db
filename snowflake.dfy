/**
 * The Snowflake id generator: a 64-bit id made of 41 bits of milliseconds
 * since 2024-01-01 00:00:00 (UTC+8), 5 bits of datacenter id, 5 bits of
 * worker id and a 12-bit per-millisecond sequence.
 *
 * The wall clock is an input: `clock` is the sequence of values that
 * successive calls to `System.currentTimeMillis()` return during one call
 * of `NextId`.
 */
module Snowflake {
  import opened Wrappers

  const START_TIMESTAMP: int := 1704038400000

  const SEQUENCE_BITS: nat := 12
  const WORKER_BITS: nat := 5
  const DATACENTER_BITS: nat := 5

  /** `~(-1L << bits)` for the three widths. */
  const MAX_SEQUENCE: int := 4095
  const MAX_WORKER_ID: int := 31
  const MAX_DATACENTER_ID: int := 31

  /** `1L << WORKER_SHIFT`, `1L << DATACENTER_SHIFT`, `1L << TIMESTAMP_SHIFT`. */
  const TWO_12: int := 4096
  const TWO_17: int := 131072
  const TWO_22: int := 4194304
  /** The span of the 41-bit time field. */
  const TWO_41: int := 2199023255552
  const TWO_63: int := 9223372036854775808
  const TWO_64: int := 18446744073709551616

  /** A Java `long` result: the value reduced into the signed 64-bit range. */
  function Wrap64(x: int): (r: int)
    ensures -TWO_63 <= r < TWO_63
    ensures -TWO_63 <= x < TWO_63 ==> r == x
  {
    (x + TWO_63) % TWO_64 - TWO_63
  }

  /**
   * `(ts - START) << 22 | dc << 17 | worker << 12 | sequence`. The low three
   * fields occupy disjoint bits below bit 22 and the shifted time has those
   * bits clear, so the bitwise or is the sum, taken modulo 2^64.
   */
  function IdOf(timestamp: int, datacenterId: int, workerId: int, sequence: int): int {
    Wrap64((timestamp - START_TIMESTAMP) * TWO_22 + datacenterId * TWO_17 + workerId * TWO_12 + sequence)
  }

  /** `(id >> 22) + START`: Java's arithmetic shift is floor division. */
  function TimestampOf(id: int): int { id / TWO_22 + START_TIMESTAMP }
  /** `(id >> 17) & 31`. */
  function DatacenterOf(id: int): int { (id / TWO_17) % 32 }
  /** `(id >> 12) & 31`. */
  function WorkerOf(id: int): int { (id / TWO_12) % 32 }
  /** `id & 4095`. */
  function SequenceOf(id: int): int { id % TWO_12 }

  /** The field values the layout can hold. */
  predicate Fits(datacenterId: int, workerId: int, sequence: int) {
    0 <= datacenterId <= MAX_DATACENTER_ID && 0 <= workerId <= MAX_WORKER_ID && 0 <= sequence <= MAX_SEQUENCE
  }

  /** Timestamps whose elapsed time fits the 41-bit field (until the year 2093). */
  predicate InEpoch(timestamp: int) {
    0 <= timestamp - START_TIMESTAMP < TWO_41
  }

  lemma LowBitsBelowTimeField(datacenterId: int, workerId: int, sequence: int)
    requires Fits(datacenterId, workerId, sequence)
    ensures 0 <= datacenterId * TWO_17 + workerId * TWO_12 + sequence < TWO_22
  {
  }

  lemma DivModUnique(a: int, b: int, q: int, r: int)
    requires b > 0 && 0 <= r < b && a == q * b + r
    ensures a / b == q && a % b == r
  {
    var q', r' := a / b, a % b;
    assert a == q' * b + r';
    if q > q' {
      MulAtLeast(q - q', b);
    } else if q < q' {
      MulAtLeast(q' - q, b);
    }
  }

  lemma MulAtLeast(x: int, b: int)
    requires x >= 1 && b > 0
    ensures x * b >= b
  {
  }

  /** Each field of an id can be read back by shifting and masking. */
  lemma {:induction false} IdFieldsRoundTrip(timestamp: int, datacenterId: int, workerId: int, sequence: int)
    requires Fits(datacenterId, workerId, sequence) && InEpoch(timestamp)
    ensures var id := IdOf(timestamp, datacenterId, workerId, sequence);
      && 0 <= id
      && TimestampOf(id) == timestamp
      && DatacenterOf(id) == datacenterId
      && WorkerOf(id) == workerId
      && SequenceOf(id) == sequence
  {
    var e := timestamp - START_TIMESTAMP;
    LowBitsBelowTimeField(datacenterId, workerId, sequence);
    var raw := e * TWO_22 + datacenterId * TWO_17 + workerId * TWO_12 + sequence;
    assert raw < TWO_63;
    var id := IdOf(timestamp, datacenterId, workerId, sequence);
    assert id == raw;
    DivModUnique(id, TWO_22, e, datacenterId * TWO_17 + workerId * TWO_12 + sequence);
    DivModUnique(id, TWO_17, e * 32 + datacenterId, workerId * TWO_12 + sequence);
    DivModUnique(e * 32 + datacenterId, 32, e, datacenterId);
    DivModUnique(id, TWO_12, e * 1024 + datacenterId * 32 + workerId, sequence);
    DivModUnique(e * 1024 + datacenterId * 32 + workerId, 32, e * 32 + datacenterId, workerId);
  }

  /** Whether (t2, s2) comes after (t1, s1): a later millisecond, or a later sequence in the same one. */
  predicate Advanced(t1: int, s1: int, t2: int, s2: int) {
    t1 < t2 || (t1 == t2 && s1 < s2)
  }

  /** Ids grow with (timestamp, sequence) for a fixed datacenter and worker. */
  lemma {:induction false} IdsIncrease(t1: int, s1: int, t2: int, s2: int, datacenterId: int, workerId: int)
    requires Fits(datacenterId, workerId, s1) && Fits(datacenterId, workerId, s2)
    requires InEpoch(t1) && InEpoch(t2)
    requires Advanced(t1, s1, t2, s2)
    ensures IdOf(t1, datacenterId, workerId, s1) < IdOf(t2, datacenterId, workerId, s2)
  {
    LowBitsBelowTimeField(datacenterId, workerId, s1);
    LowBitsBelowTimeField(datacenterId, workerId, s2);
    var e1, e2 := t1 - START_TIMESTAMP, t2 - START_TIMESTAMP;
    var low := datacenterId * TWO_17 + workerId * TWO_12;
    assert IdOf(t1, datacenterId, workerId, s1) == e1 * TWO_22 + low + s1;
    assert IdOf(t2, datacenterId, workerId, s2) == e2 * TWO_22 + low + s2;
    if t1 < t2 {
      assert e1 * TWO_22 + TWO_22 <= e2 * TWO_22;
    }
  }

  datatype GeneratorError = WorkerIdOutOfRange | DatacenterIdOutOfRange | ClockMovedBackwards

  /** The constructor's range checks, worker id first. */
  function CheckIds(datacenterId: int, workerId: int): (r: Option<GeneratorError>)
    ensures r.None? <==> Fits(datacenterId, workerId, 0)
    ensures r == Some(WorkerIdOutOfRange) <==> !(0 <= workerId <= MAX_WORKER_ID)
    ensures r == Some(DatacenterIdOutOfRange) <==> 0 <= workerId <= MAX_WORKER_ID && !(0 <= datacenterId <= MAX_DATACENTER_ID)
  {
    if workerId > MAX_WORKER_ID || workerId < 0 then Some(WorkerIdOutOfRange)
    else if datacenterId > MAX_DATACENTER_ID || datacenterId < 0 then Some(DatacenterIdOutOfRange)
    else None
  }

  /** Some reading at index `from` or later shows a time after `last`. */
  predicate ClockPasses(clock: seq<int>, from: nat, last: int) {
    exists i :: from <= i < |clock| && clock[i] > last
  }

  class SnowflakeIdGenerator {
    const workerId: int
    const datacenterId: int
    var sequence: int
    var lastTimestamp: int

    ghost predicate Valid()
      reads this
    {
      Fits(datacenterId, workerId, sequence)
    }

    constructor (datacenterId: int, workerId: int)
      requires CheckIds(datacenterId, workerId).None?
      ensures Valid()
      ensures this.datacenterId == datacenterId && this.workerId == workerId
      ensures sequence == 0 && lastTimestamp == -1
    {
      this.workerId := workerId;
      this.datacenterId := datacenterId;
      sequence := 0;
      lastTimestamp := -1;
    }

    /** `new SnowflakeIdGenerator(datacenterId, workerId)`, which throws on an id outside [0, 31]. */
    static method Create(datacenterId: int, workerId: int) returns (r: Result<SnowflakeIdGenerator, GeneratorError>)
      ensures CheckIds(datacenterId, workerId).Some? ==> r == Err(CheckIds(datacenterId, workerId).value)
      ensures CheckIds(datacenterId, workerId).None? ==>
        && r.Ok? && fresh(r.value) && r.value.Valid()
        && r.value.datacenterId == datacenterId && r.value.workerId == workerId
        && r.value.sequence == 0 && r.value.lastTimestamp == -1
    {
      var check := CheckIds(datacenterId, workerId);
      if check.Some? {
        return Err(check.value);
      }
      var g := new SnowflakeIdGenerator(datacenterId, workerId);
      return Ok(g);
    }

    /**
     * `waitNextMillis`: keeps reading the clock, from reading `next` on,
     * until it shows a time after `lastTimestamp`; `used` is the index of
     * the first reading not consumed.
     */
    method WaitNextMillis(current: int, clock: seq<int>, next: nat) returns (ts: int, used: nat)
      requires current > lastTimestamp || ClockPasses(clock, next, lastTimestamp)
      ensures ts > lastTimestamp
      ensures current > lastTimestamp ==> ts == current && used == next
      ensures current <= lastTimestamp ==>
        && next < used <= |clock| && ts == clock[used - 1]
        && forall j :: next <= j < used - 1 ==> clock[j] <= lastTimestamp
    {
      ts, used := current, next;
      while ts <= lastTimestamp
        invariant next <= used
        invariant ts <= lastTimestamp ==> ClockPasses(clock, used, lastTimestamp)
        invariant current > lastTimestamp ==> ts == current && used == next
        invariant current <= lastTimestamp && used > next ==> used <= |clock| && ts == clock[used - 1]
        invariant current <= lastTimestamp ==> forall j :: next <= j < used - 1 ==> clock[j] <= lastTimestamp
        invariant current <= lastTimestamp ==> used > next || ts == current
        decreases |clock| - used
      {
        ts := clock[used];
        used := used + 1;
      }
    }

    /** `nextId()`. */
    method NextId(clock: seq<int>) returns (r: Result<int, GeneratorError>)
      requires Valid()
      requires |clock| > 0
      requires clock[0] == lastTimestamp && (sequence + 1) % TWO_12 == 0 ==> ClockPasses(clock, 1, lastTimestamp)
      modifies this
      ensures Valid()
      ensures clock[0] < old(lastTimestamp) ==>
        r == Err(ClockMovedBackwards) && sequence == old(sequence) && lastTimestamp == old(lastTimestamp)
      ensures clock[0] >= old(lastTimestamp) ==> r.Ok?
      ensures r.Ok? ==> r.value == IdOf(lastTimestamp, datacenterId, workerId, sequence)
      ensures r.Ok? ==> Advanced(old(lastTimestamp), old(sequence), lastTimestamp, sequence)
      ensures r.Ok? && clock[0] > old(lastTimestamp) ==> sequence == 0 && lastTimestamp == clock[0]
      ensures r.Ok? && clock[0] == old(lastTimestamp) ==> sequence == (old(sequence) + 1) % TWO_12
      ensures r.Ok? && clock[0] == old(lastTimestamp) && sequence != 0 ==> lastTimestamp == clock[0]
      ensures r.Ok? && clock[0] == old(lastTimestamp) && sequence == 0 ==>
        lastTimestamp > old(lastTimestamp) && lastTimestamp in clock[1..]
      ensures r.Ok? && InEpoch(lastTimestamp) ==>
        TimestampOf(r.value) == lastTimestamp && SequenceOf(r.value) == sequence
    {
      var currentTimestamp := clock[0];
      if currentTimestamp < lastTimestamp {
        return Err(ClockMovedBackwards);
      }
      if currentTimestamp == lastTimestamp {
        sequence := (sequence + 1) % TWO_12;
        if sequence == 0 {
          var used;
          currentTimestamp, used := WaitNextMillis(currentTimestamp, clock, 1);
        }
      } else {
        sequence := 0;
      }
      lastTimestamp := currentTimestamp;
      if InEpoch(lastTimestamp) {
        IdFieldsRoundTrip(lastTimestamp, datacenterId, workerId, sequence);
      }
      return Ok(IdOf(currentTimestamp, datacenterId, workerId, sequence));
    }
  }

  /**
   * Two successful calls on one generator return increasing, hence
   * distinct, ids: the second call's state has `Advanced` past the first's,
   * and each call returns the id of its own state.
   */
  lemma SuccessiveIdsIncrease(g1: (int, int), g2: (int, int), datacenterId: int, workerId: int)
    requires Fits(datacenterId, workerId, g1.1) && Fits(datacenterId, workerId, g2.1)
    requires InEpoch(g1.0) && InEpoch(g2.0)
    requires Advanced(g1.0, g1.1, g2.0, g2.1)
    ensures IdOf(g1.0, datacenterId, workerId, g1.1) != IdOf(g2.0, datacenterId, workerId, g2.1)
    ensures IdOf(g1.0, datacenterId, workerId, g1.1) < IdOf(g2.0, datacenterId, workerId, g2.1)
  {
    IdsIncrease(g1.0, g1.1, g2.0, g2.1, datacenterId, workerId);
  }
}
