/**
  The Snowflake identifier layout and the one-call behaviour of the generator,
  as values. An identifier is `(timestamp - epoch) << timestampShift`,
  `workerId << workerIdShift` and the in-millisecond sequence OR-ed together;
  the generator's mutable state is the pair (lastTimestamp, sequence).
  Timestamps and the epoch are integers counting milliseconds since the Unix
  epoch.
*/
module Snowflake {
  import opened Bits
  import opened Wrappers

  /** The settings the host binds from configuration; `timestampBits` is carried but never read. */
  datatype GeneratorConfig = GeneratorConfig(
    id: int,
    epoch: int,
    timestampBits: int,
    generatorIdBits: nat,
    sequenceBits: nat)

  datatype ConfigError = WorkerIdOutOfRange(maxWorkerId: nat)

  datatype ClockError = ClockMovedBackwards

  /** The read-only fields a constructed generator holds. */
  datatype Layout = Layout(
    workerId: nat,
    epoch: int,
    maxWorkerId: nat,
    maxSequence: nat,
    timestampShift: nat,
    workerIdShift: nat)

  /** The shape every constructed generator has: the masks are all-ones below the shifts. */
  predicate WellFormed(l: Layout)
  {
    && l.workerIdShift <= l.timestampShift
    && l.maxSequence + 1 == Pow2(l.workerIdShift)
    && l.maxWorkerId + 1 == Pow2(l.timestampShift - l.workerIdShift)
    && l.workerId <= l.maxWorkerId
  }

  /**
    The constructor's precomputation and its one check: the worker id must lie
    in [0, 2^generatorIdBits - 1].
  */
  function Configure(c: GeneratorConfig): (r: Result<Layout, ConfigError>)
    ensures r.Success? <==> 0 <= c.id < Pow2(c.generatorIdBits)
    ensures r.Failure? ==> r.error.maxWorkerId + 1 == Pow2(c.generatorIdBits)
    ensures r.Success? ==>
      && WellFormed(r.value)
      && r.value.workerId == c.id
      && r.value.epoch == c.epoch
      && r.value.maxWorkerId + 1 == Pow2(c.generatorIdBits)
      && r.value.maxSequence + 1 == Pow2(c.sequenceBits)
      && r.value.workerIdShift == c.sequenceBits
      && r.value.timestampShift == c.generatorIdBits + c.sequenceBits
  {
    var maxWorkerId := ShiftLeft(1, c.generatorIdBits) - 1;
    var maxSequence := ShiftLeft(1, c.sequenceBits) - 1;
    var workerIdShift := c.sequenceBits;
    var timestampShift := c.generatorIdBits + c.sequenceBits;
    if c.id < 0 || c.id > maxWorkerId then
      Failure(WorkerIdOutOfRange(maxWorkerId))
    else
      Success(Layout(c.id, c.epoch, maxWorkerId, maxSequence, timestampShift, workerIdShift))
  }

  // ---------------------------------------------------------------------------
  // Packing and decoding

  /** The identifier as the generator computes it: the three fields OR-ed together. */
  function Pack(l: Layout, delta: nat, sequence: nat): nat
  {
    Or(Or(ShiftLeft(delta, l.timestampShift), ShiftLeft(l.workerId, l.workerIdShift)), sequence)
  }

  /** The identifier as a sum of the three weighted fields. */
  function Compose(l: Layout, delta: nat, sequence: nat): nat
  {
    delta * Pow2(l.timestampShift) + l.workerId * Pow2(l.workerIdShift) + sequence
  }

  function TimestampOf(l: Layout, id: nat): nat
  {
    ShiftRight(id, l.timestampShift)
  }

  function WorkerIdOf(l: Layout, id: nat): nat
  {
    And(ShiftRight(id, l.workerIdShift), l.maxWorkerId)
  }

  function SequenceOf(l: Layout, id: nat): nat
  {
    And(id, l.maxSequence)
  }

  /** The worker id and sequence together stay below 2^timestampShift. */
  lemma LowFieldsBelow(l: Layout, sequence: nat)
    requires WellFormed(l) && sequence <= l.maxSequence
    ensures Pow2(l.timestampShift) == Pow2(l.timestampShift - l.workerIdShift) * Pow2(l.workerIdShift)
    ensures l.workerId * Pow2(l.workerIdShift) + sequence < Pow2(l.timestampShift)
  {
    var a, b := l.timestampShift - l.workerIdShift, l.workerIdShift;
    Pow2Add(a, b);
    MulMonotone(l.workerId + 1, Pow2(a), Pow2(b));
    MulDistrib(l.workerId, 1, Pow2(b));
  }

  /** The timestamp and worker id fields together are (delta << (timestampShift - workerIdShift)) + workerId shifted by workerIdShift. */
  lemma UpperSplit(l: Layout, delta: nat)
    requires WellFormed(l)
    ensures var a, b := l.timestampShift - l.workerIdShift, l.workerIdShift;
      delta * Pow2(l.timestampShift) + l.workerId * Pow2(b) == (delta * Pow2(a) + l.workerId) * Pow2(b)
  {
    var a, b := l.timestampShift - l.workerIdShift, l.workerIdShift;
    Pow2Add(a, b);
    MulAssoc(delta, Pow2(a), Pow2(b));
    MulDistrib(delta * Pow2(a), l.workerId, Pow2(b));
  }

  /** The fields do not overlap, so OR-ing them is adding them. */
  lemma PackIsSum(l: Layout, delta: nat, sequence: nat)
    requires WellFormed(l) && sequence <= l.maxSequence
    ensures Pack(l, delta, sequence) == Compose(l, delta, sequence)
  {
    var a, b := l.timestampShift - l.workerIdShift, l.workerIdShift;
    var high, low := delta * Pow2(l.timestampShift), l.workerId * Pow2(b);
    LowFieldsBelow(l, sequence);
    OrDisjoint(delta, low, l.timestampShift);
    assert Or(high, low) == high + low;
    var upper := delta * Pow2(a) + l.workerId;
    UpperSplit(l, delta);
    assert high + low == ShiftLeft(upper, b);
    OrDisjoint(upper, sequence, b);
  }

  /** Every identifier decodes back to the timestamp delta, the worker id and the sequence it was packed from. */
  lemma DecodePack(l: Layout, delta: nat, sequence: nat)
    requires WellFormed(l) && sequence <= l.maxSequence
    ensures TimestampOf(l, Pack(l, delta, sequence)) == delta
    ensures WorkerIdOf(l, Pack(l, delta, sequence)) == l.workerId
    ensures SequenceOf(l, Pack(l, delta, sequence)) == sequence
  {
    var a, b := l.timestampShift - l.workerIdShift, l.workerIdShift;
    var id := Pack(l, delta, sequence);
    var low := l.workerId * Pow2(b);
    PackIsSum(l, delta, sequence);
    assert id == ShiftLeft(delta, l.timestampShift) + (low + sequence);
    LowFieldsBelow(l, sequence);
    ShiftRightDrops(delta, low + sequence, l.timestampShift);
    var upper := delta * Pow2(a) + l.workerId;
    UpperSplit(l, delta);
    assert id == ShiftLeft(upper, b) + sequence;
    ShiftRightDrops(upper, sequence, b);
    assert ShiftRight(id, b) == upper;
    AndLowMask(upper, a);
    ShiftRightDrops(delta, l.workerId, a);
    AndLowMask(id, b);
  }

  /** Two generators that share a layout but not a worker id never issue the same identifier. */
  lemma DistinctWorkersNeverCollide(l1: Layout, l2: Layout, d1: nat, s1: nat, d2: nat, s2: nat)
    requires WellFormed(l1) && WellFormed(l2)
    requires l1.timestampShift == l2.timestampShift && l1.workerIdShift == l2.workerIdShift
    requires l1.workerId != l2.workerId
    requires s1 <= l1.maxSequence && s2 <= l2.maxSequence
    ensures Pack(l1, d1, s1) != Pack(l2, d2, s2)
  {
    DecodePack(l1, d1, s1);
    DecodePack(l2, d2, s2);
  }

  /** A later (delta, sequence) pair, in lexicographic order, gives a larger identifier. */
  lemma ComposeMonotone(l: Layout, d1: nat, s1: nat, d2: nat, s2: nat)
    requires WellFormed(l) && s1 <= l.maxSequence && s2 <= l.maxSequence
    requires d1 < d2 || (d1 == d2 && s1 < s2)
    ensures Compose(l, d1, s1) < Compose(l, d2, s2)
  {
    if d1 < d2 {
      var t := Pow2(l.timestampShift);
      var w := l.workerId * Pow2(l.workerIdShift);
      LowFieldsBelow(l, s1);
      MulMonotone(d1 + 1, d2, t);
      MulDistrib(d1, 1, t);
      assert Compose(l, d1, s1) == d1 * t + (w + s1);
      assert Compose(l, d2, s2) == d2 * t + (w + s2);
    }
  }

  /** With a delta below 2^(63 - timestampShift) the identifier fits a non-negative C# long. */
  lemma PackFitsInLong(l: Layout, delta: nat, sequence: nat)
    requires WellFormed(l) && sequence <= l.maxSequence
    requires l.timestampShift <= 63 && delta < Pow2(63 - l.timestampShift)
    ensures Pack(l, delta, sequence) < Pow2(63)
  {
    PackIsSum(l, delta, sequence);
    LowFieldsBelow(l, sequence);
    MulMonotone(delta + 1, Pow2(63 - l.timestampShift), Pow2(l.timestampShift));
    Pow2Add(63 - l.timestampShift, l.timestampShift);
  }

  // ---------------------------------------------------------------------------
  // One call of NextId

  /** The mutable part of a generator. */
  datatype State = State(lastTimestamp: int, sequence: nat)

  /** A freshly constructed generator: no timestamp used yet (sentinel -1), sequence 0. */
  const Initial := State(-1, 0)

  /** (lastTimestamp, sequence) ordered lexicographically. */
  predicate Before(s: State, t: State)
  {
    s.lastTimestamp < t.lastTimestamp ||
    (s.lastTimestamp == t.lastTimestamp && s.sequence < t.sequence)
  }

  /** Some clock reading after the first one is past `t`. */
  predicate ClockPasses(readings: seq<int>, t: int)
  {
    exists j :: 0 < j < |readings| && readings[j] > t
  }

  /**
    The readings one call makes: `readings[0]` is the first clock read and
    `readings[1..]` are the reads of the wait loop. A first reading that does
    not fail (one not before `lastTimestamp`) must not precede the epoch and,
    when this call exhausts the sequence of its millisecond, some later
    reading must pass it (a clock that never moves on again would make the
    call spin forever).
  */
  predicate Readable(l: Layout, s: State, readings: seq<int>)
  {
    && |readings| > 0
    && (readings[0] >= s.lastTimestamp ==> readings[0] >= l.epoch)
    && (readings[0] == s.lastTimestamp && (s.sequence + 1) % (l.maxSequence + 1) == 0 ==>
          ClockPasses(readings, s.lastTimestamp))
  }

  /** The value the wait loop leaves behind: the first reading from index `from` on that is past `t`. */
  function NextMillisecond(readings: seq<int>, t: int, from: nat): (r: int)
    requires exists j :: from <= j < |readings| && readings[j] > t
    ensures r > t
    ensures exists j :: from <= j < |readings| && readings[j] == r &&
                        forall k :: from <= k < j ==> readings[k] <= t
    decreases |readings| - from
  {
    if readings[from] > t then readings[from] else NextMillisecond(readings, t, from + 1)
  }

  datatype Issued = Issued(id: nat, next: State)

  /**
    One NextId call from state `s`: a clock reading before the last timestamp
    fails; the same millisecond bumps the sequence modulo maxSequence + 1 and,
    on wrap-around, waits for a later millisecond; a newer millisecond resets
    the sequence to 0.
  */
  function Step(l: Layout, s: State, readings: seq<int>): (r: Result<Issued, ClockError>)
    requires WellFormed(l) && s.sequence <= l.maxSequence && Readable(l, s, readings)
    ensures r.Failure? <==> readings[0] < s.lastTimestamp
    ensures r.Success? ==> r.value.next.sequence <= l.maxSequence
    ensures r.Success? ==> r.value.next.lastTimestamp >= readings[0] >= l.epoch
  {
    var now := readings[0];
    if now < s.lastTimestamp then
      Failure(ClockMovedBackwards)
    else
      var next :=
        if now == s.lastTimestamp then
          var sequence := (s.sequence + 1) % (l.maxSequence + 1);
          if sequence == 0 then State(NextMillisecond(readings, s.lastTimestamp, 1), 0)
          else State(now, sequence)
        else
          State(now, 0);
      Success(Issued(Compose(l, next.lastTimestamp - l.epoch, next.sequence), next))
  }

  /** A successful call moves (lastTimestamp, sequence) strictly forward. */
  lemma StepAdvances(l: Layout, s: State, readings: seq<int>)
    requires WellFormed(l) && s.sequence <= l.maxSequence && Readable(l, s, readings)
    requires Step(l, s, readings).Success?
    ensures Before(s, Step(l, s, readings).value.next)
  {
    var now := readings[0];
    if now == s.lastTimestamp && s.sequence < l.maxSequence {
      DivModUnique(s.sequence + 1, l.maxSequence + 1, 0, s.sequence + 1);
    }
  }

  /** A clock set back before the epoch, behind an issued timestamp, is a clock that moved backwards. */
  lemma ClockBeforeEpochFails(l: Layout, s: State, readings: seq<int>)
    requires WellFormed(l) && s.sequence <= l.maxSequence
    requires |readings| > 0 && readings[0] < l.epoch <= s.lastTimestamp
    ensures Readable(l, s, readings)
    ensures Step(l, s, readings) == Failure(ClockMovedBackwards)
  {
  }

  /** The same millisecond continues the sequence; once it wraps, the timestamp used is a later one. */
  lemma StepSameMillisecond(l: Layout, s: State, readings: seq<int>)
    requires WellFormed(l) && s.sequence <= l.maxSequence && Readable(l, s, readings)
    requires readings[0] == s.lastTimestamp
    ensures var next := Step(l, s, readings).value.next;
      && next.sequence == (s.sequence + 1) % (l.maxSequence + 1)
      && (s.sequence < l.maxSequence ==> next == State(s.lastTimestamp, s.sequence + 1))
      && (s.sequence == l.maxSequence ==> next.sequence == 0 && next.lastTimestamp > s.lastTimestamp)
  {
    if s.sequence < l.maxSequence {
      DivModUnique(s.sequence + 1, l.maxSequence + 1, 0, s.sequence + 1);
    } else {
      DivModUnique(s.sequence + 1, l.maxSequence + 1, 1, 0);
    }
  }

  /** A newer millisecond restarts the sequence. */
  lemma StepNewMillisecond(l: Layout, s: State, readings: seq<int>)
    requires WellFormed(l) && s.sequence <= l.maxSequence && Readable(l, s, readings)
    requires readings[0] > s.lastTimestamp
    ensures Step(l, s, readings) == Success(Issued(Compose(l, readings[0] - l.epoch, 0), State(readings[0], 0)))
  {
  }

  /** The identifier a successful call returns encodes the state it leaves behind. */
  lemma StepEncodesState(l: Layout, s: State, readings: seq<int>)
    requires WellFormed(l) && s.sequence <= l.maxSequence && Readable(l, s, readings)
    requires Step(l, s, readings).Success?
    ensures var issued := Step(l, s, readings).value;
      && TimestampOf(l, issued.id) == issued.next.lastTimestamp - l.epoch
      && WorkerIdOf(l, issued.id) == l.workerId
      && SequenceOf(l, issued.id) == issued.next.sequence
  {
    var issued := Step(l, s, readings).value;
    PackIsSum(l, issued.next.lastTimestamp - l.epoch, issued.next.sequence);
    DecodePack(l, issued.next.lastTimestamp - l.epoch, issued.next.sequence);
  }

  /** The identifier of a state: defined once its timestamp is not before the epoch. */
  function IdOf(l: Layout, s: State): nat
    requires s.lastTimestamp >= l.epoch
  {
    Compose(l, s.lastTimestamp - l.epoch, s.sequence)
  }

  /** A successful call returns an identifier larger than that of the state it started from. */
  lemma StepIdIncreases(l: Layout, s: State, readings: seq<int>)
    requires WellFormed(l) && s.sequence <= l.maxSequence && Readable(l, s, readings)
    requires Step(l, s, readings).Success? && s.lastTimestamp >= l.epoch
    ensures IdOf(l, s) < Step(l, s, readings).value.id
  {
    var next := Step(l, s, readings).value.next;
    StepAdvances(l, s, readings);
    ComposeMonotone(l, s.lastTimestamp - l.epoch, s.sequence, next.lastTimestamp - l.epoch, next.sequence);
  }

  // ---------------------------------------------------------------------------
  // Successive calls on one generator

  /** Every call in `calls` can be made, each from the state the calls before it left. */
  predicate Feasible(l: Layout, s: State, calls: seq<seq<int>>)
    requires WellFormed(l) && s.sequence <= l.maxSequence
    decreases |calls|
  {
    calls == [] ||
    (Readable(l, s, calls[0]) &&
     match Step(l, s, calls[0])
     case Failure(_) => Feasible(l, s, calls[1..])
     case Success(issued) => Feasible(l, issued.next, calls[1..]))
  }

  /** The identifiers successive calls return; a failing call returns none and keeps the state. */
  function Run(l: Layout, s: State, calls: seq<seq<int>>): (ids: seq<nat>)
    requires WellFormed(l) && s.sequence <= l.maxSequence && Feasible(l, s, calls)
    ensures |ids| <= |calls|
    decreases |calls|
  {
    if calls == [] then []
    else match Step(l, s, calls[0])
      case Failure(_) => Run(l, s, calls[1..])
      case Success(issued) => [issued.id] + Run(l, issued.next, calls[1..])
  }

  predicate StrictlyIncreasing(ids: seq<nat>)
  {
    forall i, j :: 0 <= i < j < |ids| ==> ids[i] < ids[j]
  }

  /** The identifiers of successive calls strictly increase, starting above that of the current state. */
  lemma {:induction false} RunIncreases(l: Layout, s: State, calls: seq<seq<int>>)
    requires WellFormed(l) && s.sequence <= l.maxSequence && Feasible(l, s, calls)
    ensures StrictlyIncreasing(Run(l, s, calls))
    ensures s.lastTimestamp >= l.epoch ==> forall id :: id in Run(l, s, calls) ==> IdOf(l, s) < id
    decreases |calls|
  {
    if calls != [] {
      match Step(l, s, calls[0])
      case Failure(_) =>
        RunIncreases(l, s, calls[1..]);
      case Success(issued) =>
        RunIncreases(l, issued.next, calls[1..]);
        var rest := Run(l, issued.next, calls[1..]);
        var ids := [issued.id] + rest;
        assert Run(l, s, calls) == ids;
        assert issued.id == IdOf(l, issued.next);
        forall i, j | 0 <= i < j < |ids| ensures ids[i] < ids[j] {
          if i > 0 {
            assert ids[i] == rest[i - 1] && ids[j] == rest[j - 1];
          } else {
            assert ids[j] in rest;
          }
        }
        if s.lastTimestamp >= l.epoch {
          StepIdIncreases(l, s, calls[0]);
        }
    }
  }

  /** Every identifier a run returns carries this generator's worker id and a sequence within range. */
  lemma {:induction false} RunDecodes(l: Layout, s: State, calls: seq<seq<int>>)
    requires WellFormed(l) && s.sequence <= l.maxSequence && Feasible(l, s, calls)
    ensures forall id :: id in Run(l, s, calls) ==>
      WorkerIdOf(l, id) == l.workerId && SequenceOf(l, id) <= l.maxSequence
    decreases |calls|
  {
    if calls != [] {
      match Step(l, s, calls[0])
      case Failure(_) =>
        RunDecodes(l, s, calls[1..]);
      case Success(issued) =>
        RunDecodes(l, issued.next, calls[1..]);
        StepEncodesState(l, s, calls[0]);
    }
  }
}
