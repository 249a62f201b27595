/**
  The identifier generator as an object: an immutable layout fixed at
  construction and the two fields `lastTimestamp` and `sequence` that every
  `NextId` call updates in place. Clock reads are supplied by the caller.
*/
module Generator {
  import opened Bits
  import opened Wrappers
  import opened Snowflake

  class SnowflakeGenerator {
    const layout: Layout
    var sequence: nat
    var lastTimestamp: int

    ghost predicate Valid()
      reads this
    {
      WellFormed(layout) && sequence <= layout.maxSequence
    }

    /** The mutable state as a value. */
    function Current(): State
      reads this
    {
      State(lastTimestamp, sequence)
    }

    /** A generator over an already validated layout: no timestamp used yet, sequence 0. */
    constructor (l: Layout)
      requires WellFormed(l)
      ensures Valid() && layout == l && Current() == Initial
    {
      layout := l;
      sequence := 0;
      lastTimestamp := -1;
    }

    /** Construction from configuration: fails exactly when the worker id does not fit its bits. */
    static method Create(config: GeneratorConfig) returns (r: Result<SnowflakeGenerator, ConfigError>)
      ensures r.Success? <==> 0 <= config.id < Pow2(config.generatorIdBits)
      ensures r.Failure? ==> Configure(config) == Failure(r.error)
      ensures r.Success? ==>
        && fresh(r.value)
        && r.value.Valid()
        && Configure(config) == Success(r.value.layout)
        && r.value.Current() == Initial
    {
      match Configure(config)
      case Failure(e) =>
        r := Failure(e);
      case Success(l) =>
        var g := new SnowflakeGenerator(l);
        r := Success(g);
    }

    /**
      One identifier. `readings[0]` is the clock read at the start of the
      call; when the sequence of the current millisecond is exhausted, the
      wait loop reads `readings[1]`, `readings[2]`, ... until one is past
      `lastTimestamp`. A reading before `lastTimestamp` fails and changes
      nothing.
    */
    method NextId(readings: seq<int>) returns (r: Result<nat, ClockError>)
      requires Valid() && Readable(layout, Current(), readings)
      modifies this
      ensures Valid()
      ensures r.Failure? <==> readings[0] < old(lastTimestamp)
      ensures r.Failure? ==> r.error == ClockMovedBackwards && Current() == old(Current())
      ensures r.Success? ==> Before(old(Current()), Current())
      ensures r.Success? ==>
        && TimestampOf(layout, r.value) == lastTimestamp - layout.epoch
        && WorkerIdOf(layout, r.value) == layout.workerId
        && SequenceOf(layout, r.value) == sequence
      ensures match Step(layout, old(Current()), readings)
        case Failure(e) => r == Failure(e)
        case Success(issued) => r == Success(issued.id) && Current() == issued.next
    {
      ghost var step := Step(layout, Current(), readings);
      var timestamp := readings[0];
      if timestamp < lastTimestamp {
        r := Failure(ClockMovedBackwards);
        return;
      }
      if timestamp == lastTimestamp {
        AndLowMask(sequence + 1, layout.workerIdShift);
        sequence := And(sequence + 1, layout.maxSequence);
        if sequence == 0 {
          var i := 1;
          timestamp := readings[i];
          while timestamp <= lastTimestamp
            invariant 1 <= i < |readings| && timestamp == readings[i]
            invariant exists j :: i <= j < |readings| && readings[j] > lastTimestamp
            invariant NextMillisecond(readings, lastTimestamp, i) == NextMillisecond(readings, lastTimestamp, 1)
            decreases |readings| - i
          {
            i := i + 1;
            timestamp := readings[i];
          }
        }
        assert step.value.next == State(timestamp, sequence);
      } else {
        sequence := 0;
        assert step.value.next == State(timestamp, sequence);
      }
      lastTimestamp := timestamp;
      r := Success(Or(Or(ShiftLeft(timestamp - layout.epoch, layout.timestampShift),
                         ShiftLeft(layout.workerId, layout.workerIdShift)),
                      sequence));
      PackIsSum(layout, timestamp - layout.epoch, sequence);
      DecodePack(layout, timestamp - layout.epoch, sequence);
      StepAdvances(layout, old(Current()), readings);
      assert step == Success(Issued(Compose(layout, timestamp - layout.epoch, sequence), Current()));
    }
  }
}
