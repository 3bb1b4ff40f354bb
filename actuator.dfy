/** The stepper that moves the antenna along the rail (`PhidgetStepper` of
    Stepper.py): a scripted device whose moving-flag readings are given in
    advance, and a log of what the driver asked of it. */
module Actuator {
  import opened Wrappers

  /** One rotation of the shaft moves the carriage 2 mm along the rail, so a
      requested position is halved (Python 3's `1/2`). */
  const ShaftConversion: real := 0.5

  /** The poll interval of `wait_to_settle`, in milliseconds. */
  const PollMillis: nat := 10

  /** What the driver does with the device: set a target, read the moving
      flag, sleep between reads, read the position, close the channel. */
  datatype StepperEvent =
    | Target(position: real)
    | MovingRead(moving: bool)
    | Sleep(ms: nat)
    | PositionRead(position: real)
    | ChannelClosed

  /** The index of the first "not moving" reading. */
  function FirstStop(readings: seq<bool>): (k: nat)
    requires false in readings
    ensures k < |readings| && !readings[k]
    ensures forall j :: 0 <= j < k ==> readings[j]
  {
    if !readings[0] then 0 else FirstStop(readings[1..]) + 1
  }

  /** The log of a poll over `readings`: each reading, with a sleep between
      one reading and the next. */
  function Polls(readings: seq<bool>): (e: seq<StepperEvent>)
    requires readings != []
  {
    if |readings| == 1 then [MovingRead(readings[0])]
    else [MovingRead(readings[0]), Sleep(PollMillis)] + Polls(readings[1..])
  }

  lemma {:induction false} PollsSnoc(readings: seq<bool>, r: bool)
    requires readings != []
    ensures Polls(readings + [r]) == Polls(readings) + [Sleep(PollMillis), MovingRead(r)]
    decreases |readings|
  {
    if |readings| == 1 {
      assert (readings + [r])[1..] == [r];
    } else {
      assert (readings + [r])[1..] == readings[1..] + [r];
      PollsSnoc(readings[1..], r);
    }
  }

  /** A poll of n readings is n reads and n - 1 sleeps, alternating, starting
      and ending with a read; the reads are the readings in order. */
  lemma {:induction false} PollsShape(readings: seq<bool>)
    requires readings != []
    ensures |Polls(readings)| == 2 * |readings| - 1
    ensures forall i :: 0 <= i < |readings| ==> Polls(readings)[2 * i] == MovingRead(readings[i])
    ensures forall i :: 0 <= i < |readings| - 1 ==> Polls(readings)[2 * i + 1] == Sleep(PollMillis)
    decreases |readings|
  {
    if |readings| > 1 {
      PollsShape(readings[1..]);
      var e := Polls(readings);
      assert e == [MovingRead(readings[0]), Sleep(PollMillis)] + Polls(readings[1..]);
      forall i | 1 <= i < |readings| ensures e[2 * i] == MovingRead(readings[i]) {
        assert e[2 * i] == Polls(readings[1..])[2 * (i - 1)];
      }
      forall i | 1 <= i < |readings| - 1 ensures e[2 * i + 1] == Sleep(PollMillis) {
        assert e[2 * i + 1] == Polls(readings[1..])[2 * (i - 1) + 1];
      }
    }
  }

  /** What one `wait_to_settle` adds to the log: the poll up to and
      including the first "not moving" reading, then one position read. */
  function SettleLog(readings: seq<bool>, position: real): seq<StepperEvent>
    requires false in readings
  {
    Polls(readings[..FirstStop(readings) + 1]) + [PositionRead(position)]
  }

  /** When the first reading already says "not moving" there is no sleep
      and no further reading. */
  lemma SettleAtOnce(readings: seq<bool>, position: real)
    requires readings != [] && !readings[0]
    ensures SettleLog(readings, position) == [MovingRead(false), PositionRead(position)]
  {
    assert readings[..1] == [false];
  }

  /** A settle reads the flag once more than it sleeps, sleeps exactly as
      often as it read "moving", and reads the position once, last, after
      the "not moving" reading. */
  lemma SettleShape(readings: seq<bool>, position: real)
    requires false in readings
    ensures var k := FirstStop(readings); var e := SettleLog(readings, position);
      && |e| == 2 * k + 2
      && (forall i :: 0 <= i < k ==> e[2 * i] == MovingRead(true) && e[2 * i + 1] == Sleep(PollMillis))
      && e[2 * k] == MovingRead(false)
      && e[2 * k + 1] == PositionRead(position)
      && (forall i :: 0 <= i < |e| - 1 ==> !e[i].PositionRead?)
  {
    var k := FirstStop(readings);
    var polled := readings[..k + 1];
    PollsShape(polled);
    var e := SettleLog(readings, position);
    assert e[..2 * k + 1] == Polls(polled);
    forall i | 0 <= i < |e| - 1 ensures !e[i].PositionRead? {
      assert e[i] == Polls(polled)[i];
      if i % 2 == 0 {
        assert Polls(polled)[2 * (i / 2)].MovingRead?;
      } else {
        assert Polls(polled)[2 * (i / 2) + 1].Sleep?;
      }
    }
  }

  /** How many more settles the scripted readings allow: one per "not
      moving" reading. */
  function Stops(readings: seq<bool>): nat {
    if readings == [] then 0 else (if readings[0] then 0 else 1) + Stops(readings[1..])
  }

  /** A settle uses up exactly one "not moving" reading. */
  lemma {:induction false} SettleUsesOneStop(readings: seq<bool>)
    requires false in readings
    ensures Stops(readings[FirstStop(readings) + 1..]) == Stops(readings) - 1
    decreases |readings|
  {
    if readings[0] {
      assert false in readings[1..] by {
        var k := FirstStop(readings);
        assert readings[1..][k - 1] == false;
      }
      SettleUsesOneStop(readings[1..]);
      assert readings[FirstStop(readings) + 1..] == readings[1..][FirstStop(readings[1..]) + 1..];
    }
  }

  /** There is a settle left exactly when a "not moving" reading is to come. */
  lemma {:induction false} StopsCountsStops(readings: seq<bool>)
    ensures Stops(readings) > 0 <==> false in readings
    decreases |readings|
  {
    if readings != [] {
      StopsCountsStops(readings[1..]);
      assert readings == [readings[0]] + readings[1..];
    }
  }

  /** One more turn of the poll loop: while every reading so far said
      "moving", a "not moving" one is still to come, and the log grows by a
      sleep and the next reading. */
  lemma PollNext(all: seq<bool>, n: nat)
    requires false in all && 1 <= n <= |all|
    requires forall j :: 0 <= j < n ==> all[j]
    ensures n < |all|
    ensures all[n..] == [all[n]] + all[n + 1..]
    ensures Polls(all[..n + 1]) == Polls(all[..n]) + [Sleep(PollMillis), MovingRead(all[n])]
  {
    var k := FirstStop(all);
    assert n <= k;
    PollsSnoc(all[..n], all[n]);
    assert all[..n + 1] == all[..n] + [all[n]];
  }

  class Stepper {
    /** The moving-flag readings the device will give, in order. */
    var readings: seq<bool>
    /** The position the device reports. */
    var position: real
    /** What the driver has asked of the device so far. */
    var log: seq<StepperEvent>
    var open: bool

    constructor (readings: seq<bool>, position: real)
      ensures this.readings == readings && this.position == position && log == [] && open
    {
      this.readings := readings;
      this.position := position;
      log := [];
      open := true;
    }

    /** `set_target_absolute_position`: the device target is the requested
        position times the shaft conversion. */
    method SetTargetAbsolutePosition(requested: int)
      modifies this`log
      ensures log == old(log) + [Target(requested as real * ShaftConversion)]
    {
      log := log + [Target(requested as real * ShaftConversion)];
    }

    /** `wait_to_settle`: read the flag, and while it says "moving" sleep and
        read again; then read the position once. Returns the flag, which is
        then always false. The loop has no bound of its own, so the readings
        must hold a "not moving" one. */
    method WaitToSettle() returns (moving: bool)
      requires false in readings
      modifies this`readings, this`log
      ensures !moving
      ensures readings == old(readings)[FirstStop(old(readings)) + 1..]
      ensures log == old(log) + SettleLog(old(readings), position)
    {
      ghost var all := readings;
      ghost var start := log;
      ghost var n: nat := 1;
      moving := readings[0];
      readings := readings[1..];
      log := log + [MovingRead(moving)];
      assert all[..1] == [moving];
      while moving
        invariant 1 <= n <= |all| && readings == all[n..]
        invariant moving == all[n - 1]
        invariant forall j :: 0 <= j < n - 1 ==> all[j]
        invariant log == start + Polls(all[..n])
        decreases |all| - n
      {
        PollNext(all, n);
        log := log + [Sleep(PollMillis)];
        moving := readings[0];
        readings := readings[1..];
        log := log + [MovingRead(moving)];
        n := n + 1;
      }
      assert FirstStop(all) == n - 1;
      log := log + [PositionRead(position)];
    }

    /** `close`: the channel is closed. */
    method Close()
      modifies this`open, this`log
      ensures !open && log == old(log) + [ChannelClosed]
    {
      open := false;
      log := log + [ChannelClosed];
    }
  }

  /** The readings left after `n` settles. */
  function Remaining(readings: seq<bool>, n: nat): (rest: seq<bool>)
    requires n <= Stops(readings)
    ensures Stops(rest) == Stops(readings) - n
  {
    if n == 0 then readings
    else
      var before := Remaining(readings, n - 1);
      StopsCountsStops(before);
      SettleUsesOneStop(before);
      before[FirstStop(before) + 1..]
  }

  /** The log of moving to each of `moves` in turn: the requested position
      set as target, then a settle over the readings the earlier settles
      left. */
  function MoveLog(moves: seq<int>, readings: seq<bool>, position: real): seq<StepperEvent>
    requires |moves| <= Stops(readings)
  {
    if moves == [] then []
    else
      var n := |moves| - 1;
      var before := Remaining(readings, n);
      StopsCountsStops(before);
      MoveLog(moves[..n], readings, position)
        + [Target(moves[n] as real * ShaftConversion)] + SettleLog(before, position)
  }

  /** One more settle takes the readings up to the next "not moving" one. */
  lemma RemainingNext(readings: seq<bool>, n: nat)
    requires n + 1 <= Stops(readings)
    ensures false in Remaining(readings, n)
    ensures Remaining(readings, n + 1) == Remaining(readings, n)[FirstStop(Remaining(readings, n)) + 1..]
  {
    StopsCountsStops(Remaining(readings, n));
  }

  /** The last move of a series is logged last: its target, then its
      settle over what the earlier settles left. */
  lemma MoveLogLast(moves: seq<int>, readings: seq<bool>, position: real)
    requires moves != [] && |moves| <= Stops(readings)
    ensures false in Remaining(readings, |moves| - 1)
    ensures MoveLog(moves, readings, position)
         == MoveLog(moves[..|moves| - 1], readings, position)
              + [Target(moves[|moves| - 1] as real * ShaftConversion)]
              + SettleLog(Remaining(readings, |moves| - 1), position)
  {
    StopsCountsStops(Remaining(readings, |moves| - 1));
  }

  /** One more move adds its target and its settle to the log. */
  lemma MoveLogSnoc(moves: seq<int>, m: int, readings: seq<bool>, position: real)
    requires |moves| + 1 <= Stops(readings)
    ensures false in Remaining(readings, |moves|)
    ensures MoveLog(moves + [m], readings, position)
         == MoveLog(moves, readings, position)
              + [Target(m as real * ShaftConversion)] + SettleLog(Remaining(readings, |moves|), position)
  {
    var ms := moves + [m];
    MoveLogLast(ms, readings, position);
    assert ms[..|ms| - 1] == moves && ms[|ms| - 1] == m;
  }

  /** A stepper that had logged `start` with `readings` to come has since
      done `moves`: the log holds their targets and settles, and the
      readings left are those after their settles. */
  ghost predicate Moved(start: seq<StepperEvent>, readings: seq<bool>, moves: seq<int>, position: real,
                        log: seq<StepperEvent>, left: seq<bool>)
  {
    && |moves| <= Stops(readings)
    && left == Remaining(readings, |moves|)
    && log == start + MoveLog(moves, readings, position)
  }

  /** Nothing done yet. */
  lemma MovedNone(start: seq<StepperEvent>, readings: seq<bool>, position: real)
    ensures Moved(start, readings, [], position, start, readings)
  {
    assert start + [] == start;
  }

  /** What a series of moves leaves, spelled out, with whatever is logged
      after it. */
  lemma MovedThen(start: seq<StepperEvent>, readings: seq<bool>, moves: seq<int>, position: real,
                  log: seq<StepperEvent>, left: seq<bool>, closing: seq<StepperEvent>)
    requires Moved(start, readings, moves, position, log, left)
    ensures |moves| <= Stops(readings) && left == Remaining(readings, |moves|)
    ensures log + closing == start + MoveLog(moves, readings, position) + closing
  {
  }

  /** A stepper that has made fewer moves than its readings allow settles
      once more. */
  lemma MovesLeft(start: seq<StepperEvent>, readings: seq<bool>, moves: seq<int>, position: real,
                  log: seq<StepperEvent>, left: seq<bool>)
    requires |moves| < Stops(readings) && Moved(start, readings, moves, position, log, left)
    ensures false in left
  {
    StopsCountsStops(left);
  }

  /** After a series of moves, setting one more target and settling
      extends the series by that move. */
  lemma MovedNext(start: seq<StepperEvent>, readings: seq<bool>, moves: seq<int>, m: int, position: real,
                  log: seq<StepperEvent>, left: seq<bool>)
    requires |moves| + 1 <= Stops(readings) && Moved(start, readings, moves, position, log, left)
    ensures false in left
    ensures Moved(start, readings, moves + [m], position,
                  log + [Target(m as real * ShaftConversion)] + SettleLog(left, position),
                  left[FirstStop(left) + 1..])
  {
    RemainingNext(readings, |moves|);
    MoveLogSnoc(moves, m, readings, position);
    var done := MoveLog(moves, readings, position);
    var step := [Target(m as real * ShaftConversion)];
    var settle := SettleLog(left, position);
    assert MoveLog(moves + [m], readings, position) == done + step + settle;
    AppendTwice(start, done, step);
    AppendTwice(start, done + step, settle);
    assert log + step + settle == start + MoveLog(moves + [m], readings, position);
    assert |moves + [m]| == |moves| + 1;
  }

  /** The targets set, in order. */
  function Targets(log: seq<StepperEvent>): seq<real>
  {
    if log == [] then []
    else (if log[0].Target? then [log[0].position] else []) + Targets(log[1..])
  }

  lemma {:induction false} TargetsAppend(a: seq<StepperEvent>, b: seq<StepperEvent>)
    ensures Targets(a + b) == Targets(a) + Targets(b)
    decreases |a|
  {
    if a == [] {
      assert a + b == b;
    } else {
      var head := if a[0].Target? then [a[0].position] else [];
      assert (a + b)[0] == a[0] && (a + b)[1..] == a[1..] + b;
      assert Targets(a + b) == head + Targets(a[1..] + b);
      TargetsAppend(a[1..], b);
      assert Targets(a) == head + Targets(a[1..]);
    }
  }

  /** Polling sets no target. */
  lemma {:induction false} PollsSetNoTarget(readings: seq<bool>)
    requires readings != []
    ensures Targets(Polls(readings)) == []
    decreases |readings|
  {
    var head := [MovingRead(readings[0])];
    assert Targets(head) == [] + Targets([]);
    if |readings| > 1 {
      var pair := [MovingRead(readings[0]), Sleep(PollMillis)];
      assert Targets(pair) == [] + Targets(pair[1..]);
      assert Targets(pair[1..]) == [] + Targets([]);
      PollsSetNoTarget(readings[1..]);
      TargetsAppend(pair, Polls(readings[1..]));
    }
  }

  /** A settle sets no target. */
  lemma SettleSetsNoTarget(readings: seq<bool>, position: real)
    requires false in readings
    ensures Targets(SettleLog(readings, position)) == []
  {
    PollsSetNoTarget(readings[..FirstStop(readings) + 1]);
    TargetsAppend(Polls(readings[..FirstStop(readings) + 1]), [PositionRead(position)]);
    assert Targets([PositionRead(position)]) == [] + Targets([]);
  }

  /** Each requested position halved: the shaft turns once per 2 mm. */
  function Halved(moves: seq<int>): (ts: seq<real>)
    ensures |ts| == |moves|
  {
    seq(|moves|, i requires 0 <= i < |moves| => moves[i] as real * ShaftConversion)
  }

  /** The targets logged by a series of moves are the requested positions,
      each halved, in order: one target per move and no other. */
  lemma {:induction false} MoveLogTargets(moves: seq<int>, readings: seq<bool>, position: real)
    requires |moves| <= Stops(readings)
    ensures Targets(MoveLog(moves, readings, position)) == Halved(moves)
    decreases |moves|
  {
    if moves != [] {
      var n := |moves| - 1;
      var x := moves[n] as real * ShaftConversion;
      MoveLogLast(moves, readings, position);
      var a := MoveLog(moves[..n], readings, position);
      var t := [Target(x)];
      var b := SettleLog(Remaining(readings, n), position);
      MoveLogTargets(moves[..n], readings, position);
      TargetsAppend(a + t, b);
      TargetsAppend(a, t);
      SettleSetsNoTarget(Remaining(readings, n), position);
      assert Targets(t) == [x] + Targets([]);
      HalvedSnoc(moves);
    }
  }

  /** Halving a series of moves one more move long halves that move last. */
  lemma HalvedSnoc(moves: seq<int>)
    requires moves != []
    ensures Halved(moves) == Halved(moves[..|moves| - 1]) + [moves[|moves| - 1] as real * ShaftConversion]
  {
  }
}
