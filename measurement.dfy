/** The measurement script (measurement.py): connect to the network
    analyser, configure the sweep, visit every antenna position on the rail
    and save one fetch of S21 data per acquisition, return home, clean up.
    Each phase is a method over the scripted analyser and stepper, proved
    against a step function that says what the phase does on the bus. */
module Measurement {
  import opened Wrappers
  import opened Text
  import opened Bus
  import opened ErrorQueue
  import opened Payload
  import opened Session
  import opened Actuator
  import opened Scan

  /** The analyser's VISA resource string. */
  const Resource := "TCPIP::169.254.86.175::hislip0::INSTR"

  /** The sweep settings, with the numbers spelled as Python's `str` spells
      2.3E+9, 6.0E+9, 1.0E+3 and 7401. */
  const StartCommand := "SENS1:FREQ:STAR 2300000000.0"
  const StopCommand := "SENS1:FREQ:STOP 6000000000.0"
  const BandwidthCommand := "SENS1:BWID 1000.0"
  const PointsCommand := "SENS1:SWE:POIN 7401"

  /** The timeout while configuring, in milliseconds. */
  const SetupTimeout: real := 1500.0

  /** The timeout for the measurement, in milliseconds: the estimated sweep
      time (in seconds) in milliseconds, plus one second. */
  function AdaptiveTimeout(sweepSeconds: real): real {
    sweepSeconds * 1000.0 + 1000.0
  }

  /** What each phase writes to the analyser. */
  const ConnectCommands: set<string> := {IdnQuery, ClearStatusAndWait}
  const SweepCommands: set<string> :=
    {ByteOrderQuery, StartCommand, StopCommand, BandwidthCommand, PointsCommand, OpcQuery, StatusByteQuery, ErrorQueueQuery}
  const TimingCommands: set<string> :=
    {SweepTimeAuto, SweepTimeQuery, ContinuousOff, DisplayOff, OpcQuery, StatusByteQuery, ErrorQueueQuery}
  const AcquireCommands: set<string> := {TriggerAndWait, OpcQuery, DataQuery, StatusByteQuery, ErrorQueueQuery}
  /** Everything written before the cleanup. */
  const ScanCommands: set<string> := ConnectCommands + SweepCommands + TimingCommands + AcquireCommands

  /** A file written by `measure_and_save`: the position and the values
      fetched there. */
  datatype Record = Record(pos: int, hf: seq<Complex>)

  /** The positions of saved files, in the order they were written. */
  function Positions(files: seq<Record>): (ps: seq<int>)
    ensures |ps| == |files|
  {
    seq(|files|, i requires 0 <= i < |files| => files[i].pos)
  }

  lemma PositionsSnoc(files: seq<Record>, f: Record)
    ensures Positions(files + [f]) == Positions(files) + [f.pos]
  {
  }

  /** Connecting (lines 46-47): `ext_query('*IDN?')`, then `ext_clear_status`. */
  function ConnectStep(script: seq<string>): Step<()>
  {
    var idn := QueryStep(IdnQuery, script);
    if idn.result.Err? then Step(Err(idn.result.error), idn.rest, idn.events)
    else
      var clear := RawQueryStep(ClearStatusAndWait, idn.rest);
      Step(if clear.result.Ok? then Ok(()) else Err(clear.result.error), clear.rest,
           idn.events + [DeviceClear] + clear.events)
  }

  /** Connecting takes two replies, one per query, and times out on the
      first that does not come. */
  lemma ConnectLaw(script: seq<string>)
    ensures var s := ConnectStep(script);
      && (s.result.Ok? <==> |script| >= 2)
      && (s.result.Err? ==> s.result.error == Timeout)
      && (|script| >= 2 ==>
            && s.rest == script[2..]
            && s.events == [Sent(IdnQuery), Received(script[0]), DeviceClear,
                            Sent(ClearStatusAndWait), Received(script[1])])
      && SendsOnly(s.events, ConnectCommands)
  {
  }

  /** A phase that ends with `ext_error_checking`: when the phase itself
      went through, check the error queue, and keep the phase's result only
      if the check raises nothing. */
  function ThenCheck<T>(phase: Step<T>): Step<T>
  {
    if phase.result.Err? then phase
    else
      var check := ErrorCheckingStep(phase.rest, false);
      Step(if check.result.Ok? then phase.result else Err(check.result.error), check.rest, phase.events + check.events)
  }

  /** The check's writes follow the phase's. */
  lemma ThenCheckSends<T>(phase: Step<T>, cmds: set<string>)
    requires SendsOnly(phase.events, cmds) && StatusByteQuery in cmds && ErrorQueueQuery in cmds
    ensures SendsOnly(ThenCheck(phase).events, cmds)
    ensures phase.result.Ok? ==>
      Sends(ThenCheck(phase).events) == Sends(phase.events) + Sends(ErrorCheckingStep(phase.rest, false).events)
  {
    if phase.result.Ok? {
      var check := ErrorCheckingStep(phase.rest, false);
      CheckQueueSends(phase.rest, false);
      SendsOnlyWiden(check.events, {StatusByteQuery, ErrorQueueQuery}, cmds);
      SendsOnlyConcat(phase.events, check.events, cmds);
      SendsAppend(phase.events, check.events);
    }
  }

  /** A method that ran a phase and then `ext_error_checking` has done
      `ThenCheck` of the phase. */
  lemma ThenCheckTrace<T>(phase: Step<T>, start: seq<Event>, r: Outcome<Error>, rest: seq<string>, trace: seq<Event>)
    requires phase.result.Ok?
    requires var c := ErrorCheckingStep(phase.rest, false);
      && (r.Pass? <==> c.result.Ok?) && (r.Fail? ==> r.error == c.result.error)
      && rest == c.rest && trace == start + phase.events + c.events
    ensures var s := ThenCheck(phase);
      && (r.Pass? <==> s.result.Ok?) && (r.Pass? ==> s.result == phase.result) && (r.Fail? ==> s.result == Err(r.error))
      && rest == s.rest && trace == start + s.events
  {
  }

  /** The settings of the sweep (lines 50-59): ask the byte order and read
      it, write the start, stop, bandwidth and point count, wait for the OPC
      barrier. */
  function SweepSettings(script: seq<string>): Step<()>
  {
    var order := ReadStep(script);
    var e1 := [Sent(ByteOrderQuery)] + order.events;
    if order.result.Err? then Step(Err(order.result.error), order.rest, e1)
    else
      var opc := QueryStep(OpcQuery, order.rest);
      Step(if opc.result.Ok? then Ok(()) else Err(opc.result.error), opc.rest,
           e1 + [Sent(StartCommand), Sent(StopCommand), Sent(BandwidthCommand), Sent(PointsCommand)] + opc.events)
  }

  /** Configuring the sweep (lines 50-60): the settings, then the error check. */
  function SweepStep(script: seq<string>): Step<()>
  {
    ThenCheck(SweepSettings(script))
  }

  lemma SweepSettingsLaw(script: seq<string>)
    ensures var s := SweepSettings(script);
      && (s.result.Ok? <==> |script| >= 2)
      && (s.result.Err? ==> s.result.error == Timeout)
      && (|script| >= 2 ==> s.rest == script[2..])
      && SendsOnly(s.events, SweepCommands)
  {
  }

  lemma SweepSettingsOrder(script: seq<string>)
    requires |script| >= 2
    ensures Sends(SweepSettings(script).events)
      == [ByteOrderQuery, StartCommand, StopCommand, BandwidthCommand, PointsCommand, OpcQuery]
  {
    var e1 := [Sent(ByteOrderQuery), Received(script[0])];
    var settings := [Sent(StartCommand), Sent(StopCommand), Sent(BandwidthCommand), Sent(PointsCommand)];
    var opc := [Sent(OpcQuery), Received(script[1])];
    assert SweepSettings(script).events == (e1 + settings) + opc;
    SendsQuery(ByteOrderQuery, script[0]);
    SendsOfWrites(settings);
    SendsQuery(OpcQuery, script[1]);
    SendsAppend(e1, settings);
    SendsAppend(e1 + settings, opc);
  }

  /** Configuring the sweep writes the four settings in the order start,
      stop, bandwidth, points, after the byte-order query, then one OPC
      barrier and one error check; it succeeds exactly when both replies
      come and the error check raises nothing. */
  lemma SweepLaw(script: seq<string>)
    ensures var s := SweepStep(script);
      && (s.result.Ok? <==> |script| >= 2 && ErrorCheckingStep(script[2..], false).result.Ok?)
      && (s.result.Err? && |script| >= 2 ==> s.result == ErrorCheckingStep(script[2..], false).result)
      && (|script| < 2 ==> s.result == Err(Timeout))
      && (|script| >= 2 ==>
            Sends(s.events) == [ByteOrderQuery, StartCommand, StopCommand, BandwidthCommand, PointsCommand, OpcQuery]
                               + Sends(ErrorCheckingStep(script[2..], false).events))
      && SendsOnly(s.events, SweepCommands)
  {
    SweepSettingsLaw(script);
    if |script| >= 2 {
      SweepSettingsOrder(script);
    }
    ThenCheckSends(SweepSettings(script), SweepCommands);
  }

  /** The timing of the sweep (lines 62-71): have the analyser estimate the
      sweep time and read it with `float()`, write continuous sweeping and
      the display off, wait for the OPC barrier. The result is the estimated
      sweep time, in seconds. */
  function TimingSettings(script: seq<string>, toFloat: string -> Option<real>): Step<real>
  {
    var estimate := QueryStep(SweepTimeQuery, script);
    var e1 := [Sent(SweepTimeAuto)] + estimate.events;
    if estimate.result.Err? then Step(Err(estimate.result.error), estimate.rest, e1)
    else
      var seconds := toFloat(estimate.result.value);
      if seconds.None? then Step(Err(ValueError), estimate.rest, e1)
      else
        var opc := QueryStep(OpcQuery, estimate.rest);
        Step(if opc.result.Ok? then Ok(seconds.value) else Err(opc.result.error), opc.rest,
             e1 + [Sent(ContinuousOff), Sent(DisplayOff)] + opc.events)
  }

  /** Timing the sweep (lines 62-72): the timing, then the error check. */
  function TimingStep(script: seq<string>, toFloat: string -> Option<real>): Step<real>
  {
    ThenCheck(TimingSettings(script, toFloat))
  }

  lemma TimingSettingsLaw(script: seq<string>, toFloat: string -> Option<real>)
    ensures var s := TimingSettings(script, toFloat);
      && (s.result.Ok? <==> |script| >= 2 && toFloat(RStrip(script[0])).Some?)
      && (s.result.Ok? ==> s.result.value == toFloat(RStrip(script[0])).value && s.rest == script[2..])
      && (script != [] && toFloat(RStrip(script[0])).None? ==>
            s.result == Err(ValueError) && s.events == [Sent(SweepTimeAuto), Sent(SweepTimeQuery), Received(script[0])])
      && SendsOnly(s.events, TimingCommands)
  {
  }

  /** Timing succeeds exactly when the estimate reads as a number, the OPC
      reply comes and the error check raises nothing, and returns that
      number; a reply that is no number raises ValueError before anything
      else is written. */
  lemma TimingLaw(script: seq<string>, toFloat: string -> Option<real>)
    ensures var s := TimingStep(script, toFloat);
      && (s.result.Ok? <==>
            && |script| >= 2 && toFloat(RStrip(script[0])).Some?
            && ErrorCheckingStep(script[2..], false).result.Ok?)
      && (s.result.Ok? ==> s.result.value == toFloat(RStrip(script[0])).value)
      && (script != [] && toFloat(RStrip(script[0])).None? ==>
            s.result == Err(ValueError) && s.events == [Sent(SweepTimeAuto), Sent(SweepTimeQuery), Received(script[0])])
      && SendsOnly(s.events, TimingCommands)
  {
    TimingSettingsLaw(script, toFloat);
    ThenCheckSends(TimingSettings(script, toFloat), TimingCommands);
  }

  /** Configuring the analyser (lines 41-72): connect, configure the sweep,
      time it, stopping at the first phase that raises. The result is the
      estimated sweep time, in seconds. */
  function ConfigureStep(script: seq<string>, toFloat: string -> Option<real>): Step<real>
  {
    var connect := ConnectStep(script);
    if connect.result.Err? then Step(Err(connect.result.error), connect.rest, connect.events)
    else
      var sweep := SweepStep(connect.rest);
      if sweep.result.Err? then Step(Err(sweep.result.error), sweep.rest, connect.events + sweep.events)
      else
        var timing := TimingStep(sweep.rest, toFloat);
        Step(timing.result, timing.rest, connect.events + sweep.events + timing.events)
  }

  /** Configuring writes nothing but configuration commands; without the
      two connection replies it times out having written nothing but the
      connection's. */
  lemma ConfigureSends(script: seq<string>, toFloat: string -> Option<real>)
    ensures var s := ConfigureStep(script, toFloat);
      && SendsOnly(s.events, ConnectCommands + SweepCommands + TimingCommands)
      && (|script| < 2 ==> s.result == Err(Timeout) && SendsOnly(s.events, ConnectCommands))
  {
    var all := ConnectCommands + SweepCommands + TimingCommands;
    var connect := ConnectStep(script);
    ConnectLaw(script);
    SendsOnlyWiden(connect.events, ConnectCommands, all);
    if connect.result.Ok? {
      var sweep := SweepStep(connect.rest);
      SweepLaw(connect.rest);
      SendsOnlyWiden(sweep.events, SweepCommands, all);
      SendsOnlyConcat(connect.events, sweep.events, all);
      if sweep.result.Ok? {
        var timing := TimingStep(sweep.rest, toFloat);
        TimingLaw(sweep.rest, toFloat);
        SendsOnlyWiden(timing.events, TimingCommands, all);
        SendsOnlyConcat(connect.events + sweep.events, timing.events, all);
      }
    }
  }

  /** A connection that went through wrote the identity query, then the
      status clear. */
  lemma ConnectOrder(script: seq<string>)
    requires |script| >= 2
    ensures Sends(ConnectStep(script).events) == [IdnQuery, ClearStatusAndWait]
  {
    ConnectLaw(script);
    var c := [Sent(IdnQuery), Received(script[0])];
    var d := [DeviceClear, Sent(ClearStatusAndWait), Received(script[1])];
    assert ConnectStep(script).events == c + d;
    SendsQuery(IdnQuery, script[0]);
    assert d[1..] == [Sent(ClearStatusAndWait), Received(script[1])];
    SendsQuery(ClearStatusAndWait, script[1]);
    SendsAppend(c, d);
  }

  /** A configuration that succeeds has written the identity query and the
      status clear, then the byte-order query and the four sweep settings
      in order, then an OPC barrier, before anything else. */
  lemma ConfigureOrder(script: seq<string>, toFloat: string -> Option<real>)
    requires ConfigureStep(script, toFloat).result.Ok?
    ensures [IdnQuery, ClearStatusAndWait]
            + [ByteOrderQuery, StartCommand, StopCommand, BandwidthCommand, PointsCommand, OpcQuery]
            <= Sends(ConfigureStep(script, toFloat).events)
  {
    var connect := ConnectStep(script);
    ConnectLaw(script);
    var sweep := SweepStep(connect.rest);
    SweepLaw(connect.rest);
    var timing := TimingStep(sweep.rest, toFloat);
    ConnectOrder(script);
    var settings := [ByteOrderQuery, StartCommand, StopCommand, BandwidthCommand, PointsCommand, OpcQuery];
    var check := Sends(ErrorCheckingStep(connect.rest[2..], false).events);
    SendsAppend(connect.events, sweep.events);
    SendsAppend(connect.events + sweep.events, timing.events);
    PrefixOfFour([IdnQuery, ClearStatusAndWait], settings, check, Sends(timing.events));
  }

  /** The acquisition of `measure_and_save` (lines 26-30): trigger a sweep
      and wait, wait for the OPC barrier, fetch and decode the values, wait
      for the OPC barrier again. The result is the values. */
  function AcquireFetch(script: seq<string>, toFloat: string -> Option<real>): Step<seq<Complex>>
  {
    var opc := QueryStep(OpcQuery, script);
    var e1 := [Sent(TriggerAndWait)] + opc.events;
    if opc.result.Err? then Step(Err(opc.result.error), opc.rest, e1)
    else
      var fetch := FetchStep(opc.rest, toFloat, false);
      var e2 := e1 + fetch.events;
      if fetch.result.Err? then Step(Err(fetch.result.error), fetch.rest, e2)
      else
        var barrier := QueryStep(OpcQuery, fetch.rest);
        Step(if barrier.result.Ok? then fetch.result else Err(barrier.result.error), barrier.rest, e2 + barrier.events)
  }

  /** `measure_and_save` on the bus (lines 26-31): the acquisition, then the
      error check. */
  function AcquireStep(script: seq<string>, toFloat: string -> Option<real>): Step<seq<Complex>>
  {
    ThenCheck(AcquireFetch(script, toFloat))
  }

  lemma AcquireFetchLaw(script: seq<string>, toFloat: string -> Option<real>)
    ensures var s := AcquireFetch(script, toFloat);
      && (s.result.Ok? <==> |script| >= 3 && Decode(script[1], toFloat).Ok?)
      && (s.result.Ok? ==> s.result.value == Decode(script[1], toFloat).value && s.rest == script[3..])
      && SendsOnly(s.events, AcquireCommands)
  {
    if |script| >= 2 {
      FetchLaw(script[1..], toFloat, false);
    }
  }

  lemma AcquireFetchOrder(script: seq<string>, toFloat: string -> Option<real>)
    requires |script| >= 3 && Decode(script[1], toFloat).Ok?
    ensures Sends(AcquireFetch(script, toFloat).events) == [TriggerAndWait, OpcQuery, DataQuery, OpcQuery]
  {
    FetchLaw(script[1..], toFloat, false);
    var opc := [Sent(OpcQuery), Received(script[0])];
    var fetch := [Sent(DataQuery), Received(script[1])];
    var barrier := [Sent(OpcQuery), Received(script[2])];
    assert AcquireFetch(script, toFloat).events == (([Sent(TriggerAndWait)] + opc) + fetch) + barrier;
    SendsOfWrites([Sent(TriggerAndWait)]);
    SendsQuery(OpcQuery, script[0]);
    SendsQuery(DataQuery, script[1]);
    SendsQuery(OpcQuery, script[2]);
    SendsAppend([Sent(TriggerAndWait)], opc);
    SendsAppend([Sent(TriggerAndWait)] + opc, fetch);
    SendsAppend([Sent(TriggerAndWait)] + opc + fetch, barrier);
  }

  /** An acquisition writes, in order, the trigger, an OPC barrier, the data
      query and an OPC barrier, then the error check; it returns the decoded
      values exactly when the three replies come, the data decodes and the
      error check raises nothing. */
  lemma AcquireLaw(script: seq<string>, toFloat: string -> Option<real>)
    ensures var s := AcquireStep(script, toFloat);
      && (s.result.Ok? <==>
            && |script| >= 3 && Decode(script[1], toFloat).Ok?
            && ErrorCheckingStep(script[3..], false).result.Ok?)
      && (s.result.Ok? ==> s.result.value == Decode(script[1], toFloat).value)
      && (|script| >= 3 && Decode(script[1], toFloat).Ok? ==>
            Sends(s.events) == [TriggerAndWait, OpcQuery, DataQuery, OpcQuery]
                               + Sends(ErrorCheckingStep(script[3..], false).events))
      && SendsOnly(s.events, AcquireCommands)
  {
    AcquireFetchLaw(script, toFloat);
    if |script| >= 3 && Decode(script[1], toFloat).Ok? {
      AcquireFetchOrder(script, toFloat);
    }
    ThenCheckSends(AcquireFetch(script, toFloat), AcquireCommands);
  }
  /** An outcome that reports a step's result: pass on success, the same
      exception on failure. */
  predicate Reports<T>(r: Outcome<Error>, result: Result<T, Error>) {
    if result.Ok? then r == Pass else r == Fail(result.error)
  }

  /** The folder the scan saves its files to. */
  class Disk {
    var files: seq<Record>

    constructor ()
      ensures files == []
    {
      files := [];
    }
  }

  /** Lines 41-48: debug on, the resource name and the write termination
      set, then the identity query and the status clear; the setup timeout
      is set once both replies came. */
  method Connect(vna: Instrument) returns (r: Outcome<Error>)
    modifies vna
    ensures vna.debug && vna.resource == Resource && vna.writeTermination == "\n" && vna.open == old(vna.open)
    ensures var s := ConnectStep(old(vna.script));
      Reports(r, s.result) && vna.script == s.rest && vna.trace == old(vna.trace) + s.events
    ensures vna.timeout == if r.Pass? then SetupTimeout else old(vna.timeout)
  {
    vna.debug := true;
    vna.resource := Resource;
    vna.writeTermination := "\n";
    var idn := vna.Query(IdnQuery);
    if idn.Err? {
      return Fail(idn.error);
    }
    r := vna.ExtClearStatus();
    if r.Pass? {
      vna.timeout := SetupTimeout;
    }
  }

  /** Lines 50-59: the sweep settings, up to the OPC barrier. */
  method ApplySweepSettings(vna: Instrument) returns (r: Result<(), Error>)
    modifies vna`script, vna`trace
    ensures var s := SweepSettings(old(vna.script));
      r == s.result && vna.script == s.rest && vna.trace == old(vna.trace) + s.events
  {
    ghost var t0 := vna.trace;
    ghost var order := ReadStep(vna.script);
    vna.Write(ByteOrderQuery);
    var reply := vna.Read();
    AppendTwice(t0, [Sent(ByteOrderQuery)], order.events);
    if reply.Err? {
      return Err(reply.error);
    }
    ghost var e1 := [Sent(ByteOrderQuery)] + order.events;
    ghost var settings := [Sent(StartCommand), Sent(StopCommand), Sent(BandwidthCommand), Sent(PointsCommand)];
    vna.Write(StartCommand);
    vna.Write(StopCommand);
    vna.Write(BandwidthCommand);
    vna.Write(PointsCommand);
    assert vna.trace == t0 + (e1 + settings);
    ghost var opcStep := QueryStep(OpcQuery, vna.script);
    var opc := vna.CheckOpc();
    AppendTwice(t0, e1 + settings, opcStep.events);
    if opc.Err? {
      return Err(opc.error);
    }
    r := Ok(());
  }

  /** Lines 50-60: the sweep settings, then the error check. */
  method ConfigureSweep(vna: Instrument) returns (r: Outcome<Error>)
    modifies vna`script, vna`trace
    ensures var s := SweepStep(old(vna.script));
      Reports(r, s.result) && vna.script == s.rest && vna.trace == old(vna.trace) + s.events
  {
    ghost var settings := SweepSettings(vna.script);
    ghost var start := vna.trace;
    var applied := ApplySweepSettings(vna);
    if applied.Err? {
      return Fail(applied.error);
    }
    r := vna.ErrorChecking(false);
    ThenCheckTrace(settings, start, r, vna.script, vna.trace);
  }

  /** Lines 62-71: the sweep-time estimate, read as a number; once it is
      one, the timeout becomes the adaptive one, then continuous sweeping
      and the display are switched off and the OPC barrier is awaited. */
  method ApplyTiming(vna: Instrument, toFloat: string -> Option<real>) returns (r: Result<real, Error>)
    modifies vna`script, vna`trace, vna`timeout
    ensures var s := TimingSettings(old(vna.script), toFloat);
      r == s.result && vna.script == s.rest && vna.trace == old(vna.trace) + s.events
    ensures var estimate := QueryStep(SweepTimeQuery, old(vna.script));
      vna.timeout == if estimate.result.Ok? && toFloat(estimate.result.value).Some?
                     then AdaptiveTimeout(toFloat(estimate.result.value).value) else old(vna.timeout)
  {
    ghost var t0 := vna.trace;
    ghost var estimateStep := QueryStep(SweepTimeQuery, vna.script);
    vna.Write(SweepTimeAuto);
    var estimate := vna.Query(SweepTimeQuery);
    AppendTwice(t0, [Sent(SweepTimeAuto)], estimateStep.events);
    if estimate.Err? {
      return Err(estimate.error);
    }
    var seconds := toFloat(estimate.value);
    if seconds.None? {
      return Err(ValueError);
    }
    vna.timeout := AdaptiveTimeout(seconds.value);
    ghost var e1 := [Sent(SweepTimeAuto)] + estimateStep.events;
    vna.Write(ContinuousOff);
    vna.Write(DisplayOff);
    assert vna.trace == t0 + (e1 + [Sent(ContinuousOff), Sent(DisplayOff)]);
    ghost var opcStep := QueryStep(OpcQuery, vna.script);
    var opc := vna.CheckOpc();
    AppendTwice(t0, e1 + [Sent(ContinuousOff), Sent(DisplayOff)], opcStep.events);
    if opc.Err? {
      return Err(opc.error);
    }
    r := Ok(seconds.value);
  }

  /** Lines 62-72: the timing, then the error check. The timeout is the
      adaptive one whenever the estimate read as a number, even if a later
      step raised. */
  method ConfigureTiming(vna: Instrument, toFloat: string -> Option<real>) returns (r: Result<real, Error>)
    modifies vna`script, vna`trace, vna`timeout
    ensures var s := TimingStep(old(vna.script), toFloat);
      r == s.result && vna.script == s.rest && vna.trace == old(vna.trace) + s.events
    ensures var estimate := QueryStep(SweepTimeQuery, old(vna.script));
      vna.timeout == if estimate.result.Ok? && toFloat(estimate.result.value).Some?
                     then AdaptiveTimeout(toFloat(estimate.result.value).value) else old(vna.timeout)
    ensures r.Ok? ==> vna.timeout == AdaptiveTimeout(r.value)
  {
    ghost var timing := TimingSettings(vna.script, toFloat);
    ghost var start := vna.trace;
    r := ApplyTiming(vna, toFloat);
    if r.Err? {
      return;
    }
    var check := vna.ErrorChecking(false);
    ThenCheckTrace(timing, start, check, vna.script, vna.trace);
    if check.Fail? {
      return Err(check.error);
    }
  }

  /** Lines 26-30: trigger and wait, the OPC barrier, the data fetch, the
      OPC barrier again. */
  method TriggerAndFetch(vna: Instrument, toFloat: string -> Option<real>) returns (r: Result<seq<Complex>, Error>)
    modifies vna`script, vna`trace
    ensures var s := AcquireFetch(old(vna.script), toFloat);
      r == s.result && vna.script == s.rest && vna.trace == old(vna.trace) + s.events
  {
    ghost var t0 := vna.trace;
    ghost var opcStep := QueryStep(OpcQuery, vna.script);
    vna.Write(TriggerAndWait);
    var opc := vna.CheckOpc();
    AppendTwice(t0, [Sent(TriggerAndWait)], opcStep.events);
    if opc.Err? {
      return Err(opc.error);
    }
    ghost var e1 := [Sent(TriggerAndWait)] + opcStep.events;
    ghost var fetch := FetchStep(vna.script, toFloat, false);
    r := vna.ExtQueryValues(toFloat);
    AppendTwice(t0, e1, fetch.events);
    if r.Err? {
      return;
    }
    ghost var barrier := QueryStep(OpcQuery, vna.script);
    opc := vna.CheckOpc();
    AppendTwice(t0, e1 + fetch.events, barrier.events);
    if opc.Err? {
      return Err(opc.error);
    }
  }

  /** `measure_and_save` (lines 24-34): the acquisition and the error
      check; the file is written only when both went through. */
  method MeasureAndSave(vna: Instrument, disk: Disk, pos: int, toFloat: string -> Option<real>) returns (r: Outcome<Error>)
    modifies vna`script, vna`trace, disk`files
    ensures var s := AcquireStep(old(vna.script), toFloat);
      && Reports(r, s.result) && vna.script == s.rest && vna.trace == old(vna.trace) + s.events
      && disk.files == old(disk.files) + (if s.result.Ok? then [Record(pos, s.result.value)] else [])
  {
    ghost var fetch := AcquireFetch(vna.script, toFloat);
    ghost var start := vna.trace;
    var hf := TriggerAndFetch(vna, toFloat);
    if hf.Err? {
      return Fail(hf.error);
    }
    r := vna.ErrorChecking(false);
    ThenCheckTrace(fetch, start, r, vna.script, vna.trace);
    if r.Fail? {
      return;
    }
    disk.files := disk.files + [Record(pos, hf.value)];
  }

  /** `measure_and_save` as the scan sees it: it writes only acquisition
      commands, and saves one file, at `pos`, exactly when it raises
      nothing. */
  method Measure(vna: Instrument, disk: Disk, pos: int, toFloat: string -> Option<real>, ghost start: seq<Event>)
    returns (r: Outcome<Error>)
    requires start <= vna.trace && SendsOnly(vna.trace[|start|..], ScanCommands)
    modifies vna`script, vna`trace, disk`files
    ensures start <= vna.trace && SendsOnly(vna.trace[|start|..], ScanCommands)
    ensures r.Pass? ==> |disk.files| == |old(disk.files)| + 1 && disk.files[..|old(disk.files)|] == old(disk.files)
                        && disk.files[|old(disk.files)|].pos == pos
    ensures r.Fail? ==> disk.files == old(disk.files)
  {
    ghost var script := vna.script;
    ghost var before := vna.trace;
    r := MeasureAndSave(vna, disk, pos, toFloat);
    AcquireLaw(script, toFloat);
    ScanSends(start, before, AcquireStep(script, toFloat).events, AcquireCommands);
  }

  /** The cleanup on the bus when both replies come: continuous sweeping
      and the display back on, the identity query, the status clear, the
      close. */
  function CleanupEvents(idn: string, cleared: string): seq<Event> {
    [Sent(ContinuousOn), Sent(DisplayOn), Sent(IdnQuery), Received(idn), DeviceClear,
     Sent(ClearStatusAndWait), Received(cleared), Closed]
  }

  /** The trace from index `from` on: scan commands only, then the whole
      cleanup, last. */
  ghost predicate EndsWithCleanup(trace: seq<Event>, from: nat) {
    && from + 8 <= |trace|
    && SendsOnly(trace[from..|trace| - 8], ScanCommands)
    && var tail := trace[|trace| - 8..];
       tail[3].Received? && tail[6].Received? && tail == CleanupEvents(tail[3].reply, tail[6].reply)
  }

  /** Lines 115-122: nothing is closed unless both queries were answered. */
  method Cleanup(vna: Instrument, stepper: Stepper) returns (r: Outcome<Error>)
    modifies vna`script, vna`trace, vna`open, stepper`open, stepper`log
    ensures |old(vna.script)| >= 2 ==> (
      && r == Pass && vna.script == old(vna.script)[2..]
      && vna.trace == old(vna.trace) + CleanupEvents(old(vna.script)[0], old(vna.script)[1])
      && !vna.open && !stepper.open && stepper.log == old(stepper.log) + [ChannelClosed])
    ensures |old(vna.script)| == 1 ==> (
      && r == Fail(Timeout) && vna.script == []
      && vna.trace == old(vna.trace) + CleanupEvents(old(vna.script)[0], "")[..6])
    ensures old(vna.script) == [] ==> (
      && r == Fail(Timeout) && vna.script == []
      && vna.trace == old(vna.trace) + CleanupEvents("", "")[..3])
    ensures r.Fail? ==> vna.open == old(vna.open) && stepper.open == old(stepper.open) && stepper.log == old(stepper.log)
  {
    vna.Write(ContinuousOn);
    vna.Write(DisplayOn);
    var idn := vna.RawQuery(IdnQuery);
    if idn.Err? {
      return Fail(idn.error);
    }
    r := vna.ExtClearStatus();
    if r.Fail? {
      return;
    }
    vna.Close();
    stepper.Close();
  }

  /** A phase that writes only scan commands keeps everything the scan has
      written since `start` to scan commands. */
  lemma ScanSends(start: seq<Event>, before: seq<Event>, added: seq<Event>, cmds: set<string>)
    requires start <= before && SendsOnly(before[|start|..], ScanCommands)
    requires SendsOnly(added, cmds) && cmds <= ScanCommands
    ensures start <= before + added && SendsOnly((before + added)[|start|..], ScanCommands)
  {
    SendsOnlyWiden(added, cmds, ScanCommands);
    SendsOnlySince(start, before, added, ScanCommands);
  }

  /** Saving a file for an acquisition keeps the saved positions equal to
      the acquisitions on the timeline. */
  lemma SavedOne(start: seq<Record>, before: seq<Record>, files: seq<Record>, actions: seq<Action>, pos: int)
    requires start <= before && Positions(before[|start|..]) == Acquired(actions)
    requires |files| == |before| + 1 && files[..|before|] == before && files[|before|].pos == pos
    ensures start <= files
    ensures Positions(files[|start|..]) == Acquired(actions + [Acquire(pos)])
  {
    assert files == before + [files[|before|]];
    assert files[|start|..] == before[|start|..] + [files[|before|]];
    PositionsSnoc(before[|start|..], files[|before|]);
    AcquiredAppend(actions, [Acquire(pos)]);
    assert Acquired([Acquire(pos)]) == [pos] + Acquired([]);
  }

  /** A move, a settle and a pause acquire nothing. */
  lemma MoveAcquiresNothing(actions: seq<Action>, pos: int)
    ensures Acquired(actions + [Move(pos), Settle, Pause(PauseMillis)]) == Acquired(actions)
  {
    var tail := [Move(pos), Settle, Pause(PauseMillis)];
    AcquiredAppend(actions, tail);
    assert tail[1..][1..][1..] == [];
    assert Acquired(tail[1..][1..]) == [] + Acquired(tail[1..][1..][1..]);
    assert Acquired(tail[1..]) == [] + Acquired(tail[1..][1..]);
  }

  /** Files saved over two stretches of the scan follow the acquisitions
      of the two stretches of the timeline. */
  lemma SavedMore(start: seq<Record>, mid: seq<Record>, files: seq<Record>, a: seq<Action>, b: seq<Action>)
    requires start <= mid && Positions(mid[|start|..]) == Acquired(a)
    requires mid <= files && Positions(files[|mid|..]) == Acquired(b)
    ensures start <= files && Positions(files[|start|..]) == Acquired(a + b)
  {
    assert files[|start|..] == mid[|start|..] + files[|mid|..];
    assert Positions(mid[|start|..] + files[|mid|..]) == Positions(mid[|start|..]) + Positions(files[|mid|..]);
    AcquiredAppend(a, b);
  }

  /** Cutting short the last piece of a beginning of the timeline leaves a
      beginning of it. */
  lemma PrefixThen(a: seq<Action>, b: seq<Action>, c: seq<Action>, whole: seq<Action>)
    requires b <= c && a + c <= whole
    ensures a + b <= whole
  {
    assert a + b == (a + c)[..|a| + |b|];
  }

  /** A turn cut short leaves the timeline short of the whole scan. */
  lemma ScanStrictPrefix(ps: seq<int>, i: nat, acts: seq<Action>, whole: seq<Action>)
    requires i < |ps| && acts <= whole && |whole| <= 5
    ensures |ScanPrefix(ps, i) + acts| < |ScanActions(ps)|
  {
    ScanStart(ps);
    assert |ScanPrefix(ps, i)| == if i == 0 then 0 else 4 * i + 1;
  }

  /** Lines 41-72: connect, configure the sweep, time it. On success the
      result is the estimated sweep time, and the timeout is the adaptive
      one for it. */
  method Configure(vna: Instrument, toFloat: string -> Option<real>) returns (r: Result<real, Error>)
    modifies vna
    ensures vna.open == old(vna.open)
    ensures var s := ConfigureStep(old(vna.script), toFloat);
      r == s.result && vna.script == s.rest && vna.trace == old(vna.trace) + s.events
    ensures old(vna.trace) <= vna.trace && SendsOnly(vna.trace[|old(vna.trace)|..], ScanCommands)
    ensures r.Ok? ==> vna.timeout == AdaptiveTimeout(r.value)
  {
    ghost var t0, script := vna.trace, vna.script;
    ConfigureSends(script, toFloat);
    SendsOnlyWiden(ConfigureStep(script, toFloat).events, ConnectCommands + SweepCommands + TimingCommands, ScanCommands);
    var connected := Connect(vna);
    if connected.Fail? {
      r := Err(connected.error);
    } else {
      ghost var e1 := ConnectStep(script).events;
      ghost var swept0 := vna.script;
      var swept := ConfigureSweep(vna);
      ghost var e2 := SweepStep(swept0).events;
      AppendTwice(t0, e1, e2);
      if swept.Fail? {
        r := Err(swept.error);
      } else {
        ghost var timed0 := vna.script;
        r := ConfigureTiming(vna, toFloat);
        AppendTwice(t0, e1 + e2, TimingStep(timed0, toFloat).events);
      }
    }
    assert vna.trace[|t0|..] == ConfigureStep(script, toFloat).events;
  }

  /** Lines 89-90 (and 106-107 for the way home): set the target and wait
      for the stepper to settle. `start`, `readings` and `done` are the
      stepper's log and readings when the scan began and the moves made
      since; the move extends them by `pos`. */
  method MoveTo(stepper: Stepper, pos: int, ghost start: seq<StepperEvent>, ghost readings: seq<bool>, ghost done: seq<int>)
    requires false in stepper.readings
    requires |done| < Stops(readings) && Moved(start, readings, done, stepper.position, stepper.log, stepper.readings)
    modifies stepper`log, stepper`readings
    ensures stepper.readings == old(stepper.readings)[FirstStop(old(stepper.readings)) + 1..]
    ensures stepper.log == old(stepper.log) + [Target(pos as real * ShaftConversion)]
                                            + SettleLog(old(stepper.readings), stepper.position)
    ensures Moved(start, readings, done + [pos], stepper.position, stepper.log, stepper.readings)
  {
    ghost var log, left, position := stepper.log, stepper.readings, stepper.position;
    MovedNext(start, readings, done, pos, position, log, left);
    stepper.SetTargetAbsolutePosition(pos);
    var moving := stepper.WaitToSettle();
    assert stepper.position == position;
  }

  /** One turn of the position loop (lines 85-99): count, move to `pos`,
      settle, pause, measure; on the first turn count and measure once
      more. The homing visit (lines 101-110) is a turn that is not the
      first. `acts` is the turn's timeline, cut short where an exception
      is raised; `count` counts every measurement begun. The move is made
      whatever happens later, and extends the stepper's series of moves
      (`start`, `readings`, `done`, as for `MoveTo`) by `pos`. */
  method Turn(vna: Instrument, stepper: Stepper, disk: Disk, pos: int, first: bool, count: nat,
              toFloat: string -> Option<real>, ghost start: seq<Event>,
              ghost log0: seq<StepperEvent>, ghost r0: seq<bool>, ghost done: seq<int>)
    returns (r: Outcome<Error>, newCount: nat, acts: seq<Action>)
    requires false in stepper.readings
    requires |done| < Stops(r0) && Moved(log0, r0, done, stepper.position, stepper.log, stepper.readings)
    requires start <= vna.trace && SendsOnly(vna.trace[|start|..], ScanCommands)
    modifies vna`script, vna`trace, stepper`log, stepper`readings, disk`files
    ensures start <= vna.trace && SendsOnly(vna.trace[|start|..], ScanCommands)
    ensures Moved(log0, r0, done + [pos], stepper.position, stepper.log, stepper.readings)
    ensures old(disk.files) <= disk.files && Positions(disk.files[|old(disk.files)|..]) == Acquired(acts)
    ensures acts <= TurnActions(pos, first) && Moves(acts) == [pos]
    ensures r.Pass? ==> acts == TurnActions(pos, first)
    ensures r.Fail? ==> |acts| < |TurnActions(pos, first)|
    ensures newCount == count + |disk.files| - |old(disk.files)| + (if r.Fail? then 1 else 0)
  {
    ghost var f0 := disk.files;
    newCount := count + 1;
    MoveTo(stepper, pos, log0, r0, done);
    acts := [Move(pos), Settle, Pause(PauseMillis)];
    MoveAcquiresNothing([], pos);
    assert [] + acts == acts && Positions(f0[|f0|..]) == [];
    MovesInTurn(acts, pos, first);
    r := Measure(vna, disk, pos, toFloat, start);
    if r.Fail? {
      return;
    }
    SavedOne(f0, f0, disk.files, acts, pos);
    acts := acts + [Acquire(pos)];
    MovesInTurn(acts, pos, first);
    if first {
      newCount := newCount + 1;
      ghost var saved := disk.files;
      r := Measure(vna, disk, pos, toFloat, start);
      if r.Fail? {
        return;
      }
      SavedOne(f0, saved, disk.files, acts, pos);
      acts := acts + [Acquire(pos)];
      MovesInTurn(acts, pos, first);
    }
  }

  /** The state of the position loop after `i` turns that raised nothing:
      the timeline of those turns, the files they saved since `f0`, as many
      as `count` says, and the stepper's moves since it had logged `log0`
      with `r0` to come, one per position so far. */
  ghost predicate Visited(positions: seq<int>, i: nat, actions: seq<Action>, count: nat,
                          f0: seq<Record>, files: seq<Record>, log0: seq<StepperEvent>, r0: seq<bool>,
                          position: real, log: seq<StepperEvent>, readings: seq<bool>)
  {
    && i <= |positions| && (positions != [] ==> Stops(r0) > |positions|)
    && actions == ScanPrefix(positions, i) && Moves(actions) == positions[..i]
    && f0 <= files && count == |files| - |f0| && Positions(files[|f0|..]) == Acquired(actions)
    && Moved(log0, r0, Moves(actions), position, log, readings)
  }

  /** Turn `i` of the position loop, in terms of the loop's state: the turn
      either leaves the state of `i + 1` turns, or raises, leaving its own
      timeline cut short after the turns before it. */
  method LoopTurn(vna: Instrument, stepper: Stepper, disk: Disk, positions: seq<int>, i: nat, first: bool,
                  count: nat, actions: seq<Action>, toFloat: string -> Option<real>, ghost start: seq<Event>,
                  ghost f0: seq<Record>, ghost log0: seq<StepperEvent>, ghost r0: seq<bool>)
    returns (r: Outcome<Error>, newCount: nat, newActions: seq<Action>)
    requires i < |positions| && (first <==> i == 0)
    requires Visited(positions, i, actions, count, f0, disk.files, log0, r0, stepper.position, stepper.log, stepper.readings)
    requires start <= vna.trace && SendsOnly(vna.trace[|start|..], ScanCommands)
    modifies vna`script, vna`trace, stepper`log, stepper`readings, disk`files
    ensures start <= vna.trace && SendsOnly(vna.trace[|start|..], ScanCommands)
    ensures r.Pass? ==>
      Visited(positions, i + 1, newActions, newCount, f0, disk.files, log0, r0, stepper.position, stepper.log, stepper.readings)
    ensures r.Fail? ==>
      && f0 <= disk.files && Positions(disk.files[|f0|..]) == Acquired(newActions)
      && Moves(newActions) <= positions
      && Moved(log0, r0, Moves(newActions), stepper.position, stepper.log, stepper.readings)
      && newCount == |disk.files| - |f0| + 1
      && newActions <= ScanActions(positions) && |newActions| < |ScanActions(positions)|
  {
    TurnIsPrefix(positions, i);
    MovesLeft(log0, r0, Moves(actions), stepper.position, stepper.log, stepper.readings);
    ghost var mid := disk.files;
    var acts;
    r, newCount, acts := Turn(vna, stepper, disk, positions[i], first, count, toFloat, start, log0, r0, Moves(actions));
    SavedMore(f0, mid, disk.files, actions, acts);
    newActions := actions + acts;
    MovesAppend(actions, acts);
    MovesNext(actions, acts, positions, i);
    if r.Fail? {
      PrefixThen(actions, acts, TurnActions(positions[i], first), ScanActions(positions));
      ScanStrictPrefix(positions, i, acts, TurnActions(positions[i], first));
      assert positions[..i + 1] <= positions;
    }
  }

  /** The position loop, lines 81-99: every position in turn, the first
      acquired twice. `count` is the script's counter of acquisitions and
      `actions` the timeline, cut short where an exception is raised; the
      files already saved stay. */
  method VisitPositions(vna: Instrument, stepper: Stepper, disk: Disk, positions: seq<int>,
                        toFloat: string -> Option<real>, ghost start: seq<Event>)
    returns (r: Outcome<Error>, count: nat, actions: seq<Action>)
    requires positions != [] ==> Stops(stepper.readings) > |positions|
    requires start <= vna.trace && SendsOnly(vna.trace[|start|..], ScanCommands)
    modifies vna`script, vna`trace, stepper`log, stepper`readings, disk`files
    ensures start <= vna.trace && SendsOnly(vna.trace[|start|..], ScanCommands)
    ensures old(disk.files) <= disk.files && Positions(disk.files[|old(disk.files)|..]) == Acquired(actions)
    ensures Moves(actions) <= positions
    ensures Moved(old(stepper.log), old(stepper.readings), Moves(actions), stepper.position, stepper.log, stepper.readings)
    ensures r.Pass? ==>
      && count == |disk.files| - |old(disk.files)|
      && actions == ScanPrefix(positions, |positions|)
      && Moves(actions) == positions
    ensures r.Pass? ==> Visited(positions, |positions|, actions, count, old(disk.files), disk.files,
                                old(stepper.log), old(stepper.readings), stepper.position, stepper.log, stepper.readings)
    ensures r.Fail? ==>
      && positions != [] && count == |disk.files| - |old(disk.files)| + 1
      && actions <= ScanActions(positions) && |actions| < |ScanActions(positions)|
  {
    ghost var f0 := disk.files;
    ghost var r0 := stepper.readings;
    ghost var log0 := stepper.log;
    r, count, actions := Pass, 0, [];
    assert disk.files[|f0|..] == [];
    MovedNone(log0, r0, stepper.position);
    var first := true;
    var i := 0;
    while i < |positions|
      invariant 0 <= i <= |positions| && (first <==> i == 0) && r == Pass
      invariant Visited(positions, i, actions, count, f0, disk.files, log0, r0, stepper.position, stepper.log, stepper.readings)
      invariant start <= vna.trace && SendsOnly(vna.trace[|start|..], ScanCommands)
    {
      r, count, actions := LoopTurn(vna, stepper, disk, positions, i, first, count, actions, toFloat, start, f0, log0, r0);
      if r.Fail? {
        break;
      }
      first := false;
      i := i + 1;
    }
    if r.Pass? {
      assert positions[..i] == positions;
    }
  }

  /** Lines 101-122: count, return to `home` and acquire there, then clean
      up. `acts` is the homing visit, cut short where an exception is
      raised. A cleanup command is written only after the homing
      acquisition went through; nothing is closed unless the cleanup went
      through. */
  method FinishScan(vna: Instrument, stepper: Stepper, disk: Disk, home: int, count: nat,
                    toFloat: string -> Option<real>, ghost start: seq<Event>,
                    ghost log0: seq<StepperEvent>, ghost r0: seq<bool>, ghost done: seq<int>)
    returns (r: Outcome<Error>, newCount: nat, acts: seq<Action>)
    requires false in stepper.readings
    requires |done| < Stops(r0) && Moved(log0, r0, done, stepper.position, stepper.log, stepper.readings)
    requires start <= vna.trace && SendsOnly(vna.trace[|start|..], ScanCommands)
    modifies vna`script, vna`trace, vna`open, stepper`log, stepper`readings, stepper`open, disk`files
    ensures start <= vna.trace
    ensures stepper.readings == Remaining(r0, |done| + 1)
    ensures stepper.log == log0 + MoveLog(done + [home], r0, stepper.position) + (if r.Pass? then [ChannelClosed] else [])
    ensures Moves(acts) == [home]
    ensures old(disk.files) <= disk.files && Positions(disk.files[|old(disk.files)|..]) == Acquired(acts)
    ensures acts <= Visit(home)
    ensures newCount == count + |disk.files| - |old(disk.files)| + (if acts == Visit(home) then 0 else 1)
    ensures r.Pass? ==>
      && acts == Visit(home)
      && !vna.open && !stepper.open
      && EndsWithCleanup(vna.trace, |start|)
    ensures r.Fail? ==>
      && vna.open == old(vna.open) && stepper.open == old(stepper.open)
      && (SendsOnly(vna.trace[|start|..], ScanCommands) || acts == Visit(home))
  {
    r, newCount, acts := Turn(vna, stepper, disk, home, false, count, toFloat, start, log0, r0, done);
    assert |done + [home]| == |done| + 1;
    if r.Fail? {
      assert stepper.log + [] == stepper.log;
      return;
    }
    assert acts == Visit(home);
    ghost var before := vna.trace;
    ghost var script := vna.script;
    r := Cleanup(vna, stepper);
    if r.Fail? {
      return;
    }
    assert vna.trace[|start|..|vna.trace| - 8] == before[|start|..];
    assert vna.trace[|vna.trace| - 8..] == CleanupEvents(script[0], script[1]);
  }

  /** Lines 101-122 once the position loop went through, in terms of the
      whole scan: the homing visit and the cleanup complete the scan's
      timeline, or an exception cuts it short. */
  method ReturnHome(vna: Instrument, stepper: Stepper, disk: Disk, positions: seq<int>, count: nat,
                    actions: seq<Action>, toFloat: string -> Option<real>, ghost start: seq<Event>,
                    ghost f0: seq<Record>, ghost log0: seq<StepperEvent>, ghost r0: seq<bool>)
    returns (r: Outcome<Error>, newCount: nat, newActions: seq<Action>)
    requires positions != []
    requires Visited(positions, |positions|, actions, count, f0, disk.files, log0, r0, stepper.position, stepper.log, stepper.readings)
    requires start <= vna.trace && SendsOnly(vna.trace[|start|..], ScanCommands)
    modifies vna`script, vna`trace, vna`open, stepper`log, stepper`readings, stepper`open, disk`files
    ensures start <= vna.trace && f0 <= disk.files
    ensures Positions(disk.files[|f0|..]) == Acquired(newActions)
    ensures |Moves(newActions)| <= Stops(r0) && stepper.readings == Remaining(r0, |Moves(newActions)|)
    ensures stepper.log == log0 + MoveLog(Moves(newActions), r0, stepper.position) + (if r.Pass? then [ChannelClosed] else [])
    ensures newActions <= ScanActions(positions) && Positions(disk.files[|f0|..]) <= Schedule(positions)
    ensures r.Pass? ==>
      && newCount == |positions| + 2
      && newActions == ScanActions(positions) && Moves(newActions) == positions + [positions[0]]
      && Positions(disk.files[|f0|..]) == Schedule(positions)
      && !vna.open && !stepper.open
      && EndsWithCleanup(vna.trace, |start|)
    ensures r.Fail? ==>
      && vna.open == old(vna.open) && stepper.open == old(stepper.open)
      && (newCount == |disk.files| - |f0| || newCount == |disk.files| - |f0| + 1)
      && (SendsOnly(vna.trace[|start|..], ScanCommands) || newActions == ScanActions(positions))
  {
    assert positions[..|positions|] == positions;
    MovesLeft(log0, r0, Moves(actions), stepper.position, stepper.log, stepper.readings);
    ghost var mid := disk.files;
    var acts;
    r, newCount, acts := FinishScan(vna, stepper, disk, positions[0], count, toFloat, start, log0, r0, Moves(actions));
    SavedMore(f0, mid, disk.files, actions, acts);
    PrefixThen(actions, acts, Visit(positions[0]), ScanActions(positions));
    newActions := actions + acts;
    MovesAppend(actions, acts);
    assert |Moves(newActions)| == |Moves(actions)| + 1;
    ScanSchedule(positions);
    AcquiredPrefix(newActions, ScanActions(positions));
    if r.Pass? {
      assert |disk.files[|f0|..]| == |Schedule(positions)| == |positions| + 2;
    }
  }

  /** The scan once the analyser is configured, lines 81-122: visit every
      position (the first acquired twice), return home and acquire there
      once more, then clean up. `start` is the bus trace when the scan
      began. */
  method ScanPositions(vna: Instrument, stepper: Stepper, disk: Disk, positions: seq<int>,
                       toFloat: string -> Option<real>, ghost start: seq<Event>)
    returns (r: Outcome<Error>, count: nat, actions: seq<Action>)
    requires positions != [] ==> Stops(stepper.readings) > |positions|
    requires start <= vna.trace && SendsOnly(vna.trace[|start|..], ScanCommands)
    modifies vna`script, vna`trace, vna`open, stepper`log, stepper`readings, stepper`open, disk`files
    ensures old(disk.files) <= disk.files && start <= vna.trace
    ensures Positions(disk.files[|old(disk.files)|..]) == Acquired(actions)
    ensures |Moves(actions)| <= Stops(old(stepper.readings))
    ensures stepper.readings == Remaining(old(stepper.readings), |Moves(actions)|)
    ensures stepper.log == old(stepper.log) + MoveLog(Moves(actions), old(stepper.readings), stepper.position)
                                            + (if r.Pass? then [ChannelClosed] else [])
    ensures r.Pass? ==>
      && positions != [] && count == |positions| + 2
      && actions == ScanActions(positions) && Moves(actions) == positions + [positions[0]]
      && Positions(disk.files[|old(disk.files)|..]) == Schedule(positions)
      && !vna.open && !stepper.open
      && EndsWithCleanup(vna.trace, |start|)
    ensures r.Fail? ==>
      && vna.open == old(vna.open) && stepper.open == old(stepper.open)
      && (count == |disk.files| - |old(disk.files)| || count == |disk.files| - |old(disk.files)| + 1)
      && (SendsOnly(vna.trace[|start|..], ScanCommands) || (positions != [] && actions == ScanActions(positions)))
    ensures r.Fail? && positions != [] ==>
      actions <= ScanActions(positions) && Positions(disk.files[|old(disk.files)|..]) <= Schedule(positions)
    ensures positions == [] ==>
      && r.Fail? && disk.files == old(disk.files) && actions == []
      && (count == 1 ==> r == Fail(IndexError))
  {
    ghost var f0 := disk.files;
    ghost var log0, r0 := stepper.log, stepper.readings;
    r, count, actions := VisitPositions(vna, stepper, disk, positions, toFloat, start);
    if r.Fail? {
      ScanSchedule(positions);
      AcquiredPrefix(actions, ScanActions(positions));
      MovedThen(log0, r0, Moves(actions), stepper.position, stepper.log, stepper.readings, []);
    } else if positions == [] {
      r, count := Fail(IndexError), count + 1;
      MovedThen(log0, r0, Moves(actions), stepper.position, stepper.log, stepper.readings, []);
    } else {
      r, count, actions := ReturnHome(vna, stepper, disk, positions, count, actions, toFloat, start, f0, log0, r0);
    }
  }

  /** The whole script, lines 41-122: connect, configure the sweep and its
      timing, then scan. `count` is the script's counter of acquisitions;
      `actions` is the timeline of moves, settles, pauses and acquisitions.
      Any exception ends the script where it is raised, with nothing
      closed, and leaves the files already saved; a cleanup command is
      written only once the whole timeline is done. */
  method Run(vna: Instrument, stepper: Stepper, disk: Disk, positions: seq<int>, toFloat: string -> Option<real>)
    returns (r: Outcome<Error>, count: nat, actions: seq<Action>)
    requires positions != [] ==> Stops(stepper.readings) > |positions|
    modifies vna, stepper, disk
    ensures old(disk.files) <= disk.files && old(vna.trace) <= vna.trace
    ensures Positions(disk.files[|old(disk.files)|..]) == Acquired(actions)
    ensures |Moves(actions)| <= Stops(old(stepper.readings))
    ensures stepper.readings == Remaining(old(stepper.readings), |Moves(actions)|)
    ensures stepper.log == old(stepper.log) + MoveLog(Moves(actions), old(stepper.readings), stepper.position)
                                            + (if r.Pass? then [ChannelClosed] else [])
    ensures r.Pass? ==>
      && positions != [] && count == |positions| + 2
      && actions == ScanActions(positions) && Moves(actions) == positions + [positions[0]]
      && Positions(disk.files[|old(disk.files)|..]) == Schedule(positions)
      && !vna.open && !stepper.open
      && EndsWithCleanup(vna.trace, |old(vna.trace)|)
    ensures r.Fail? ==>
      && vna.open == old(vna.open) && stepper.open == old(stepper.open)
      && (count == |disk.files| - |old(disk.files)| || count == |disk.files| - |old(disk.files)| + 1)
      && (SendsOnly(vna.trace[|old(vna.trace)|..], ScanCommands) || (positions != [] && actions == ScanActions(positions)))
    ensures r.Fail? && positions != [] ==>
      actions <= ScanActions(positions) && Positions(disk.files[|old(disk.files)|..]) <= Schedule(positions)
    ensures positions == [] ==>
      && r.Fail? && disk.files == old(disk.files) && actions == []
      && (count == 1 ==> r == Fail(IndexError))
  {
    ghost var t0 := vna.trace;
    var configured := Configure(vna, toFloat);
    if configured.Err? {
      r, count, actions := Fail(configured.error), 0, [];
      assert disk.files[|disk.files|..] == [];
      MovedNone(stepper.log, stepper.readings, stepper.position);
      MovedThen(stepper.log, stepper.readings, [], stepper.position, stepper.log, stepper.readings, []);
      return;
    }
    r, count, actions := ScanPositions(vna, stepper, disk, positions, toFloat, t0);
  }
}
