/** The instrument session: the `VISAInstrument` class of
    instrumentcontrol/VISAInstrument.py and VISAInstrument.py, and the
    `ext_*` helpers VISAExtension.py attaches to a pyvisa resource, as one
    class over a scripted instrument. The instrument is the list of replies
    it will give (`script`); what the session does on the bus is recorded in
    `trace`. A read with no reply to come is pyvisa's timeout. */
module Session {
  import opened Wrappers
  import opened Text
  import opened Bus
  import opened ErrorQueue
  import opened Payload

  /** A Python value given to a setter that checks its type. */
  datatype PyValue = PyBool(b: bool) | PyInt(i: int) | PyFloat(x: real) | PyStr(s: string) | PyNone

  /** `isinstance(v, int)`: in Python a bool is an int too. */
  predicate IsInt(v: PyValue) {
    v.PyBool? || v.PyInt?
  }

  /** `VISAInstrumentErrorException('')` carries the empty message. */
  const EmptyMessage := ExceptionMessage(Items(Chars("")))
  /** `VISAInstrumentErrorException('Wrong type.')`: the string is iterated. */
  const WrongTypeMessage := ExceptionMessage(Items(Chars("Wrong type.")))

  /** `set_freq_star(val)`: the command it writes, or the exception it raises
      before writing anything. */
  function FreqStartCommand(v: PyValue): (r: Result<string, Error>)
  {
    if !IsInt(v) then Err(InstrumentError(EmptyMessage))
    else if v.PyInt? && v.i < 0 then Err(InstrumentError(EmptyMessage))
    else if v.PyBool? then Ok(FreqStartPrefix + (if v.b then "True" else "False"))
    else Ok(FreqStartPrefix + NatToString(v.i))
  }

  /** Non-int values and negative ints are refused; every other int is sent
      in decimal after the prefix, and the number reads back unchanged. */
  lemma FreqStartLaw(v: PyValue)
    ensures FreqStartCommand(v).Err? <==> !IsInt(v) || (v.PyInt? && v.i < 0)
    ensures FreqStartCommand(v).Err? ==> FreqStartCommand(v).error == InstrumentError("")
    ensures FreqStartCommand(v).Ok? ==> FreqStartPrefix <= FreqStartCommand(v).value
    ensures v.PyInt? && v.i >= 0 ==>
      ParseInt(FreqStartCommand(v).value[|FreqStartPrefix|..]) == Some(v.i)
  {
    if v.PyInt? && v.i >= 0 {
      ParseNatToString(v.i);
      assert (FreqStartPrefix + NatToString(v.i))[|FreqStartPrefix|..] == NatToString(v.i);
    }
  }

  /** `query_scattering_values` (with `checked`) and `ext_query_values`
      (without): write `CALC:DATA? SDAT`, read, decode; with `checked`, run
      `error_checking` after a successful decode and return the values only
      if it raises nothing. */
  function FetchStep(script: seq<string>, toFloat: string -> Option<real>, checked: bool): (s: Step<seq<Complex>>)
  {
    var read := ReadStep(script);
    var sent := [Sent(DataQuery)] + read.events;
    if read.result.Err? then Step(Err(read.result.error), read.rest, sent)
    else
      var hf := Decode(read.result.value, toFloat);
      if hf.Err? then Step(Err(hf.error), read.rest, sent)
      else if !checked then Step(Ok(hf.value), read.rest, sent)
      else
        var e := ErrorCheckingStep(read.rest, true);
        Step(if e.result.Ok? then Ok(hf.value) else Err(e.result.error), e.rest, sent + e.events)
  }

  /** The fetch returns exactly the decode of the reply; a decode failure
      stops before any error checking; with `checked`, the values come back
      only when the error check that follows raises nothing, and any
      exception it raises is the fetch's. Without `checked` the fetch is one
      write and one read. */
  lemma FetchLaw(script: seq<string>, toFloat: string -> Option<real>, checked: bool)
    requires script != []
    ensures var s := FetchStep(script, toFloat, checked); var hf := Decode(script[0], toFloat);
      && (hf.Err? ==> s.result == Err(ValueError) && s.events == [Sent(DataQuery), Received(script[0])])
      && (hf.Ok? && !checked ==> s.result == Ok(hf.value) && s.events == [Sent(DataQuery), Received(script[0])])
      && (hf.Ok? && checked ==>
            var e := ErrorCheckingStep(script[1..], true);
            && (s.result.Ok? <==> e.result.Ok?)
            && (s.result.Ok? ==> s.result.value == hf.value)
            && (s.result.Err? ==> s.result.error == e.result.error)
            && s.events == [Sent(DataQuery), Received(script[0])] + e.events)
  {
    var read := ReadStep(script);
    assert read.result == Ok(RStrip(script[0])) && read.rest == script[1..];
    assert [Sent(DataQuery)] + read.events == [Sent(DataQuery), Received(script[0])];
    assert Decode(RStrip(script[0]), toFloat) == Decode(script[0], toFloat) by {
      RStripIdempotent(script[0]);
    }
  }

  class Instrument {
    var resource: string
    var debug: bool
    /** The pyvisa timeout, in milliseconds. */
    var timeout: real
    var writeTermination: string
    /** The replies the instrument will still give, in order. */
    var script: seq<string>
    /** What the session has done on the bus so far. */
    var trace: seq<Event>
    var open: bool

    /** An opened resource with the given settings (the defaults of
        `__init__` are a timeout of 1500 ms, `\n` and no debug output). */
    constructor (resource: string, replies: seq<string>, timeout: real, writeTermination: string, debug: bool)
      ensures this.resource == resource && script == replies && trace == []
      ensures this.debug == debug && this.timeout == timeout && this.writeTermination == writeTermination && open
    {
      this.resource := resource;
      this.debug := debug;
      this.timeout := timeout;
      this.writeTermination := writeTermination;
      script := replies;
      trace := [];
      open := true;
    }

    /** The `debug` setter: only a bool is accepted; anything else raises and
        leaves the previous value. */
    method SetDebug(v: PyValue) returns (r: Outcome<Error>)
      modifies this`debug
      ensures v.PyBool? ==> r == Pass && debug == v.b
      ensures !v.PyBool? ==> r == Fail(InstrumentError(WrongTypeMessage)) && debug == old(debug)
    {
      if !v.PyBool? {
        return Fail(InstrumentError(WrongTypeMessage));
      }
      debug := v.b;
      r := Pass;
    }

    /** `write`: one command line, unchanged, with no synchronisation. */
    method Write(cmd: string)
      modifies this`trace
      ensures trace == old(trace) + [Sent(cmd)]
    {
      trace := trace + [Sent(cmd)];
    }

    /** `read`: one reply, trailing whitespace removed. */
    method Read() returns (r: Result<string, Error>)
      modifies this`script, this`trace
      ensures var s := ReadStep(old(script)); r == s.result && script == s.rest && trace == old(trace) + s.events
    {
      if script == [] {
        return Err(Timeout);
      }
      var reply := script[0];
      script := script[1..];
      trace := trace + [Received(reply)];
      r := Ok(RStrip(reply));
    }

    /** pyvisa's `query`: write the command, read one reply as it came. */
    method RawQuery(cmd: string) returns (r: Result<string, Error>)
      modifies this`script, this`trace
      ensures var s := RawQueryStep(cmd, old(script)); r == s.result && script == s.rest && trace == old(trace) + s.events
    {
      Write(cmd);
      if script == [] {
        return Err(Timeout);
      }
      var reply := script[0];
      script := script[1..];
      trace := trace + [Received(reply)];
      r := Ok(reply);
    }

    /** `query` / `ext_query`: pyvisa's query, trailing whitespace removed. */
    method Query(cmd: string) returns (r: Result<string, Error>)
      modifies this`script, this`trace
      ensures var s := QueryStep(cmd, old(script)); r == s.result && script == s.rest && trace == old(trace) + s.events
    {
      r := RawQuery(cmd);
      if r.Ok? {
        r := Ok(RStrip(r.value));
      }
    }

    /** `check_opc`: write `*OPC?`, then exactly one read. */
    method CheckOpc() returns (r: Result<string, Error>)
      modifies this`script, this`trace
      ensures var s := QueryStep(OpcQuery, old(script)); r == s.result && script == s.rest && trace == old(trace) + s.events
    {
      Write(OpcQuery);
      r := Read();
    }

    /** `clear_status` of instrumentcontrol/VISAInstrument.py: device clear,
        then query `*CLS` and query `*OPC?`. */
    method ClearStatus() returns (r: Outcome<Error>)
      modifies this`script, this`trace
      ensures |old(script)| >= 2 ==> (
        && r == Pass && script == old(script)[2..]
        && trace == old(trace) + [DeviceClear, Sent(ClearStatusCommand), Received(old(script)[0]),
                                  Sent(OpcQuery), Received(old(script)[1])])
      ensures |old(script)| == 1 ==> (
        && r == Fail(Timeout) && script == []
        && trace == old(trace) + [DeviceClear, Sent(ClearStatusCommand), Received(old(script)[0]), Sent(OpcQuery)])
      ensures old(script) == [] ==> (
        && r == Fail(Timeout) && script == []
        && trace == old(trace) + [DeviceClear, Sent(ClearStatusCommand)])
    {
      trace := trace + [DeviceClear];
      var cls := Query(ClearStatusCommand);
      if cls.Err? {
        return Fail(cls.error);
      }
      var opc := Query(OpcQuery);
      if opc.Err? {
        return Fail(opc.error);
      }
      r := Pass;
    }

    /** `ext_clear_status` (and `clear_status` of VISAInstrument.py): device
        clear, then one query `*CLS;*OPC?`. */
    method ExtClearStatus() returns (r: Outcome<Error>)
      modifies this`script, this`trace
      ensures old(script) != [] ==> (
        && r == Pass && script == old(script)[1..]
        && trace == old(trace) + [DeviceClear, Sent(ClearStatusAndWait), Received(old(script)[0])])
      ensures old(script) == [] ==> (
        && r == Fail(Timeout) && script == []
        && trace == old(trace) + [DeviceClear, Sent(ClearStatusAndWait)])
    {
      trace := trace + [DeviceClear];
      var q := RawQuery(ClearStatusAndWait);
      if q.Err? {
        return Fail(q.error);
      }
      r := Pass;
    }

    /** The reply to `cmd` as the drain reads it: through `query` (`strip`)
        or through pyvisa's `query`. */
    method QueryAs(cmd: string, strip: bool) returns (r: Result<string, Error>)
      modifies this`script, this`trace
      ensures var s := RawQueryStep(cmd, old(script));
        && r == (if s.result.Ok? then Ok(Seen(s.result.value, strip)) else s.result)
        && script == s.rest && trace == old(trace) + s.events
    {
      if strip {
        r := Query(cmd);
      } else {
        r := RawQuery(cmd);
      }
    }

    /** `check_error_queue` of the class (`strip`, reading through its own
        `query`) and `ext_check_error_queue` (reading through pyvisa's). */
    method CheckErrorQueue(strip: bool) returns (r: Result<Drained, Error>)
      modifies this`script, this`trace
      ensures r == CheckQueueStep(old(script), strip).result
      ensures script == CheckQueueStep(old(script), strip).rest
      ensures trace == old(trace) + CheckQueueStep(old(script), strip).events
    {
      ghost var head := [Sent(StatusByteQuery)] + if old(script) == [] then [] else [Received(old(script)[0])];
      var status := QueryAs(StatusByteQuery, strip);
      if status.Err? {
        assert CheckQueueStep(old(script), strip) == Step(Err(Timeout), script, head);
        return Err(status.error);
      }
      var stb := ParseInt(status.value);
      if stb.None? {
        assert CheckQueueStep(old(script), strip) == Step(Err(ValueError), script, head);
        return Err(ValueError);
      }
      if !ErrorQueuePending(stb.value) {
        assert CheckQueueStep(old(script), strip) == Step(Ok(Items([])), script, head);
        return Ok(Items([]));
      }
      CheckQueuePending(old(script), strip);
      assert old(script)[1..] == script;
      r := DrainQueue(strip);
    }

    /** The `SYST:ERR?` loop of `check_error_queue`, entered once bit 2 of
        the status byte is set. */
    method DrainQueue(strip: bool) returns (r: Result<Drained, Error>)
      modifies this`script, this`trace
      ensures var s := DrainStep(old(script), strip); r == s.result && script == s.rest && trace == old(trace) + s.events
    {
      ghost var replies := script;
      ghost var mark := trace;
      ghost var taken: seq<string> := [];
      var errors: seq<string> := [];
      DrainLoopStart(replies, strip);
      while true
        invariant DrainLoop(replies, taken, script, errors, strip)
        invariant trace == mark + Exchanges(ErrorQueueQuery, taken)
        decreases MaxErrors - |errors|
      {
        ghost var rest := script;
        var response := QueryAs(ErrorQueueQuery, strip);
        if response.Err? {
          DrainLoopTimeout(replies, taken, errors, strip);
          AppendTwice(mark, Exchanges(ErrorQueueQuery, taken), [Sent(ErrorQueueQuery)]);
          return Err(response.error);
        }
        ExchangesSnoc(ErrorQueueQuery, taken, rest[0]);
        AppendTwice(mark, Exchanges(ErrorQueueQuery, taken), [Sent(ErrorQueueQuery), Received(rest[0])]);
        ghost var recorded := errors;
        if IsSentinel(response.value) {
          DrainLoopStop(replies, taken, rest, recorded, strip);
          taken := taken + [rest[0]];
          break;
        }
        errors := errors + [response.value];
        if |errors| > MaxErrors {
          errors := errors + [CapMarker];
          DrainLoopStop(replies, taken, rest, recorded, strip);
          assert errors == recorded + [response.value, CapMarker];
          taken := taken + [rest[0]];
          break;
        }
        DrainLoopNext(replies, taken, rest, recorded, strip);
        taken := taken + [rest[0]];
      }
      if |errors| == 0 {
        r := Ok(Null);
      } else {
        r := Ok(Items(errors));
      }
    }

    /** `error_checking` / `ext_error_checking`: raise the instrument error
        when the drain returned a non-empty list. */
    method ErrorChecking(strip: bool) returns (r: Outcome<Error>)
      modifies this`script, this`trace
      ensures var s := ErrorCheckingStep(old(script), strip);
        && (r.Pass? <==> s.result.Ok?) && (r.Fail? ==> r.error == s.result.error)
        && script == s.rest && trace == old(trace) + s.events
    {
      var errors := CheckErrorQueue(strip);
      if errors.Err? {
        return Fail(errors.error);
      }
      if errors.value.Items? && |errors.value.entries| > 0 {
        return Fail(InstrumentError(ExceptionMessage(errors.value)));
      }
      r := Pass;
    }

    /** `set_freq_star`: validate, then write the command once. */
    method SetFreqStart(v: PyValue) returns (r: Outcome<Error>)
      modifies this`trace
      ensures FreqStartCommand(v).Ok? ==> r == Pass && trace == old(trace) + [Sent(FreqStartCommand(v).value)]
      ensures FreqStartCommand(v).Err? ==> r == Fail(FreqStartCommand(v).error) && trace == old(trace)
    {
      if !IsInt(v) {
        return Fail(InstrumentError(EmptyMessage));
      }
      if v.PyInt? && v.i < 0 {
        return Fail(InstrumentError(EmptyMessage));
      }
      var text := if v.PyBool? then (if v.b then "True" else "False") else NatToString(v.i);
      Write(FreqStartPrefix + text);
      r := Pass;
    }

    /** `query_scattering_values` of VISAInstrument.py. */
    method QueryScatteringValues(toFloat: string -> Option<real>) returns (r: Result<seq<Complex>, Error>)
      modifies this`script, this`trace
      ensures var s := FetchStep(old(script), toFloat, true); r == s.result && script == s.rest && trace == old(trace) + s.events
    {
      ghost var t0 := trace;
      ghost var read := ReadStep(script);
      Write(DataQuery);
      var reply := Read();
      AppendTwice(t0, [Sent(DataQuery)], read.events);
      if reply.Err? {
        return Err(reply.error);
      }
      var hf := Decode(reply.value, toFloat);
      if hf.Err? {
        return Err(hf.error);
      }
      ghost var check := ErrorCheckingStep(script, true);
      var checked := ErrorChecking(true);
      AppendTwice(t0, [Sent(DataQuery)] + read.events, check.events);
      if checked.Fail? {
        return Err(checked.error);
      }
      r := Ok(hf.value);
    }

    /** `ext_query_values` of VISAExtension.py: the same fetch and decode,
        with no error check. */
    method ExtQueryValues(toFloat: string -> Option<real>) returns (r: Result<seq<Complex>, Error>)
      modifies this`script, this`trace
      ensures var s := FetchStep(old(script), toFloat, false); r == s.result && script == s.rest && trace == old(trace) + s.events
    {
      Write(DataQuery);
      var reply := Read();
      if reply.Err? {
        return Err(reply.error);
      }
      r := Decode(reply.value, toFloat);
    }

    /** pyvisa's `close`. */
    method Close()
      modifies this`open, this`trace
      ensures !open && trace == old(trace) + [Closed]
    {
      open := false;
      trace := trace + [Closed];
    }
  }

  /** `VISAInstrument(resource, timeout, write_termination, debug)` of
      instrumentcontrol/VISAInstrument.py: the `debug` setter runs first and
      refuses a non-bool before anything is opened; then the resource is
      opened with the timeout and termination, its status cleared
      (`clear_status`), and `*IDN?` queried for the greeting. */
  method OpenInstrument(resource: string, replies: seq<string>, timeout: real, writeTermination: string, debug: PyValue)
    returns (r: Result<Instrument, Error>)
    ensures !debug.PyBool? ==> r == Err(InstrumentError(WrongTypeMessage))
    ensures debug.PyBool? && |replies| < 3 ==> r == Err(Timeout)
    ensures debug.PyBool? && |replies| >= 3 ==>
      && r.Ok? && fresh(r.value)
      && r.value.resource == resource && r.value.debug == debug.b
      && r.value.timeout == timeout && r.value.writeTermination == writeTermination && r.value.open
      && r.value.script == replies[3..]
      && r.value.trace == [DeviceClear, Sent(ClearStatusCommand), Received(replies[0]),
                           Sent(OpcQuery), Received(replies[1]), Sent(IdnQuery), Received(replies[2])]
  {
    if !debug.PyBool? {
      return Err(InstrumentError(WrongTypeMessage));
    }
    var vna := new Instrument(resource, replies, timeout, writeTermination, debug.b);
    var cleared := vna.ClearStatus();
    if cleared.Fail? {
      return Err(cleared.error);
    }
    var idn := vna.Query(IdnQuery);
    if idn.Err? {
      return Err(idn.error);
    }
    r := Ok(vna);
  }
}
