/** What passes over the instrument bus, the commands the session and the scan
    use (SCPI and the IEEE 488.2 common commands), and the exceptions that
    end an operation. */
module Bus {
  import opened Wrappers
  import opened Text

  /** One thing observable on the bus: a command line written, a reply line
      read (as the device sent it), a device clear, or the resource closed. */
  datatype Event = Sent(cmd: string) | Received(reply: string) | DeviceClear | Closed

  /** The exceptions of the source: pyvisa's VisaIOError when no reply comes
      within the timeout, Python's ValueError from `int()`/`float()` of a
      reply that is no number, IndexError from `positions[0]` on an empty
      plan, and the instrument-error exception with its message. */
  datatype Error = Timeout | ValueError | IndexError | InstrumentError(message: string)

  const IdnQuery := "*IDN?"
  const ClearStatusCommand := "*CLS"
  const ClearStatusAndWait := "*CLS;*OPC?"
  const OpcQuery := "*OPC?"
  const StatusByteQuery := "*STB?"
  const ErrorQueueQuery := "SYST:ERR?"
  const ByteOrderQuery := "FORMat:BORDer?"
  const SweepTimeAuto := "SENS1:SWE:TIME:AUTO 1"
  const SweepTimeQuery := "SENS1:SWE:TIME?"
  const ContinuousOff := "INIT:CONT:ALL OFF"
  const ContinuousOn := "INIT:CONT:ALL ON"
  const DisplayOff := "SYST:DISP:UPD OFF"
  const DisplayOn := "SYST:DISP:UPD ON"
  const TriggerAndWait := "INIT1:IMM; *WAI"
  const DataQuery := "CALC:DATA? SDAT"
  const FreqStartPrefix := "SENS1:FREQ:STAR "

  /** The bus traffic of one query per reply: write `cmd`, read the reply. */
  function Exchanges(cmd: string, replies: seq<string>): (e: seq<Event>)
    ensures |e| == 2 * |replies|
  {
    if replies == [] then [] else [Sent(cmd), Received(replies[0])] + Exchanges(cmd, replies[1..])
  }

  /** One more query appends one write and one read. */
  lemma {:induction false} ExchangesSnoc(cmd: string, replies: seq<string>, reply: string)
    ensures Exchanges(cmd, replies + [reply]) == Exchanges(cmd, replies) + [Sent(cmd), Received(reply)]
  {
    if replies != [] {
      assert (replies + [reply])[1..] == replies[1..] + [reply];
      ExchangesSnoc(cmd, replies[1..], reply);
    }
  }

  /** Every command written in `events` is one of `cmds`. */
  ghost predicate SendsOnly(events: seq<Event>, cmds: set<string>) {
    forall i :: 0 <= i < |events| && events[i].Sent? ==> events[i].cmd in cmds
  }

  /** Repeated queries write nothing but their own command. */
  lemma {:induction false} ExchangesSendOnly(cmd: string, replies: seq<string>)
    ensures SendsOnly(Exchanges(cmd, replies), {cmd})
  {
    if replies != [] {
      ExchangesSendOnly(cmd, replies[1..]);
      var e := Exchanges(cmd, replies);
      assert e == [Sent(cmd), Received(replies[0])] + Exchanges(cmd, replies[1..]);
      forall i | 2 <= i < |e| ensures e[i] == Exchanges(cmd, replies[1..])[i - 2] { }
    }
  }

  lemma SendsOnlyConcat(a: seq<Event>, b: seq<Event>, cmds: set<string>)
    requires SendsOnly(a, cmds) && SendsOnly(b, cmds)
    ensures SendsOnly(a + b, cmds)
  {
    forall i | |a| <= i < |a + b| ensures (a + b)[i] == b[i - |a|] { }
  }

  lemma SendsOnlyWiden(a: seq<Event>, cmds: set<string>, more: set<string>)
    requires SendsOnly(a, cmds) && cmds <= more
    ensures SendsOnly(a, more)
  {
  }

  /** Extending a trace whose new part writes only `cmds` by events that write
      only `cmds` keeps that property of everything after `start`. */
  lemma SendsOnlySince(start: seq<Event>, before: seq<Event>, added: seq<Event>, cmds: set<string>)
    requires start <= before
    requires SendsOnly(before[|start|..], cmds) && SendsOnly(added, cmds)
    ensures start <= before + added
    ensures SendsOnly((before + added)[|start|..], cmds)
  {
    assert (before + added)[|start|..] == before[|start|..] + added;
    SendsOnlyConcat(before[|start|..], added, cmds);
  }

  /** The commands written in `events`, in the order they were written. */
  function Sends(events: seq<Event>): seq<string>
  {
    if events == [] then [] else (if events[0].Sent? then [events[0].cmd] else []) + Sends(events[1..])
  }

  lemma {:induction false} SendsAppend(a: seq<Event>, b: seq<Event>)
    ensures Sends(a + b) == Sends(a) + Sends(b)
    decreases |a|
  {
    if a == [] {
      assert a + b == b;
    } else {
      assert (a + b)[1..] == a[1..] + b;
      SendsAppend(a[1..], b);
    }
  }

  /** A query writes its command once and reads once. */
  lemma SendsQuery(cmd: string, reply: string)
    ensures Sends([Sent(cmd), Received(reply)]) == [cmd]
  {
    var e := [Sent(cmd), Received(reply)];
    assert e[1..] == [Received(reply)] && [Received(reply)][1..] == [];
    assert Sends([Received(reply)]) == [] + Sends([]);
    assert Sends(e) == [cmd] + Sends(e[1..]);
  }

  /** Repeated queries write their command once per reply, and nothing else. */
  lemma {:induction false} SendsExchanges(cmd: string, replies: seq<string>)
    ensures |Sends(Exchanges(cmd, replies))| == |replies|
    ensures forall i :: 0 <= i < |replies| ==> Sends(Exchanges(cmd, replies))[i] == cmd
  {
    if replies != [] {
      SendsExchanges(cmd, replies[1..]);
      SendsAppend([Sent(cmd), Received(replies[0])], Exchanges(cmd, replies[1..]));
      SendsQuery(cmd, replies[0]);
    }
  }

  /** A run of writes writes its commands in order. */
  lemma {:induction false} SendsOfWrites(events: seq<Event>)
    requires forall i :: 0 <= i < |events| ==> events[i].Sent?
    ensures Sends(events) == seq(|events|, i requires 0 <= i < |events| => events[i].cmd)
  {
    if events != [] {
      SendsOfWrites(events[1..]);
    }
  }

  /** What one session primitive does against a scripted instrument: its
      result, the replies still to come, and the bus events it produced. */
  datatype Step<+T> = Step(result: Result<T, Error>, rest: seq<string>, events: seq<Event>)

  /** `read()`: take the next reply and strip trailing whitespace; with no
      reply coming, pyvisa times out. */
  function ReadStep(script: seq<string>): (s: Step<string>)
    ensures s.result.Ok? <==> script != []
    ensures s.result.Ok? ==> s.result.value == RStrip(script[0]) && s.rest == script[1..]
    ensures s.result.Err? ==> s.result.error == Timeout && s.rest == script
    ensures s.events == if script == [] then [] else [Received(script[0])]
  {
    if script == [] then Step(Err(Timeout), script, [])
    else Step(Ok(RStrip(script[0])), script[1..], [Received(script[0])])
  }

  /** pyvisa's own `query(cmd)`: write the command, then read one reply as
      it came. */
  function RawQueryStep(cmd: string, script: seq<string>): (s: Step<string>)
    ensures s.result.Ok? <==> script != []
    ensures s.result.Ok? ==> s.result.value == script[0] && s.rest == script[1..]
    ensures s.result.Err? ==> s.result.error == Timeout && s.rest == script
    ensures s.events == if script == [] then [Sent(cmd)] else [Sent(cmd), Received(script[0])]
  {
    if script == [] then Step(Err(Timeout), script, [Sent(cmd)])
    else Step(Ok(script[0]), script[1..], [Sent(cmd), Received(script[0])])
  }

  /** The session's `query(cmd)`: pyvisa's query, then strip trailing
      whitespace from the reply. */
  function QueryStep(cmd: string, script: seq<string>): (s: Step<string>)
    ensures s.result.Ok? <==> script != []
    ensures s.result.Ok? ==> s.result.value == RStrip(script[0]) && s.rest == script[1..]
    ensures s.result.Err? ==> s.result.error == Timeout && s.rest == script
    ensures s.events == if script == [] then [Sent(cmd)] else [Sent(cmd), Received(script[0])]
  {
    var r := RawQueryStep(cmd, script);
    Step(if r.result.Ok? then Ok(RStrip(r.result.value)) else r.result, r.rest, r.events)
  }

  /** Each reply stripped of trailing whitespace, as `query` returns it. */
  function Stripped(replies: seq<string>): seq<string>
  {
    seq(|replies|, i requires 0 <= i < |replies| => RStrip(replies[i]))
  }

  lemma StrippedCons(replies: seq<string>)
    requires replies != []
    ensures Stripped(replies) == [RStrip(replies[0])] + Stripped(replies[1..])
  {
    assert Stripped(replies)[1..] == Stripped(replies[1..]);
  }
}
