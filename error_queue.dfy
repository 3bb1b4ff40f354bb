/** The status-byte check and error-queue drain of the session
    (`check_error_queue`, `error_checking`, and the exception message), as
    specification functions over the replies the instrument will give. The
    status byte is that of IEEE 488.2 (section 11.2, bit 2 = error/event
    queue not empty); the queue is read with SCPI's `SYSTem:ERRor?`. */
module ErrorQueue {
  import opened Wrappers
  import opened Text
  import opened Bus

  /** The safety stop: once more than this many errors are recorded, the drain gives up. */
  const MaxErrors := 50
  const CapMarker := "Cannot clear the error queue"
  /** The sentinel the code looks for, quotes included. */
  const Sentinel := "\"no error\""

  /** A reply ends the drain when its lower-case form contains `"no error"`. */
  predicate IsSentinel(reply: string) {
    Contains(Lower(reply), Sentinel)
  }

  /** Python's `(stb & 4) != 0`; for negative `stb` too, since `%` here is Euclidean. */
  predicate ErrorQueuePending(stb: int) {
    stb % 8 >= 4
  }

  /** What `check_error_queue` returns: Python's `None` or a list. */
  datatype Drained = Null | Items(entries: seq<string>)

  /** The end of the `while True` loop: the errors recorded, how many
      `SYST:ERR?` replies were consumed, and whether the replies ran out
      (a read timeout inside the loop). */
  datatype Drain = Drain(errors: seq<string>, consumed: nat, timedOut: bool)

  /** The drain loop, reply by reply, from the errors recorded so far. */
  function DrainFrom(replies: seq<string>, errors: seq<string>): (d: Drain)
    requires |errors| <= MaxErrors
    ensures d.consumed <= |replies|
    decreases |replies|
  {
    if replies == [] then Drain(errors, 0, true)
    else if IsSentinel(replies[0]) then Drain(errors, 1, false)
    else if |errors| + 1 > MaxErrors then Drain(errors + [replies[0], CapMarker], 1, false)
    else
      var d := DrainFrom(replies[1..], errors + [replies[0]]);
      Drain(d.errors, d.consumed + 1, d.timedOut)
  }

  /** The drain only appends to what it was given; it reads at most one
      reply past the cap; a timeout means every reply was an error and came
      within the cap, so the query that times out is at most the 51st; it never
      records more than the cap, the reply past it and the marker, and the
      marker is the last entry when it is there. */
  lemma {:induction false} DrainBounds(replies: seq<string>, errors: seq<string>)
    requires |errors| <= MaxErrors
    ensures var d := DrainFrom(replies, errors);
      && errors <= d.errors
      && d.consumed <= MaxErrors + 1 - |errors|
      && (d.timedOut ==> d.consumed == |replies| && |d.errors| == |errors| + d.consumed)
      && (d.timedOut ==> |errors| + d.consumed <= MaxErrors)
      && |d.errors| <= MaxErrors + 2
      && (|d.errors| == MaxErrors + 2 ==> !d.timedOut && d.errors[MaxErrors + 1] == CapMarker)
    decreases |replies|
  {
    if replies != [] && !IsSentinel(replies[0]) && |errors| + 1 <= MaxErrors {
      DrainBounds(replies[1..], errors + [replies[0]]);
    }
  }

  /** One reply of the drain: the sentinel ends it, the reply past the cap
      ends it with the marker, any other reply is recorded and the drain
      goes on. */
  lemma DrainNext(replies: seq<string>, errors: seq<string>)
    requires replies != [] && |errors| <= MaxErrors
    ensures IsSentinel(replies[0]) ==> DrainFrom(replies, errors) == Drain(errors, 1, false)
    ensures !IsSentinel(replies[0]) && |errors| + 1 > MaxErrors ==>
      DrainFrom(replies, errors) == Drain(errors + [replies[0], CapMarker], 1, false)
    ensures !IsSentinel(replies[0]) && |errors| + 1 <= MaxErrors ==>
      var d := DrainFrom(replies[1..], errors + [replies[0]]);
      DrainFrom(replies, errors) == Drain(d.errors, d.consumed + 1, d.timedOut)
  {
  }

  /** A reply as the drain sees it: through the class's own `query`, which
      strips trailing whitespace (`strip`), or through pyvisa's `query` as it
      came, as `ext_check_error_queue` does. */
  function Seen(reply: string, strip: bool): string {
    if strip then RStrip(reply) else reply
  }

  function SeenAll(replies: seq<string>, strip: bool): (r: seq<string>)
    ensures |r| == |replies|
  {
    if strip then Stripped(replies) else replies
  }

  lemma SeenAllCons(replies: seq<string>, strip: bool)
    requires replies != []
    ensures SeenAll(replies, strip) == [Seen(replies[0], strip)] + SeenAll(replies[1..], strip)
  {
    if strip {
      StrippedCons(replies);
    }
  }

  /** The state of the `SYST:ERR?` loop after reading the replies `taken`,
      with `rest` still to come and `errors` recorded: what is left of the
      drain is the drain of `rest` from `errors`. */
  ghost predicate DrainLoop(replies: seq<string>, taken: seq<string>, rest: seq<string>, errors: seq<string>, strip: bool) {
    && |errors| <= MaxErrors
    && replies == taken + rest
    && var d := DrainFrom(SeenAll(rest, strip), errors);
       DrainFrom(SeenAll(replies, strip), []) == Drain(d.errors, d.consumed + |taken|, d.timedOut)
  }

  lemma DrainLoopStart(replies: seq<string>, strip: bool)
    ensures DrainLoop(replies, [], replies, [], strip)
  {
  }

  /** A reply that is neither the sentinel nor past the cap is recorded and
      the loop goes on. */
  lemma DrainLoopNext(replies: seq<string>, taken: seq<string>, rest: seq<string>, errors: seq<string>, strip: bool)
    requires DrainLoop(replies, taken, rest, errors, strip) && rest != []
    requires !IsSentinel(Seen(rest[0], strip)) && |errors| + 1 <= MaxErrors
    ensures DrainLoop(replies, taken + [rest[0]], rest[1..], errors + [Seen(rest[0], strip)], strip)
  {
    var seen := SeenAll(rest, strip);
    SeenAllCons(rest, strip);
    assert seen[0] == Seen(rest[0], strip) && seen[1..] == SeenAll(rest[1..], strip);
    DrainNext(seen, errors);
    assert taken + rest == (taken + [rest[0]]) + rest[1..];
  }

  /** The sentinel, or the reply past the cap, ends the drain one reply
      further on. */
  lemma DrainLoopEnds(replies: seq<string>, taken: seq<string>, rest: seq<string>, errors: seq<string>, strip: bool)
    requires DrainLoop(replies, taken, rest, errors, strip) && rest != []
    requires IsSentinel(Seen(rest[0], strip)) || |errors| + 1 > MaxErrors
    ensures var reply := Seen(rest[0], strip);
      DrainFrom(SeenAll(replies, strip), [])
        == Drain(if IsSentinel(reply) then errors else errors + [reply, CapMarker], |taken| + 1, false)
  {
    var seen := SeenAll(rest, strip);
    SeenAllCons(rest, strip);
    assert seen[0] == Seen(rest[0], strip);
    DrainNext(seen, errors);
  }

  /** The sentinel, or the reply past the cap, ends the loop: the drain's
      outcome is what the loop returns. */
  lemma DrainLoopStop(replies: seq<string>, taken: seq<string>, rest: seq<string>, errors: seq<string>, strip: bool)
    requires DrainLoop(replies, taken, rest, errors, strip) && rest != []
    requires IsSentinel(Seen(rest[0], strip)) || |errors| + 1 > MaxErrors
    ensures var found := if IsSentinel(Seen(rest[0], strip)) then errors else errors + [Seen(rest[0], strip), CapMarker];
      DrainStep(replies, strip) == Step(Ok(Shape(found)), rest[1..], Exchanges(ErrorQueueQuery, taken + [rest[0]]))
  {
    DrainLoopEnds(replies, taken, rest, errors, strip);
    var reply := Seen(rest[0], strip);
    DrainStepFinished(replies, strip, if IsSentinel(reply) then errors else errors + [reply, CapMarker], |taken| + 1);
    assert replies[..|taken| + 1] == taken + [rest[0]];
    assert replies[|taken| + 1..] == rest[1..];
  }

  lemma DrainStepFinished(replies: seq<string>, strip: bool, found: seq<string>, n: nat)
    requires DrainFrom(SeenAll(replies, strip), []) == Drain(found, n, false)
    ensures DrainStep(replies, strip) == Step(Ok(Shape(found)), replies[n..], Exchanges(ErrorQueueQuery, replies[..n]))
  {
  }

  /** Running out of replies is pyvisa's timeout, raised out of the loop. */
  lemma DrainLoopTimeout(replies: seq<string>, taken: seq<string>, errors: seq<string>, strip: bool)
    requires DrainLoop(replies, taken, [], errors, strip)
    ensures DrainStep(replies, strip) == Step(Err(Timeout), [], Exchanges(ErrorQueueQuery, taken) + [Sent(ErrorQueueQuery)])
  {
    assert DrainFrom(SeenAll([], strip), errors) == Drain(errors, 0, true);
    assert replies[..|taken|] == taken && replies[|taken|..] == [];
  }

  ghost predicate NoSentinel(replies: seq<string>) {
    forall j :: 0 <= j < |replies| ==> !IsSentinel(replies[j])
  }

  /** The drain stops at the FIRST sentinel within the cap; the errors are
      the replies before it, verbatim and in order, and the sentinel itself
      is consumed but not recorded. */
  lemma {:induction false} DrainStopsAtSentinel(replies: seq<string>, errors: seq<string>, k: nat)
    requires |errors| + k <= MaxErrors
    requires k < |replies| && IsSentinel(replies[k]) && NoSentinel(replies[..k])
    ensures DrainFrom(replies, errors) == Drain(errors + replies[..k], k + 1, false)
  {
    if k == 0 {
      assert errors + replies[..0] == errors;
    } else {
      assert !IsSentinel(replies[0]);
      DrainStopsAtSentinel(replies[1..], errors + [replies[0]], k - 1);
      assert errors + [replies[0]] + replies[1..][..k - 1] == errors + replies[..k];
    }
  }

  /** Without a sentinel among the next replies, the drain records replies
      up to the 51st error, appends the marker, and stops. */
  lemma {:induction false} DrainCapped(replies: seq<string>, errors: seq<string>)
    requires |errors| <= MaxErrors
    requires |replies| >= MaxErrors + 1 - |errors|
    requires NoSentinel(replies[..MaxErrors + 1 - |errors|])
    ensures DrainFrom(replies, errors)
         == Drain(errors + replies[..MaxErrors + 1 - |errors|] + [CapMarker], MaxErrors + 1 - |errors|, false)
    decreases MaxErrors - |errors|
  {
    assert !IsSentinel(replies[0]);
    if |errors| == MaxErrors {
      assert errors + [replies[0], CapMarker] == errors + replies[..1] + [CapMarker];
    } else {
      var n := MaxErrors + 1 - |errors|;
      assert replies[1..][..n - 1] == replies[1..n];
      DrainCapped(replies[1..], errors + [replies[0]]);
      assert errors + [replies[0]] + replies[1..][..n - 1] == errors + replies[..n];
    }
  }

  /** When the replies run out before a sentinel or the cap, the next
      `SYST:ERR?` read times out. */
  lemma {:induction false} DrainTimesOut(replies: seq<string>, errors: seq<string>)
    requires |errors| + |replies| <= MaxErrors
    requires NoSentinel(replies)
    ensures DrainFrom(replies, errors) == Drain(errors + replies, |replies|, true)
  {
    if replies == [] {
      assert errors + replies == errors;
    } else {
      DrainTimesOut(replies[1..], errors + [replies[0]]);
      assert errors + [replies[0]] + replies[1..] == errors + replies;
    }
  }

  /** The marker is not itself a sentinel. */
  lemma CapMarkerIsNoSentinel()
    ensures !IsSentinel(CapMarker)
  {
    MissingCharacter(Lower(CapMarker), Sentinel, 0);
  }

  /** A string lacking one of the characters of `part` does not contain it. */
  lemma MissingCharacter(s: string, part: string, j: nat)
    requires j < |part| && part[j] !in s
    ensures !Contains(s, part)
  {
    ContainsIff(s, part);
    forall i | 0 <= i <= |s| ensures !(part <= s[i..]) {
      if i + j < |s| {
        assert s[i..][j] == s[i + j];
      }
    }
  }

  /** No recorded entry is a sentinel, whatever the replies. */
  lemma {:induction false} DrainRecordsNoSentinel(replies: seq<string>, errors: seq<string>)
    requires |errors| <= MaxErrors && NoSentinel(errors)
    ensures NoSentinel(DrainFrom(replies, errors).errors)
    decreases |replies|
  {
    if replies != [] && !IsSentinel(replies[0]) {
      if |errors| + 1 > MaxErrors {
        CapMarkerIsNoSentinel();
        var e := errors + [replies[0], CapMarker];
        assert forall j :: 0 <= j < |e| ==> e[j] in errors || e[j] == replies[0] || e[j] == CapMarker;
      } else {
        var e := errors + [replies[0]];
        assert forall j :: 0 <= j < |e| ==> e[j] in errors || e[j] == replies[0];
        DrainRecordsNoSentinel(replies[1..], e);
      }
    }
  }

  /** `None` for an empty list of errors, the list otherwise. */
  function Shape(errors: seq<string>): (r: Drained)
    ensures r.Null? <==> errors == []
    ensures r.Items? ==> r.entries == errors
  {
    if errors == [] then Null else Items(errors)
  }

  /** The `while True` loop of `check_error_queue` and the `None`-or-list
      return after it, over the replies to come. */
  function DrainStep(replies: seq<string>, strip: bool): (s: Step<Drained>)
  {
    var d := DrainFrom(SeenAll(replies, strip), []);
    Step(if d.timedOut then Err(Timeout) else Ok(Shape(d.errors)),
         replies[d.consumed..],
         Exchanges(ErrorQueueQuery, replies[..d.consumed])
           + (if d.timedOut then [Sent(ErrorQueueQuery)] else []))
  }

  /** `check_error_queue`: query `*STB?` and parse it with `int()`; with
      bit 2 clear, return `[]`; otherwise drain `SYST:ERR?`. */
  function CheckQueueStep(script: seq<string>, strip: bool): (s: Step<Drained>)
  {
    if script == [] then Step(Err(Timeout), [], [Sent(StatusByteQuery)])
    else
      var head := [Sent(StatusByteQuery), Received(script[0])];
      var stb := ParseInt(Seen(script[0], strip));
      if stb.None? then Step(Err(ValueError), script[1..], head)
      else if !ErrorQueuePending(stb.value) then Step(Ok(Items([])), script[1..], head)
      else
        var d := DrainStep(script[1..], strip);
        Step(d.result, d.rest, head + d.events)
  }

  /** With bit 2 set, the check is the `*STB?` exchange followed by the
      drain of the replies after it. */
  lemma CheckQueuePending(script: seq<string>, strip: bool)
    requires script != [] && ParseInt(Seen(script[0], strip)).Some?
    requires ErrorQueuePending(ParseInt(Seen(script[0], strip)).value)
    ensures var d := DrainStep(script[1..], strip);
      CheckQueueStep(script, strip) == Step(d.result, d.rest, [Sent(StatusByteQuery), Received(script[0])] + d.events)
  {
  }

  /** A blank `*STB?` reply, an empty one included, makes `int()` raise
      ValueError before any `SYST:ERR?` is written. */
  lemma CheckQueueBlankStatus(script: seq<string>, strip: bool)
    requires script != [] && forall i :: 0 <= i < |script[0]| ==> IsSpace(script[0][i])
    ensures CheckQueueStep(script, strip) == Step(Err(ValueError), script[1..], [Sent(StatusByteQuery), Received(script[0])])
  {
    var seen := Seen(script[0], strip);
    RStripLaw(script[0]);
    assert forall i :: 0 <= i < |seen| ==> IsSpace(seen[i]);
    ParseIntRejectsBlank(seen);
  }

  /** With bit 2 clear: exactly one `*STB?`, no `SYST:ERR?`, and `[]`. */
  lemma CheckQueueFlagClear(script: seq<string>, stb: int, strip: bool)
    requires script != [] && ParseInt(script[0]) == Some(stb) && !ErrorQueuePending(stb)
    ensures CheckQueueStep(script, strip) == Step(Ok(Items([])), script[1..], [Sent(StatusByteQuery), Received(script[0])])
  {
    ParseIntStripped(script[0]);
  }

  /** With bit 2 set and the sentinel as first queue reply: `None`, not `[]`. */
  lemma CheckQueueSentinelFirst(script: seq<string>, stb: int, strip: bool)
    requires |script| >= 2 && ParseInt(script[0]) == Some(stb) && ErrorQueuePending(stb)
    requires IsSentinel(Seen(script[1], strip))
    ensures CheckQueueStep(script, strip)
         == Step(Ok(Null), script[2..],
                 [Sent(StatusByteQuery), Received(script[0]), Sent(ErrorQueueQuery), Received(script[1])])
  {
    ParseIntStripped(script[0]);
    DrainSentinelFirst(script[1..], strip);
  }

  lemma DrainSentinelFirst(replies: seq<string>, strip: bool)
    requires replies != [] && IsSentinel(Seen(replies[0], strip))
    ensures DrainStep(replies, strip) == Step(Ok(Null), replies[1..], [Sent(ErrorQueueQuery), Received(replies[0])])
  {
    var stripped := SeenAll(replies, strip);
    SeenAllCons(replies, strip);
    DrainStopsAtSentinel(stripped, [], 0);
    assert replies[..1] == [replies[0]];
    assert Exchanges(ErrorQueueQuery, [replies[0]]) == [Sent(ErrorQueueQuery), Received(replies[0])];
  }

  /** Whatever the replies: at most 51 `SYST:ERR?` queries, at most 52 entries,
      the 52nd being the marker, and no entry is a sentinel. */
  lemma CheckQueueBounded(script: seq<string>, strip: bool)
    ensures var s := CheckQueueStep(script, strip);
      && |s.events| <= 2 + 2 * (MaxErrors + 1)
      && |Sends(s.events)| <= 1 + (MaxErrors + 1)
      && (s.result.Ok? && s.result.value.Items? ==>
            var es := s.result.value.entries;
            && |es| <= MaxErrors + 2
            && (|es| == MaxErrors + 2 ==> es[MaxErrors + 1] == CapMarker)
            && NoSentinel(es))
  {
    if script == [] {
      assert Sends([Sent(StatusByteQuery)]) == [StatusByteQuery];
    } else {
      var head := [Sent(StatusByteQuery), Received(script[0])];
      SendsQuery(StatusByteQuery, script[0]);
      var stb := ParseInt(Seen(script[0], strip));
      if stb.Some? && ErrorQueuePending(stb.value) {
        var replies := script[1..];
        DrainRecordsNoSentinel(SeenAll(replies, strip), []);
        DrainBounds(SeenAll(replies, strip), []);
        var d := DrainFrom(SeenAll(replies, strip), []);
        var tail := if d.timedOut then [Sent(ErrorQueueQuery)] else [];
        var drain := Exchanges(ErrorQueueQuery, replies[..d.consumed]) + tail;
        assert CheckQueueStep(script, strip).events == head + drain;
        SendsExchanges(ErrorQueueQuery, replies[..d.consumed]);
        SendsAppend(Exchanges(ErrorQueueQuery, replies[..d.consumed]), tail);
        assert |Sends(tail)| == |tail| by {
          if d.timedOut { assert Sends(tail) == [ErrorQueueQuery]; }
        }
        SendsAppend(head, drain);
      } else {
        assert CheckQueueStep(script, strip).events == head;
      }
    }
  }

  /** Raise exactly when the drain produced a non-empty list. */
  predicate Raises(d: Drained) {
    d.Items? && d.entries != []
  }

  /** The exception's message: the entries joined by newlines, or `''` for
      `None` or an empty list. */
  function ExceptionMessage(d: Drained): string {
    if Raises(d) then Join(d.entries, "\n") else ""
  }

  /** The message keeps every entry, in order: splitting it at the newlines
      gives the entries back (entries are single lines). */
  lemma MessageSplitsIntoEntries(d: Drained)
    requires Raises(d)
    requires forall k :: 0 <= k < |d.entries| ==> '\n' !in d.entries[k]
    ensures Split(ExceptionMessage(d), '\n') == d.entries
  {
    SplitJoin(d.entries, '\n');
  }

  /** A string given where the list is expected is iterated character by
      character: `'Wrong type.'` becomes `'W\nr\no…'`, never the string itself. */
  lemma MessageOfString(s: string)
    requires |s| >= 2
    ensures var m := ExceptionMessage(Items(Chars(s)));
      |m| == 2 * |s| - 1 && m[1] == '\n' && m != s
  {
    JoinChars(s);
  }

  /** `error_checking`: drain, then raise with the message when the result is
      a non-empty list; exceptions from the drain propagate unchanged. */
  function ErrorCheckingStep(script: seq<string>, strip: bool): (s: Step<()>)
  {
    var c := CheckQueueStep(script, strip);
    Step(match c.result
         case Err(e) => Err(e)
         case Ok(d) => if Raises(d) then Err(InstrumentError(ExceptionMessage(d))) else Ok(()),
         c.rest, c.events)
  }

  /** `error_checking` raises the instrument error if and only if the drain
      returned a non-empty list, carrying exactly that list's message; it has
      the same bus traffic as the drain. */
  lemma ErrorCheckingRaisesIffErrors(script: seq<string>, strip: bool)
    ensures var s := ErrorCheckingStep(script, strip); var c := CheckQueueStep(script, strip);
      && ((s.result.Err? && s.result.error.InstrumentError?)
            <==> (c.result.Ok? && Raises(c.result.value)))
      && (c.result.Ok? && Raises(c.result.value) ==>
            s.result.error.message == Join(c.result.value.entries, "\n"))
      && (s.result.Ok? <==> c.result.Ok? && !Raises(c.result.value))
      && s.rest == c.rest && s.events == c.events
  {
    var c := CheckQueueStep(script, strip);
    if c.result.Err? {
      assert !c.result.error.InstrumentError?;
    }
  }

  const ExampleErrorA := "-100,\"err A\""
  const ExampleErrorB := "-200,\"err B\""
  const ExampleEnd := "0,\"No error\""

  lemma PendingFour()
    ensures ErrorQueuePending(4)
  {
  }

  lemma ParseFour()
    ensures ParseInt("4") == Some(4)
  {
    assert RStrip("4") == "4";
    assert LStrip("4") == "4";
    assert AllDigits("4");
    assert DigitsValue("4") == DigitsValue("") * 10 + DigitValue('4');
  }

  lemma ExampleReplies()
    ensures RStrip(ExampleErrorA) == ExampleErrorA && RStrip(ExampleErrorB) == ExampleErrorB
    ensures RStrip(ExampleEnd) == ExampleEnd
    ensures !IsSentinel(ExampleErrorA) && !IsSentinel(ExampleErrorB) && IsSentinel(ExampleEnd)
    ensures !IsSentinel("0,No error")
  {
    assert RStrip(ExampleErrorA) == ExampleErrorA;
    assert RStrip(ExampleErrorB) == ExampleErrorB;
    assert RStrip(ExampleEnd) == ExampleEnd;
    MissingCharacter(Lower(ExampleErrorA), Sentinel, 1);
    MissingCharacter(Lower(ExampleErrorB), Sentinel, 1);
    MissingCharacter(Lower("0,No error"), Sentinel, 0);
    assert Lower(ExampleEnd)[2..] == Sentinel;
    ContainsFromAt(Lower(ExampleEnd), Sentinel, 0, 2);
  }

  /** Two queued errors and then the sentinel: both errors come back, in
      order, and the whole script is consumed. */
  lemma DrainTwoErrors(status: string, stb: int, a: string, b: string, z: string, strip: bool)
    requires ParseInt(status) == Some(stb) && ErrorQueuePending(stb)
    requires !IsSentinel(Seen(a, strip)) && !IsSentinel(Seen(b, strip)) && IsSentinel(Seen(z, strip))
    ensures CheckQueueStep([status, a, b, z], strip)
         == Step(Ok(Items([Seen(a, strip), Seen(b, strip)])), [],
                 [Sent(StatusByteQuery), Received(status)] + Exchanges(ErrorQueueQuery, [a, b, z]))
  {
    ParseIntStripped(status);
    assert [status, a, b, z][1..] == [a, b, z];
    DrainStepTwoErrors(a, b, z, strip);
  }

  lemma DrainStepTwoErrors(a: string, b: string, z: string, strip: bool)
    requires !IsSentinel(Seen(a, strip)) && !IsSentinel(Seen(b, strip)) && IsSentinel(Seen(z, strip))
    ensures DrainStep([a, b, z], strip)
         == Step(Ok(Items([Seen(a, strip), Seen(b, strip)])), [], Exchanges(ErrorQueueQuery, [a, b, z]))
  {
    var replies := [a, b, z];
    var seen := SeenAll(replies, strip);
    assert seen == [Seen(a, strip), Seen(b, strip), Seen(z, strip)];
    assert NoSentinel(seen[..2]);
    DrainStopsAtSentinel(seen, [], 2);
    assert [] + seen[..2] == [Seen(a, strip), Seen(b, strip)];
    assert replies[..3] == replies;
    assert replies[3..] == [];
  }

  /** A worked drain: bit 2 set, two queued errors, then the sentinel; both
      copies of the drain give the same list here, the replies having no
      trailing whitespace. */
  lemma DrainExample(script: seq<string>, strip: bool)
    requires script == ["4", ExampleErrorA, ExampleErrorB, ExampleEnd]
    ensures CheckQueueStep(script, strip)
         == Step(Ok(Items([ExampleErrorA, ExampleErrorB])), [],
                 [Sent(StatusByteQuery), Received("4")]
                   + Exchanges(ErrorQueueQuery, [ExampleErrorA, ExampleErrorB, ExampleEnd]))
  {
    ParseFour();
    PendingFour();
    ExampleReplies();
    assert Seen(ExampleErrorA, strip) == ExampleErrorA && Seen(ExampleErrorB, strip) == ExampleErrorB;
    assert Seen(ExampleEnd, strip) == ExampleEnd;
    DrainTwoErrors("4", 4, ExampleErrorA, ExampleErrorB, ExampleEnd, strip);
  }

  /** The same script makes `error_checking` raise with both errors, joined
      in order. */
  lemma RaiseExample(script: seq<string>, strip: bool)
    requires script == ["4", ExampleErrorA, ExampleErrorB, ExampleEnd]
    ensures ErrorCheckingStep(script, strip).result == Err(InstrumentError(ExampleErrorA + "\n" + ExampleErrorB))
  {
    DrainExample(script, strip);
    ErrorCheckingRaisesIffErrors(script, strip);
    assert Join([ExampleErrorA, ExampleErrorB], "\n") == ExampleErrorA + "\n" + Join([ExampleErrorB], "\n");
  }

  /** The drain writes nothing but `SYST:ERR?`. */
  lemma DrainSendOrder(replies: seq<string>, strip: bool)
    ensures forall i :: 0 <= i < |Sends(DrainStep(replies, strip).events)| ==>
      Sends(DrainStep(replies, strip).events)[i] == ErrorQueueQuery
  {
    var d := DrainFrom(SeenAll(replies, strip), []);
    var tail := if d.timedOut then [Sent(ErrorQueueQuery)] else [];
    SendsExchanges(ErrorQueueQuery, replies[..d.consumed]);
    SendsAppend(Exchanges(ErrorQueueQuery, replies[..d.consumed]), tail);
    assert Sends(tail) == if d.timedOut then [ErrorQueueQuery] else [];
  }

  /** The error check writes `*STB?` first, then nothing but `SYST:ERR?`. */
  lemma CheckQueueSendOrder(script: seq<string>, strip: bool)
    ensures var sends := Sends(CheckQueueStep(script, strip).events);
      && |sends| >= 1 && sends[0] == StatusByteQuery
      && forall i :: 1 <= i < |sends| ==> sends[i] == ErrorQueueQuery
  {
    if script == [] {
      assert Sends([Sent(StatusByteQuery)]) == [StatusByteQuery];
    } else {
      var head := [Sent(StatusByteQuery), Received(script[0])];
      SendsQuery(StatusByteQuery, script[0]);
      var stb := ParseInt(Seen(script[0], strip));
      if stb.Some? && ErrorQueuePending(stb.value) {
        var drain := DrainStep(script[1..], strip);
        assert CheckQueueStep(script, strip).events == head + drain.events;
        DrainSendOrder(script[1..], strip);
        SendsAppend(head, drain.events);
      } else {
        assert CheckQueueStep(script, strip).events == head;
      }
    }
  }

  /** The drain writes nothing but `*STB?` and `SYST:ERR?`. */
  lemma CheckQueueSends(script: seq<string>, strip: bool)
    ensures SendsOnly(CheckQueueStep(script, strip).events, {StatusByteQuery, ErrorQueueQuery})
  {
    if script != [] {
      var head := [Sent(StatusByteQuery), Received(script[0])];
      var replies := script[1..];
      var d := DrainFrom(SeenAll(replies, strip), []);
      ExchangesSendOnly(ErrorQueueQuery, replies[..d.consumed]);
      var tail := if d.timedOut then [Sent(ErrorQueueQuery)] else [];
      SendsOnlyConcat(Exchanges(ErrorQueueQuery, replies[..d.consumed]), tail, {ErrorQueueQuery});
      SendsOnlyWiden(DrainStep(replies, strip).events, {ErrorQueueQuery}, {StatusByteQuery, ErrorQueueQuery});
      SendsOnlyConcat(head, DrainStep(replies, strip).events, {StatusByteQuery, ErrorQueueQuery});
    }
  }

  /** The sentinel test gives the same answer on a reply and on the reply
      stripped of trailing whitespace: the sentinel ends in a quote, which is
      no whitespace. */
  lemma SentinelIgnoresTrailingSpace(reply: string)
    ensures IsSentinel(RStrip(reply)) <==> IsSentinel(reply)
  {
    var r := RStrip(reply);
    RStripLaw(reply);
    LowerPrefix(r, reply);
    if IsSentinel(r) {
      ContainsInLonger(Lower(r), Lower(reply), Sentinel);
    }
    if IsSentinel(reply) {
      forall k | |r| <= k < |reply| ensures Lower(reply)[k] != '"' {
        assert IsSpace(reply[k]);
      }
      ContainsInPrefix(Lower(r), Lower(reply), Sentinel);
    }
  }

  lemma LowerPrefix(a: string, b: string)
    requires a <= b
    ensures Lower(a) <= Lower(b)
  {
  }

  /** What a string contains, a longer string it begins does too. */
  lemma ContainsInLonger(a: string, b: string, part: string)
    requires a <= b && Contains(a, part)
    ensures Contains(b, part)
  {
    ContainsIff(a, part);
    var i :| 0 <= i <= |a| && part <= a[i..];
    forall k | 0 <= k < |part| ensures part[k] == b[i..][k] {
      assert part[k] == a[i..][k] == a[i + k];
    }
    ContainsFromAt(b, part, 0, i);
  }

  /** An occurrence whose last character cannot lie past the prefix lies in
      the prefix. */
  lemma ContainsInPrefix(a: string, b: string, part: string)
    requires a <= b && part != [] && Contains(b, part)
    requires forall k :: |a| <= k < |b| ==> b[k] != part[|part| - 1]
    ensures Contains(a, part)
  {
    ContainsIff(b, part);
    var i :| 0 <= i <= |b| && part <= b[i..];
    var last := |part| - 1;
    assert b[i..][last] == b[i + last];
    forall k | 0 <= k < |part| ensures part[k] == a[i..][k] {
      assert part[k] == b[i..][k] == b[i + k];
    }
    ContainsFromAt(a, part, 0, i);
  }

  /** The list with every entry stripped. */
  function StripDrained(d: Drained): (r: Drained)
    ensures r.Null? <==> d.Null?
  {
    match d
    case Null => Null
    case Items(es) => Items(Stripped(es))
  }

  lemma StrippedSnoc(es: seq<string>, x: string)
    ensures Stripped(es + [x]) == Stripped(es) + [RStrip(x)]
  {
  }

  lemma CapMarkerStripped()
    ensures RStrip(CapMarker) == CapMarker
  {
  }

  /** Draining the stripped replies is draining the raw replies and then
      stripping every entry: the same replies are consumed, and the marker
      is unchanged by stripping. */
  lemma {:induction false} DrainStripCommutes(replies: seq<string>, errors: seq<string>)
    requires |errors| <= MaxErrors
    ensures var raw := DrainFrom(replies, errors); var clean := DrainFrom(Stripped(replies), Stripped(errors));
      && clean.consumed == raw.consumed && clean.timedOut == raw.timedOut
      && clean.errors == Stripped(raw.errors)
    decreases |replies|
  {
    if replies != [] {
      var x := replies[0];
      StrippedCons(replies);
      SentinelIgnoresTrailingSpace(x);
      if !IsSentinel(x) {
        StrippedSnoc(errors, x);
        if |errors| + 1 > MaxErrors {
          CapMarkerStripped();
          StrippedSnoc(errors + [x], CapMarker);
          assert errors + [x, CapMarker] == errors + [x] + [CapMarker];
          assert Stripped(errors) + [RStrip(x), CapMarker] == Stripped(errors) + [RStrip(x)] + [CapMarker];
        } else {
          DrainStripCommutes(replies[1..], errors + [x]);
        }
      }
    }
  }

  /** The class's drain and the extension's drain read the same replies,
      produce the same bus traffic and fail the same way; where they return
      a list, the class's is the extension's with every entry stripped. The
      one exception is a status byte that `int()` reads only once stripped
      (an information separator in its trailing whitespace): there the
      extension raises ValueError right after `*STB?`. */
  lemma CopiesAgree(script: seq<string>)
    ensures var c := CheckQueueStep(script, true); var e := CheckQueueStep(script, false);
      (script == [] || ParseInt(RStrip(script[0])) == ParseInt(script[0])) ==>
      && c.rest == e.rest && c.events == e.events
      && (c.result.Err? <==> e.result.Err?)
      && (c.result.Err? ==> c.result.error == e.result.error)
      && (c.result.Ok? ==> c.result.value == StripDrained(e.result.value))
    ensures script != [] && ParseInt(RStrip(script[0])) != ParseInt(script[0]) ==>
      && ParseInt(RStrip(script[0])).Some?
      && CheckQueueStep(script, false) == Step(Err(ValueError), script[1..], [Sent(StatusByteQuery), Received(script[0])])
  {
    if script != [] {
      ParseIntStripped(script[0]);
      DrainCopiesAgree(script[1..]);
    }
  }

  /** The two copies of the drain read the same replies and raise alike;
      the list of the stripping copy is the other's, stripped. */
  lemma DrainCopiesAgree(replies: seq<string>)
    ensures var c := DrainStep(replies, true); var e := DrainStep(replies, false);
      && c.rest == e.rest && c.events == e.events
      && (c.result.Err? <==> e.result.Err?) && (c.result.Err? ==> c.result == e.result)
      && (c.result.Ok? ==> c.result.value == StripDrained(e.result.value))
  {
    DrainStripCommutes(replies, []);
    assert Stripped([]) == [];
    var raw := DrainFrom(replies, []);
    assert |Stripped(raw.errors)| == |raw.errors|;
  }

  /** The status reply `4` followed by an information separator: the class
      strips it, reads 4 and drains to `None`; the extension's `int()`
      raises ValueError. */
  lemma CopiesDifferOnSeparator()
    ensures var script := ["4\U{001C}", ExampleEnd];
      && CheckQueueStep(script, true).result == Ok(Null)
      && CheckQueueStep(script, false).result == Err(ValueError)
  {
    SeparatorExample();
    ExampleReplies();
    var script := ["4\U{001C}", ExampleEnd];
    assert Seen(script[0], true) == "4";
    DrainSentinelFirst(script[1..], true);
  }
}
