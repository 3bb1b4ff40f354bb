/** The course of the scan in measurement.py, as a timeline of what the
    script does with the antenna and the analyser: which moves, settles,
    pauses and acquisitions happen, and in which order. */
module Scan {

  /** The pause after each settle, before an acquisition, in milliseconds. */
  const PauseMillis: nat := 500

  datatype Action = Move(pos: int) | Settle | Pause(ms: nat) | Acquire(pos: int)

  /** One visit to a position: move the antenna, let it settle, pause, then
      acquire there. */
  function Visit(pos: int): seq<Action> {
    [Move(pos), Settle, Pause(PauseMillis), Acquire(pos)]
  }

  /** One visit to each position, in order. */
  function Visits(ps: seq<int>): (a: seq<Action>)
    ensures |a| == 4 * |ps|
  {
    if ps == [] then [] else Visit(ps[0]) + Visits(ps[1..])
  }

  lemma {:induction false} VisitsSnoc(ps: seq<int>, p: int)
    ensures Visits(ps + [p]) == Visits(ps) + Visit(p)
    decreases |ps|
  {
    if ps == [] {
      assert ps + [p] == [p];
      assert Visits([p]) == Visit(p) + Visits([]);
    } else {
      assert (ps + [p])[1..] == ps[1..] + [p];
      VisitsSnoc(ps[1..], p);
    }
  }

  /** Action m of the j-th visit of a run of visits. */
  lemma {:induction false} VisitsAt(ps: seq<int>, j: nat, m: nat)
    requires j < |ps| && m < 4
    ensures Visits(ps)[4 * j + m] == Visit(ps[j])[m]
    decreases j
  {
    if j > 0 {
      VisitsAt(ps[1..], j - 1, m);
      assert Visits(ps) == Visit(ps[0]) + Visits(ps[1..]);
    }
  }

  /** The timeline of the first `i` turns of the position loop. The first
      turn, while `first` is set, acquires a second time right after the
      first acquisition. */
  function ScanPrefix(ps: seq<int>, i: nat): seq<Action>
    requires i <= |ps|
  {
    if i == 0 then [] else Visit(ps[0]) + [Acquire(ps[0])] + Visits(ps[1..i])
  }

  /** The timeline of a scan that raises nothing: the whole position loop,
      then the homing visit back to the first position. */
  function ScanActions(ps: seq<int>): seq<Action>
    requires ps != []
  {
    ScanPrefix(ps, |ps|) + Visit(ps[0])
  }

  /** The positions acquired in a scan that raises nothing: the first twice,
      then every other one in order, then the first again. */
  function Schedule(ps: seq<int>): seq<int>
    requires ps != []
  {
    [ps[0]] + ps + [ps[0]]
  }

  /** The positions acquired on a timeline, in order. */
  function Acquired(actions: seq<Action>): seq<int>
  {
    if actions == [] then []
    else (if actions[0].Acquire? then [actions[0].pos] else []) + Acquired(actions[1..])
  }

  lemma {:induction false} AcquiredAppend(a: seq<Action>, b: seq<Action>)
    ensures Acquired(a + b) == Acquired(a) + Acquired(b)
    decreases |a|
  {
    if a == [] {
      assert a + b == b;
    } else {
      var head := if a[0].Acquire? then [a[0].pos] else [];
      assert (a + b)[0] == a[0] && (a + b)[1..] == a[1..] + b;
      assert Acquired(a + b) == head + Acquired(a[1..] + b);
      AcquiredAppend(a[1..], b);
      assert Acquired(a) == head + Acquired(a[1..]);
    }
  }

  lemma AcquiredVisit(p: int)
    ensures Acquired(Visit(p)) == [p]
  {
    var v3 := [Acquire(p)];
    var v2 := [Pause(PauseMillis)] + v3;
    var v1 := [Settle] + v2;
    assert Visit(p) == [Move(p)] + v1;
    assert v3[1..] == [] && v2[1..] == v3 && v1[1..] == v2 && ([Move(p)] + v1)[1..] == v1;
    assert Acquired(v3) == [p];
    assert Acquired(v2) == [p];
    assert Acquired(v1) == [p];
  }

  /** Visiting positions acquires exactly those positions, in order. */
  lemma {:induction false} AcquiredVisits(ps: seq<int>)
    ensures Acquired(Visits(ps)) == ps
    decreases |ps|
  {
    if ps != [] {
      AcquiredVisits(ps[1..]);
      AcquiredAppend(Visit(ps[0]), Visits(ps[1..]));
      AcquiredVisit(ps[0]);
    }
  }

  /** A later turn of the loop (not the first) adds exactly one visit. */
  lemma ScanPrefixNext(ps: seq<int>, i: nat)
    requires 1 <= i < |ps|
    ensures ScanPrefix(ps, i + 1) == ScanPrefix(ps, i) + Visit(ps[i])
  {
    assert ps[1..i + 1] == ps[1..i] + [ps[i]];
    VisitsSnoc(ps[1..i], ps[i]);
  }

  /** After `i` turns the positions acquired are the first one, then the
      first `i` positions. */
  lemma AcquiredScanPrefix(ps: seq<int>, i: nat)
    requires i <= |ps|
    ensures Acquired(ScanPrefix(ps, i)) == if i == 0 then [] else [ps[0]] + ps[..i]
  {
    if i > 0 {
      var head := Visit(ps[0]) + [Acquire(ps[0])];
      AcquiredAppend(Visit(ps[0]), [Acquire(ps[0])]);
      AcquiredVisit(ps[0]);
      assert Acquired([Acquire(ps[0])]) == [ps[0]] + Acquired([]);
      AcquiredAppend(head, Visits(ps[1..i]));
      AcquiredVisits(ps[1..i]);
      assert [ps[0]] + ps[1..i] == ps[..i];
    }
  }

  /** A scan that raises nothing acquires at `Schedule(ps)`: `|ps| + 2`
      acquisitions, the first position twice at the start and once more at
      the end. */
  lemma ScanSchedule(ps: seq<int>)
    requires ps != []
    ensures Acquired(ScanActions(ps)) == Schedule(ps)
    ensures |Schedule(ps)| == |ps| + 2
    ensures Schedule(ps)[0] == Schedule(ps)[1] == Schedule(ps)[|ps| + 1] == ps[0]
    ensures Schedule(ps)[1..|ps| + 1] == ps
  {
    AcquiredScanPrefix(ps, |ps|);
    AcquiredAppend(ScanPrefix(ps, |ps|), Visit(ps[0]));
    AcquiredVisit(ps[0]);
    assert ps[..|ps|] == ps;
  }

  /** Every timeline of the first turns is a beginning of the whole scan. */
  lemma {:induction false} ScanPrefixIsPrefix(ps: seq<int>, i: nat)
    requires ps != [] && i <= |ps|
    ensures ScanPrefix(ps, i) <= ScanActions(ps)
    decreases |ps| - i
  {
    if i < |ps| {
      ScanPrefixIsPrefix(ps, i + 1);
      if i > 0 {
        ScanPrefixNext(ps, i);
      }
    }
  }

  lemma {:induction false} VisitsConcat(ps: seq<int>, qs: seq<int>)
    ensures Visits(ps + qs) == Visits(ps) + Visits(qs)
    decreases |ps|
  {
    if ps == [] {
      assert ps + qs == qs;
    } else {
      assert (ps + qs)[1..] == ps[1..] + qs;
      VisitsConcat(ps[1..], qs);
    }
  }

  /** Acquisitions of a beginning of a timeline begin the acquisitions of
      the whole. */
  lemma AcquiredPrefix(a: seq<Action>, b: seq<Action>)
    requires a <= b
    ensures Acquired(a) <= Acquired(b)
  {
    assert b == a + b[|a|..];
    AcquiredAppend(a, b[|a|..]);
  }

  /** The timeline of one turn of the position loop: a visit, and on the
      first turn a second acquisition at the same position. */
  function TurnActions(pos: int, first: bool): seq<Action> {
    Visit(pos) + (if first then [Acquire(pos)] else [])
  }

  /** Turn `i` of the position loop extends the timeline of the turns
      before it, and what it leaves is still a beginning of the scan. */
  lemma TurnIsPrefix(ps: seq<int>, i: nat)
    requires i < |ps|
    ensures ScanPrefix(ps, i) + TurnActions(ps[i], i == 0) == ScanPrefix(ps, i + 1)
    ensures ScanPrefix(ps, i + 1) <= ScanActions(ps)
  {
    ScanPrefixIsPrefix(ps, i + 1);
    if i == 0 {
      assert Visits(ps[1..1]) == [];
    } else {
      ScanPrefixNext(ps, i);
    }
  }

  /** The scan as one run of visits after the repeated first acquisition:
      the visits go to the positions after the first, then back home. */
  lemma ScanLayout(ps: seq<int>)
    requires ps != []
    ensures ScanActions(ps) == Visit(ps[0]) + [Acquire(ps[0])] + Visits(ps[1..] + [ps[0]])
  {
    assert ps[1..|ps|] == ps[1..];
    VisitsSnoc(ps[1..], ps[0]);
  }

  /** The first five actions of the scan: the first visit and the repeated
      acquisition. */
  lemma ScanStart(ps: seq<int>)
    requires ps != []
    ensures |ScanActions(ps)| == 4 * |ps| + 5
    ensures ScanActions(ps)[..5] == Visit(ps[0]) + [Acquire(ps[0])]
    ensures ScanActions(ps)[0] == Move(ps[0]) && ScanActions(ps)[1] == Settle
    ensures ScanActions(ps)[2] == Pause(PauseMillis)
    ensures ScanActions(ps)[3] == ScanActions(ps)[4] == Acquire(ps[0])
  {
    ScanLayout(ps);
  }

  /** After those, action m of the j-th visit, the homing visit last. */
  lemma ScanAt(ps: seq<int>, j: nat, m: nat)
    requires ps != [] && j < |ps| && m < 4
    ensures |ScanActions(ps)| == 4 * |ps| + 5
    ensures ScanActions(ps)[5 + 4 * j + m] == Visit((ps[1..] + [ps[0]])[j])[m]
  {
    ScanLayout(ps);
    var head := Visit(ps[0]) + [Acquire(ps[0])];
    var rest := ps[1..] + [ps[0]];
    VisitsAt(rest, j, m);
    assert ScanActions(ps)[5 + 4 * j + m] == Visits(rest)[4 * j + m];
  }

  /** A move after the first five actions opens its visit: the settle, the
      pause and the acquisition at the same position follow. */
  lemma MoveOpensVisit(ps: seq<int>, j: nat, m: nat)
    requires ps != [] && j < |ps| && m < 4 && 5 + 4 * j + m < |ScanActions(ps)|
    requires ScanActions(ps)[5 + 4 * j + m].Move?
    ensures var a := ScanActions(ps); var k := 5 + 4 * j + m;
      k + 3 < |a| && a[k + 1] == Settle && a[k + 2] == Pause(PauseMillis) && a[k + 3] == Acquire(a[k].pos)
  {
    ScanAt(ps, j, m);
    assert m == 0;
    ScanAt(ps, j, 1);
    ScanAt(ps, j, 2);
    ScanAt(ps, j, 3);
  }

  /** Every move on the scan's timeline is followed by a settle, the pause,
      and an acquisition at the position moved to, the homing move
      included. */
  lemma MovesSettleBeforeAcquiring(ps: seq<int>)
    requires ps != []
    ensures var a := ScanActions(ps);
      forall k :: 0 <= k < |a| && a[k].Move? ==>
        k + 3 < |a| && a[k + 1] == Settle && a[k + 2] == Pause(PauseMillis) && a[k + 3] == Acquire(a[k].pos)
  {
    var a := ScanActions(ps);
    ScanStart(ps);
    forall k | 0 <= k < |a| && a[k].Move?
      ensures k + 3 < |a| && a[k + 1] == Settle && a[k + 2] == Pause(PauseMillis) && a[k + 3] == Acquire(a[k].pos)
    {
      if k >= 5 {
        var j, m := (k - 5) / 4, (k - 5) % 4;
        assert k == 5 + 4 * j + m;
        MoveOpensVisit(ps, j, m);
      }
    }
  }

  /** An acquisition after the first five actions closes its visit: the
      next action, if any, is the move of the next visit. */
  lemma AcquireClosesVisit(ps: seq<int>, j: nat, m: nat)
    requires ps != [] && j < |ps| && m < 4 && 5 + 4 * j + m + 1 < |ScanActions(ps)|
    requires ScanActions(ps)[5 + 4 * j + m].Acquire?
    ensures ScanActions(ps)[5 + 4 * j + m + 1].Move?
  {
    ScanAt(ps, j, m);
    assert m == 3;
    ScanAt(ps, j + 1, 0);
  }

  /** Only the first position is acquired twice back to back, with no move
      between: after every other acquisition but the last, the next action
      is a move. */
  lemma OnlyFirstTwice(ps: seq<int>)
    requires ps != []
    ensures var a := ScanActions(ps);
      && a[3] == a[4] == Acquire(ps[0])
      && forall k :: 0 <= k < |a| - 1 && k != 3 && a[k].Acquire? ==> a[k + 1].Move?
  {
    var a := ScanActions(ps);
    ScanStart(ps);
    forall k | 0 <= k < |a| - 1 && k != 3 && a[k].Acquire? ensures a[k + 1].Move? {
      if k == 4 {
        ScanAt(ps, 0, 0);
      } else if k > 4 {
        var j, m := (k - 5) / 4, (k - 5) % 4;
        assert k == 5 + 4 * j + m;
        AcquireClosesVisit(ps, j, m);
      }
    }
  }

  /** The positions the antenna is moved to on a timeline, in order. */
  function Moves(actions: seq<Action>): seq<int>
  {
    if actions == [] then []
    else (if actions[0].Move? then [actions[0].pos] else []) + Moves(actions[1..])
  }

  lemma {:induction false} MovesAppend(a: seq<Action>, b: seq<Action>)
    ensures Moves(a + b) == Moves(a) + Moves(b)
    decreases |a|
  {
    if a == [] {
      assert a + b == b;
    } else {
      var head := if a[0].Move? then [a[0].pos] else [];
      assert (a + b)[0] == a[0] && (a + b)[1..] == a[1..] + b;
      assert Moves(a + b) == head + Moves(a[1..] + b);
      MovesAppend(a[1..], b);
      assert Moves(a) == head + Moves(a[1..]);
    }
  }

  /** A stretch of timeline without a move moves nothing. */
  lemma {:induction false} MovesNone(a: seq<Action>)
    requires forall k :: 0 <= k < |a| ==> !a[k].Move?
    ensures Moves(a) == []
    decreases |a|
  {
    if a != [] {
      MovesNone(a[1..]);
    }
  }

  /** A turn that moves to the next position extends the moves so far by it. */
  lemma MovesNext(before: seq<Action>, acts: seq<Action>, ps: seq<int>, i: nat)
    requires i < |ps| && Moves(before) == ps[..i] && Moves(acts) == [ps[i]]
    ensures Moves(before + acts) == ps[..i + 1]
  {
    MovesAppend(before, acts);
    assert ps[..i] + [ps[i]] == ps[..i + 1];
  }

  /** Any beginning of one turn that reaches the pause has moved the
      antenna exactly once, to the turn's position. */
  lemma MovesInTurn(acts: seq<Action>, pos: int, first: bool)
    requires acts <= TurnActions(pos, first) && |acts| >= 3
    ensures Moves(acts) == [pos]
  {
    var t := TurnActions(pos, first);
    assert acts[0] == Move(pos);
    assert forall k :: 1 <= k < |acts| ==> acts[k] == t[k];
    MovesNone(acts[1..]);
    assert Moves(acts) == [pos] + Moves(acts[1..]);
  }

  /** Visiting positions moves to exactly those positions, in order. */
  lemma {:induction false} MovesVisits(ps: seq<int>)
    ensures Moves(Visits(ps)) == ps
    decreases |ps|
  {
    if ps != [] {
      MovesVisits(ps[1..]);
      MovesAppend(Visit(ps[0]), Visits(ps[1..]));
      MovesInTurn(Visit(ps[0]), ps[0], false);
    }
  }

  /** A scan that raises nothing moves the antenna to every position once,
      in order, and then back to the first: `|ps| + 1` moves, one per
      settle. */
  lemma MovesOfScan(ps: seq<int>)
    requires ps != []
    ensures Moves(ScanActions(ps)) == ps + [ps[0]]
  {
    ScanLayout(ps);
    var head := Visit(ps[0]) + [Acquire(ps[0])];
    MovesInTurn(head, ps[0], true);
    MovesAppend(head, Visits(ps[1..] + [ps[0]]));
    MovesVisits(ps[1..] + [ps[0]]);
    assert [ps[0]] + (ps[1..] + [ps[0]]) == ps + [ps[0]];
  }
}
