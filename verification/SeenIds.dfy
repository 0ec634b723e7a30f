/** The set of envelope IDs a hub has handled, with its sweep (hub/handshake.go). */
module SeenIds {
  import opened Octets
  import opened Envelopes

  const LIMIT := 4096
  const WINDOW := 600_000_000_000  // ten minutes, in nanoseconds

  type Times = map<GoString, int>

  function Sweep(m: Times, cut: int): Times {
    map k | k in m && !(m[k] < cut) :: m[k]
  }

  /** `Add` at a moment when the clock reads t1, and t2 if it has to sweep. */
  function AddTo(m: Times, id: GoString, t1: int, t2: int): (Times, bool) {
    if id in m then (m, false)
    else
      var m1 := m[id := t1];
      (if |m1| > LIMIT then Sweep(m1, t2 - WINDOW) else m1, true)
  }

  /** Below the limit nothing is swept. */
  lemma AddWithinLimit(m: Times, id: GoString, t1: int, t2: int)
    ensures |m| < LIMIT ==> AddTo(m, id, t1, t2).0.Keys == m.Keys + {id}
    ensures AddTo(m, id, t1, t2).1 <==> id !in m
  {
    if id !in m {
      assert m[id := t1].Keys == m.Keys + {id};
      assert |m[id := t1]| == |m[id := t1].Keys| && |m| == |m.Keys|;
    }
  }

  class SeenIDs {
    var m: Times

    constructor ()
      ensures m == map[]
    {
      m := map[];
    }

    method Add(id: GoString, t1: int, t2: int) returns (ok: bool)
      modifies this
      ensures (m, ok) == AddTo(old(m), id, t1, t2)
      ensures ok <==> id !in old(m)
      ensures !ok ==> m == old(m)
      ensures ok ==> forall k :: k in m <==>
        var then0 := if k == id then t1 else if k in old(m) then old(m)[k] else 0;
        (k == id || k in old(m)) && (|old(m)| + 1 <= 4096 || then0 >= t2 - 600_000_000_000)
    {
      if id in m {
        return false;
      }
      assert m[id := t1].Keys == m.Keys + {id} && |m[id := t1]| == |m[id := t1].Keys| && |m| == |m.Keys|;
      m := m[id := t1];
      if |m| > LIMIT {
        var cut := t2 - WINDOW;
        ghost var m1 := m;
        var rest := m.Keys;
        while rest != {}
          invariant rest <= m.Keys <= m1.Keys
          invariant forall k :: k in m1 ==> (k in m <==> k in rest || !(m1[k] < cut))
          invariant forall k :: k in m ==> m[k] == m1[k]
        {
          var k :| k in rest;
          rest := rest - {k};
          if m[k] < cut {
            m := m - {k};
          }
        }
        assert m == Sweep(m1, cut);
      }
      return true;
    }
  }

  // ----- Sequences of calls -----

  datatype Call = Call(id: GoString, t1: int, t2: int)

  /** The set after the first n calls on an empty one. */
  function After(calls: seq<Call>, n: nat): Times
    requires n <= |calls|
  {
    if n == 0 then map[]
    else AddTo(After(calls, n - 1), calls[n - 1].id, calls[n - 1].t1, calls[n - 1].t2).0
  }

  predicate Accepted(calls: seq<Call>, n: nat)
    requires n < |calls|
  {
    calls[n].id !in After(calls, n)
  }

  /** Call n found more than the limit and swept. */
  predicate Sweeps(calls: seq<Call>, n: nat)
    requires n < |calls|
  {
    Accepted(calls, n) && |After(calls, n)[calls[n].id := calls[n].t1]| > LIMIT
  }

  /** One of the calls i..n-1 swept away everything as old as call i. */
  ghost predicate Forgotten(calls: seq<Call>, i: nat, n: nat)
    requires i <= n <= |calls|
  {
    exists k :: i <= k < n && Sweeps(calls, k) && calls[i].t1 < calls[k].t2 - WINDOW
  }

  /** An accepted ID stays in the set, with its time, until a sweep that is recent enough. */
  lemma {:induction false} Remembered(calls: seq<Call>, i: nat, n: nat)
    requires i < n <= |calls| && Accepted(calls, i)
    ensures Forgotten(calls, i, n) || (calls[i].id in After(calls, n) && After(calls, n)[calls[i].id] == calls[i].t1)
  {
    if n == i + 1 {
      assert Sweeps(calls, i) && calls[i].t1 < calls[i].t2 - WINDOW ==> Forgotten(calls, i, n);
    } else {
      Remembered(calls, i, n - 1);
      if Forgotten(calls, i, n - 1) {
        var k :| i <= k < n - 1 && Sweeps(calls, k) && calls[i].t1 < calls[k].t2 - WINDOW;
        assert Forgotten(calls, i, n);
      } else {
        assert Sweeps(calls, n - 1) && calls[i].t1 < calls[n - 1].t2 - WINDOW ==> Forgotten(calls, i, n);
      }
    }
  }

  /** Whatever is in the set was put there by an accepted call, and not swept since. */
  lemma {:induction false} Origin(calls: seq<Call>, n: nat, id: GoString)
    requires n <= |calls| && id in After(calls, n)
    ensures exists i :: 0 <= i < n && calls[i].id == id && Accepted(calls, i) && After(calls, n)[id] == calls[i].t1 && !Forgotten(calls, i, n)
  {
    var last := n - 1;
    if calls[last].id == id && Accepted(calls, last) {
      assert !Forgotten(calls, last, n);
    } else {
      Origin(calls, n - 1, id);
      var i :| 0 <= i < n - 1 && calls[i].id == id && Accepted(calls, i) && After(calls, n - 1)[id] == calls[i].t1 && !Forgotten(calls, i, n - 1);
      assert !Forgotten(calls, i, n);
    }
  }

  /** Exactly when a call is accepted: every earlier accepted call with its ID has been swept. */
  lemma AcceptedIff(calls: seq<Call>, j: nat)
    requires j < |calls|
    ensures Accepted(calls, j) <==>
      forall i :: 0 <= i < j && calls[i].id == calls[j].id && Accepted(calls, i) ==> Forgotten(calls, i, j)
  {
    if Accepted(calls, j) {
      forall i | 0 <= i < j && calls[i].id == calls[j].id && Accepted(calls, i) ensures Forgotten(calls, i, j) {
        Remembered(calls, i, j);
      }
    } else {
      Origin(calls, j, calls[j].id);
    }
  }

  /** A clock that never goes back. */
  ghost predicate Clock(calls: seq<Call>) {
    && (forall i :: 0 <= i < |calls| ==> calls[i].t1 <= calls[i].t2)
    && (forall i, j :: 0 <= i < j < |calls| ==> calls[i].t2 <= calls[j].t1)
  }

  /** Two accepted calls with the same ID are more than ten minutes apart, and a call between
      them, the first included, found more than 4096 IDs. */
  lemma DedupWindow(calls: seq<Call>, i: nat, j: nat)
    requires Clock(calls) && i < j < |calls|
    requires calls[i].id == calls[j].id && Accepted(calls, i) && Accepted(calls, j)
    ensures calls[j].t1 - calls[i].t1 > 600_000_000_000
    ensures exists k :: i <= k < j && Accepted(calls, k) && |After(calls, k)| >= 4096
  {
    Remembered(calls, i, j);
    var k :| i <= k < j && Sweeps(calls, k);
    var m := After(calls, k);
    assert m[calls[k].id := calls[k].t1].Keys == m.Keys + {calls[k].id};
    assert |m[calls[k].id := calls[k].t1]| == |m[calls[k].id := calls[k].t1].Keys| && |m| == |m.Keys|;
  }

  // ----- Behind the check of the signature -----

  /** An envelope that arrives at `forward`, and what the clock reads there. */
  datatype Arrival = Arrival(env: Envelope, t1: int, t2: int)

  /** The set after one arrival: `Verify` comes before `Add`. */
  function Handle(m: Times, a: Arrival, ed: EdVerify): Times {
    if Verify(a.env, ed).Ok? then AddTo(m, a.env.id, a.t1, a.t2).0 else m
  }

  /** The set after all of these, on an empty one. */
  function Handled(arrivals: seq<Arrival>, ed: EdVerify): Times
    decreases |arrivals|
  {
    if arrivals == [] then map[] else Handle(Handled(arrivals[..|arrivals| - 1], ed), arrivals[|arrivals| - 1], ed)
  }

  /** The envelope of the last arrival goes further. */
  predicate GoesOn(arrivals: seq<Arrival>, ed: EdVerify)
    requires arrivals != []
  {
    var a := arrivals[|arrivals| - 1];
    Verify(a.env, ed).Ok? && a.env.id !in Handled(arrivals[..|arrivals| - 1], ed)
  }

  /** The calls of `Add` that the arrivals make. */
  function Calls(arrivals: seq<Arrival>, ed: EdVerify): seq<Call>
    decreases |arrivals|
  {
    if arrivals == [] then []
    else
      var a := arrivals[|arrivals| - 1];
      Calls(arrivals[..|arrivals| - 1], ed) + if Verify(a.env, ed).Ok? then [Call(a.env.id, a.t1, a.t2)] else []
  }

  lemma {:induction false} AfterPrefix(calls: seq<Call>, more: seq<Call>, n: nat)
    requires n <= |calls|
    ensures After(calls + more, n) == After(calls, n)
  {
    if n > 0 {
      AfterPrefix(calls, more, n - 1);
    }
  }

  /** Whatever arrives in between, envelopes that `Verify` refuses leave no trace in the set. */
  lemma {:induction false} RefusedLeaveNoTrace(arrivals: seq<Arrival>, ed: EdVerify)
    ensures Handled(arrivals, ed) == After(Calls(arrivals, ed), |Calls(arrivals, ed)|)
    decreases |arrivals|
  {
    hide Verify;
    if arrivals != [] {
      var before := arrivals[..|arrivals| - 1];
      RefusedLeaveNoTrace(before, ed);
      var calls := Calls(before, ed);
      var a := arrivals[|arrivals| - 1];
      if Verify(a.env, ed).Ok? {
        var call := Call(a.env.id, a.t1, a.t2);
        AfterPrefix(calls, [call], |calls|);
        assert (calls + [call])[|calls|] == call;
      } else {
        assert calls + [] == calls;
      }
    }
  }

  /** A clock that never goes back, over arrivals. */
  ghost predicate ClockOver(arrivals: seq<Arrival>) {
    && (forall i :: 0 <= i < |arrivals| ==> arrivals[i].t1 <= arrivals[i].t2)
    && (forall i, j :: 0 <= i < j < |arrivals| ==> arrivals[i].t2 <= arrivals[j].t1)
  }

  lemma {:induction false} CallsFrom(arrivals: seq<Arrival>, ed: EdVerify, n: nat)
    requires n < |Calls(arrivals, ed)|
    ensures exists i :: 0 <= i < |arrivals| && Calls(arrivals, ed)[n] == Call(arrivals[i].env.id, arrivals[i].t1, arrivals[i].t2)
    decreases |arrivals|
  {
    hide Verify;
    var before := arrivals[..|arrivals| - 1];
    if n < |Calls(before, ed)| {
      CallsFrom(before, ed, n);
      var i :| 0 <= i < |before| && Calls(before, ed)[n] == Call(before[i].env.id, before[i].t1, before[i].t2);
      assert before[i] == arrivals[i];
    }
  }

  lemma {:induction false} CallsClock(arrivals: seq<Arrival>, ed: EdVerify)
    requires ClockOver(arrivals)
    ensures Clock(Calls(arrivals, ed))
    decreases |arrivals|
  {
    hide Verify;
    if arrivals != [] {
      var before := arrivals[..|arrivals| - 1];
      CallsClock(before, ed);
      var calls := Calls(before, ed);
      forall n | 0 <= n < |calls| ensures calls[n].t2 <= arrivals[|arrivals| - 1].t1 {
        CallsFrom(before, ed, n);
      }
    }
  }

  /** An arrival that goes further makes the last call, and that call is accepted. */
  lemma LastCall(arrivals: seq<Arrival>, ed: EdVerify)
    requires arrivals != [] && GoesOn(arrivals, ed)
    ensures var a, calls := arrivals[|arrivals| - 1], Calls(arrivals, ed);
      var n := |Calls(arrivals[..|arrivals| - 1], ed)|;
      |calls| == n + 1 && calls[n] == Call(a.env.id, a.t1, a.t2) && Accepted(calls, n)
  {
    hide Verify;
    var before, a := arrivals[..|arrivals| - 1], arrivals[|arrivals| - 1];
    RefusedLeaveNoTrace(before, ed);
    AfterPrefix(Calls(before, ed), [Call(a.env.id, a.t1, a.t2)], |Calls(before, ed)|);
  }

  lemma {:induction false} CallsPrefix(early: seq<Arrival>, late: seq<Arrival>, ed: EdVerify)
    ensures Calls(early, ed) <= Calls(early + late, ed)
    decreases |late|
  {
    hide Verify;
    if late == [] {
      assert early + late == early;
    } else {
      CallsPrefix(early, late[..|late| - 1], ed);
      assert (early + late)[..|early + late| - 1] == early + late[..|late| - 1];
    }
  }

  /** Whatever arrives in between, verified or not: two envelopes of one ID that both go further
      are more than ten minutes apart. */
  lemma ForwardedApart(early: seq<Arrival>, late: seq<Arrival>, ed: EdVerify)
    requires early != [] && late != [] && ClockOver(early + late)
    requires GoesOn(early, ed) && GoesOn(early + late, ed)
    requires early[|early| - 1].env.id == late[|late| - 1].env.id
    ensures late[|late| - 1].t1 - early[|early| - 1].t1 > 600_000_000_000
  {
    hide Verify, Clock, Handled, GoesOn, Calls;
    var all := early + late;
    var calls, first := Calls(all, ed), Calls(early, ed);
    assert all[..|all| - 1] == early + late[..|late| - 1];
    LastCall(early, ed);
    LastCall(all, ed);
    CallsPrefix(early, late, ed);
    CallsPrefix(early, late[..|late| - 1], ed);
    CallsClock(all, ed);
    var i, j := |first| - 1, |calls| - 1;
    assert calls == first + calls[|first|..];
    AfterPrefix(first, calls[|first|..], i);
    DedupWindow(calls, i, j);
  }
}
