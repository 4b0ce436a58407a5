/** A counter sharded over lanes, and what a lane-by-lane load may answer while others add. */
module LaneCounter {

  function Sum(s: seq<int>): int {
    if s == [] then 0 else Sum(s[..|s| - 1]) + s[|s| - 1]
  }

  lemma {:induction false} SumUpdate(s: seq<int>, i: nat, v: int)
    requires i < |s|
    ensures Sum(s[i := v]) == Sum(s) - s[i] + v
  {
    var t, n := s[i := v], |s| - 1;
    if i == n {
      assert t[..n] == s[..n];
    } else {
      assert t[..n] == s[..n][i := v];
      SumUpdate(s[..n], i, v);
    }
  }

  lemma SumStep(s: seq<int>, n: nat)
    requires n < |s|
    ensures Sum(s[..n + 1]) == Sum(s[..n]) + s[n]
  {
    assert s[..n + 1][..n] == s[..n];
  }

  const LANES := 32

  type Thread = int

  class MultiLaneAtomic {
    const atomics: array<int>
    /** Shared by every counter of the program in the source; here one counter is considered. */
    var laneCounter: nat
    var threadLane: map<Thread, nat>

    constructor ()
      ensures fresh(atomics) && atomics.Length == 32 && laneCounter == 0 && threadLane == map[]
      ensures Valid() && atomics[..] == Idle([], LANES) && Total() == 0
    {
      atomics := new int[LANES](_ => 0);
      laneCounter, threadLane := 0, map[];
      new;
      ZeroSum(atomics[..]);
      assert atomics[..] == Idle([], LANES);
    }

    function Total(): int
      reads atomics
    {
      Sum(atomics[..])
    }

    ghost predicate Valid()
      reads this
    {
      atomics.Length == LANES && forall t :: t in threadLane ==> threadLane[t] < LANES
    }

    /** The lane a thread has, or is about to get. */
    function LaneOf(thread: Thread): nat
      reads this
    {
      if thread in threadLane then threadLane[thread] else laneCounter % LANES
    }

    /** A thread's lane: handed out round-robin on first use, then kept. */
    method MyAtomic(thread: Thread) returns (lane: nat)
      requires Valid()
      modifies `laneCounter, `threadLane
      ensures Valid() && lane < LANES && thread in threadLane && threadLane[thread] == lane == old(LaneOf(thread))
      ensures thread in old(threadLane) ==> threadLane == old(threadLane) && laneCounter == old(laneCounter)
      ensures thread !in old(threadLane) ==> lane == old(laneCounter) % LANES && laneCounter == old(laneCounter) + 1
      ensures thread !in old(threadLane) ==> threadLane == old(threadLane)[thread := lane]
    {
      if thread !in threadLane {
        threadLane := threadLane[thread := laneCounter % LANES];
        laneCounter := laneCounter + 1;
      }
      lane := threadLane[thread];
    }

    /** The thread has its lane, a fresh one only if it had none; all others have theirs. */
    predicate Assigned(before: map<Thread, nat>, count: nat, thread: Thread)
      reads this
    {
      if thread in before then threadLane == before && laneCounter == count
      else threadLane == before[thread := count % LANES] && laneCounter == count + 1
    }

    /** One `Add` step on the thread's lane; answers what that lane held, not the total. */
    method FetchAdd(thread: Thread, arg: int) returns (was: int)
      requires Valid()
      modifies atomics, `laneCounter, `threadLane
      ensures Valid() && Assigned(old(threadLane), old(laneCounter), thread)
      ensures was == old(atomics[..])[LaneOf(thread)]
      ensures atomics[..] == old(atomics[..])[LaneOf(thread) := was + arg]
      ensures State(atomics[..], 0, 0) == Step(State(old(atomics[..]), 0, 0), Add(LaneOf(thread), arg))
      ensures Total() == old(Total()) + arg
      ensures was == old(Total()) <==> Sum(old(atomics[..])[LaneOf(thread) := 0]) == 0
    {
      var lane := MyAtomic(thread);
      ghost var before := atomics[..];
      was := atomics[lane];
      atomics[lane] := was + arg;
      SumUpdate(before, lane, was + arg);
      OwnLaneIsTotalIff(before, lane);
      assert atomics[..] == before[lane := was + arg];
    }

    /** `++` before the counter: one more than the own lane held, which is the new total exactly
        when the other lanes cancel out. */
    method Increment(thread: Thread) returns (now: int)
      requires Valid()
      modifies atomics, `laneCounter, `threadLane
      ensures Valid() && Assigned(old(threadLane), old(laneCounter), thread)
      ensures atomics[..] == old(atomics[..])[LaneOf(thread) := now] && now == old(atomics[..])[LaneOf(thread)] + 1
      ensures Total() == old(Total()) + 1
      ensures now == Total() <==> Sum(atomics[..][LaneOf(thread) := 0]) == 0
    {
      var was := FetchAdd(thread, 1);
      OwnLaneIsTotalIff(atomics[..], LaneOf(thread));
      now := was + 1;
    }

    /** One `Read` step a lane, from the first to the last. */
    method Load() returns (result: int)
      ensures Execute(State(atomics[..], 0, 0), Reads(atomics.Length)) == State(atomics[..], atomics.Length, result)
      ensures result == Total()
    {
      result := 0;
      ghost var lanes := atomics[..];
      for i := 0 to atomics.Length
        invariant Execute(State(lanes, 0, 0), Reads(i)) == State(lanes, i, result)
        invariant result == Sum(lanes[..i])
      {
        SumStep(lanes, i);
        assert Reads(i + 1)[..i] == Reads(i) && Reads(i + 1)[i] == Read;
        result := result + atomics[i];
      }
      assert lanes[..atomics.Length] == lanes;
    }

    /** The first lane takes the value, all others become 0. */
    method Store(desired: int)
      requires Valid()
      modifies atomics
      ensures Valid() && Total() == desired
      ensures atomics[..] == [desired] + seq(LANES - 1, _ => 0)
    {
      var left := desired;
      for i := 0 to atomics.Length
        invariant left == if i == 0 then desired else 0
        invariant forall k :: 0 <= k < i ==> atomics[k] == if k == 0 then desired else 0
      {
        atomics[i] := left;
        left := 0;
      }
      StoredSum(atomics[..], desired);
      assert atomics[..] == [desired] + seq(LANES - 1, _ => 0);
    }
  }

  lemma {:induction false} ZeroSum(s: seq<int>)
    requires forall k :: 0 <= k < |s| ==> s[k] == 0
    ensures Sum(s) == 0
    decreases |s|
  {
    if s != [] { ZeroSum(s[..|s| - 1]); }
  }

  lemma {:induction false} StoredSum(s: seq<int>, first: int)
    requires s != [] && s[0] == first && forall k :: 0 < k < |s| ==> s[k] == 0
    ensures Sum(s) == first
    decreases |s|
  {
    if |s| > 1 { StoredSum(s[..|s| - 1], first); } else { assert s[..0] == []; }
  }

  // ----- a load among concurrent adds

  /** One atomic step: some thread's fetch_add on its lane, or the load reading its next lane. */
  datatype Event = Add(lane: nat, arg: int) | Read

  /** `next` lanes have been read into `acc`. */
  datatype State = State(lanes: seq<int>, next: nat, acc: int)

  function Step(s: State, e: Event): State {
    match e
    case Add(lane, arg) => if lane < |s.lanes| then s.(lanes := s.lanes[lane := s.lanes[lane] + arg]) else s
    case Read => if s.next < |s.lanes| then s.(next := s.next + 1, acc := s.acc + s.lanes[s.next]) else s
  }

  function Execute(s: State, events: seq<Event>): State
    decreases |events|
  {
    if events == [] then s else Step(Execute(s, events[..|events| - 1]), events[|events| - 1])
  }

  function AddedBy(n: nat, events: seq<Event>): int
    decreases |events|
  {
    if events == [] then 0 else
      var e := events[|events| - 1];
      AddedBy(n, events[..|events| - 1]) + if e.Add? && e.lane < n then e.arg else 0
  }

  /** No add is lost: the true total is the initial one plus everything added. */
  lemma {:induction false} TotalIsConserved(s: State, events: seq<Event>)
    ensures var t := Execute(s, events);
            |t.lanes| == |s.lanes| && Sum(t.lanes) == Sum(s.lanes) + AddedBy(|s.lanes|, events)
    decreases |events|
  {
    if events != [] {
      var before, e := events[..|events| - 1], events[|events| - 1];
      TotalIsConserved(s, before);
      var t := Execute(s, before);
      if e.Add? && e.lane < |t.lanes| { SumUpdate(t.lanes, e.lane, t.lanes[e.lane] + e.arg); }
    }
  }

  function Reads(n: nat): (events: seq<Event>)
    ensures |events| == n && forall k :: 0 <= k < n ==> events[k] == Read
  {
    seq(n, _ => Read)
  }

  /** One lane is the whole total exactly when the others sum to 0. */
  lemma OwnLaneIsTotalIff(lanes: seq<int>, i: nat)
    requires i < |lanes|
    ensures lanes[i] == Sum(lanes) <==> Sum(lanes[i := 0]) == 0
  {
    SumUpdate(lanes, i, 0);
  }

  /** `count` idle lanes behind the given ones. */
  function Idle(lanes: seq<int>, count: nat): (r: seq<int>)
    ensures |r| == |lanes| + count && r[..|lanes|] == lanes
    ensures forall k :: |lanes| <= k < |r| ==> r[k] == 0
  {
    lanes + seq(count, _ => 0)
  }

  lemma {:induction false} IdleSum(lanes: seq<int>, count: nat)
    ensures Sum(Idle(lanes, count)) == Sum(lanes)
    decreases count
  {
    var r := Idle(lanes, count);
    if count == 0 {
      assert r == lanes;
    } else {
      assert r[..|r| - 1] == Idle(lanes, count - 1);
      IdleSum(lanes, count - 1);
    }
  }

  /** Two threads count one each, from idle lanes: the second one's `++` answers 1, the total is 2. */
  method TwoThreadsCount() returns (second: int, total: int)
    ensures second == 1 && total == 2
  {
    var counter := new MultiLaneAtomic();
    var first := counter.Increment(0);
    second := counter.Increment(1);
    total := counter.Load();
  }

  /** The same as steps: before its add the second thread's lane holds 0, afterwards the total is 2. */
  lemma IncrementAnswersItsLane()
    ensures var start := State(Idle([], LANES), 0, 0);
            var before, after := Execute(start, [Add(0, 1)]), Execute(start, [Add(0, 1), Add(1, 1)]);
            && |before.lanes| == LANES && before.lanes[1] + 1 == 1
            && Sum(after.lanes) == 2
  {
    var start := State(Idle([], LANES), 0, 0);
    var e := [Add(0, 1), Add(1, 1)];
    assert e[..1] == [Add(0, 1)] && e[..1][..0] == [];
    assert Execute(start, e[..1]) == Step(start, Add(0, 1));
    ZeroSum(start.lanes);
    TotalIsConserved(start, e);
    assert AddedBy(LANES, e[..1]) == 1;
  }
}
