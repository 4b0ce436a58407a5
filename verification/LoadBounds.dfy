/** What a lane-by-lane load may answer while other threads add, read off the schedule alone. */
module LoadBounds {
  import opened LaneCounter

  // ----- what a load sees

  function ReadsIn(events: seq<Event>): nat
    decreases |events|
  {
    if events == [] then 0 else
      ReadsIn(events[..|events| - 1]) + if events[|events| - 1].Read? then 1 else 0
  }

  /** The adds to lanes, out of n, that are read only afterwards; `done` lanes were read before. */
  function Seen(done: nat, n: nat, events: seq<Event>): int
    decreases |events|
  {
    if events == [] then 0 else
      var before, e := events[..|events| - 1], events[|events| - 1];
      Seen(done, n, before) + if e.Add? && done + ReadsIn(before) <= e.lane < n then e.arg else 0
  }

  /** The adds to lanes that were read already. */
  function Missed(done: nat, n: nat, events: seq<Event>): int
    decreases |events|
  {
    if events == [] then 0 else
      var before, e := events[..|events| - 1], events[|events| - 1];
      Missed(done, n, before) + if e.Add? && e.lane < done + ReadsIn(before) && e.lane < n then e.arg else 0
  }

  lemma {:induction false} SumAppend(a: seq<int>, b: seq<int>)
    ensures Sum(a + b) == Sum(a) + Sum(b)
    decreases |b|
  {
    if b == [] {
      assert a + b == a;
    } else {
      assert (a + b)[..|a + b| - 1] == a + b[..|b| - 1];
      SumAppend(a, b[..|b| - 1]);
    }
  }

  lemma SumFrom(s: seq<int>, n: nat)
    requires n < |s|
    ensures Sum(s[n..]) == s[n] + Sum(s[n + 1..])
  {
    assert s[n..] == [s[n]] + s[n + 1..];
    SumAppend([s[n]], s[n + 1..]);
    assert [s[n]][..0] == [];
  }

  /** The running sum and the lanes still to be read hold the first total and all that was seen;
      the true total holds what was missed besides. */
  ghost predicate Accounts(lanes: seq<int>, t: State, done: nat, seen: int, missed: int) {
    && |t.lanes| == |lanes| && t.next == (if done < |lanes| then done else |lanes|)
    && t.acc + Sum(t.lanes[t.next..]) == Sum(lanes) + seen
    && Sum(t.lanes) == Sum(lanes) + seen + missed
  }

  lemma ReadAccounts(lanes: seq<int>, t: State, done: nat, seen: int, missed: int)
    requires Accounts(lanes, t, done, seen, missed)
    ensures Accounts(lanes, Step(t, Read), done + 1, seen, missed)
  {
    if t.next < |lanes| { SumFrom(t.lanes, t.next); }
  }

  lemma RestUpdate(lanes: seq<int>, n: nat, lane: nat, x: int)
    requires n <= |lanes| && lane < |lanes|
    ensures Sum(lanes[lane := x][n..]) == Sum(lanes[n..]) + if n <= lane then x - lanes[lane] else 0
  {
    hide Sum;
    if lane < n {
      assert lanes[lane := x][n..] == lanes[n..];
    } else {
      assert lanes[lane := x][n..] == lanes[n..][lane - n := x];
      SumUpdate(lanes[n..], lane - n, x);
    }
  }

  lemma AddAccounts(lanes: seq<int>, t: State, done: nat, seen: int, missed: int, lane: nat, arg: int)
    requires Accounts(lanes, t, done, seen, missed)
    ensures Accounts(lanes, Step(t, Add(lane, arg)), done,
                     seen + if done <= lane < |lanes| then arg else 0,
                     missed + if lane < done && lane < |lanes| then arg else 0)
  {
    hide Sum;
    if lane < |lanes| {
      SumUpdate(t.lanes, lane, t.lanes[lane] + arg);
      RestUpdate(t.lanes, t.next, lane, t.lanes[lane] + arg);
    }
  }

  lemma {:induction false} LoadAccounts(lanes: seq<int>, events: seq<Event>)
    ensures Accounts(lanes, Execute(State(lanes, 0, 0), events), ReadsIn(events),
                     Seen(0, |lanes|, events), Missed(0, |lanes|, events))
    decreases |events|
  {
    if events == [] {
      assert lanes[0..] == lanes;
    } else {
      hide Accounts;
      var before, e := events[..|events| - 1], events[|events| - 1];
      LoadAccounts(lanes, before);
      var t, done := Execute(State(lanes, 0, 0), before), ReadsIn(before);
      var seen, missed := Seen(0, |lanes|, before), Missed(0, |lanes|, before);
      match e
      case Read => ReadAccounts(lanes, t, done, seen, missed);
      case Add(lane, arg) => AddAccounts(lanes, t, done, seen, missed, lane, arg);
    }
  }

  /** A finished load answers the total at its start and what it saw; and so lies between the totals
      at its start and at its end exactly when neither what it saw nor what it missed is negative. */
  lemma LoadIsBetweenIff(lanes: seq<int>, events: seq<Event>)
    requires Execute(State(lanes, 0, 0), events).next == |lanes|
    ensures var t := Execute(State(lanes, 0, 0), events);
            var seen, missed := Seen(0, |lanes|, events), Missed(0, |lanes|, events);
            && t.acc == Sum(lanes) + seen && Sum(t.lanes) == t.acc + missed
            && (Sum(lanes) <= t.acc <= Sum(t.lanes) <==> seen >= 0 && missed >= 0)
  {
    LoadAccounts(lanes, events);
    var t := Execute(State(lanes, 0, 0), events);
    assert t.lanes[|lanes|..] == [];
  }

  // ----- nonnegative adds

  predicate Growing(events: seq<Event>) {
    forall k :: 0 <= k < |events| && events[k].Add? ==> events[k].arg >= 0
  }

  lemma {:induction false} GrowingSeen(n: nat, events: seq<Event>)
    requires Growing(events)
    ensures Seen(0, n, events) >= 0 && Missed(0, n, events) >= 0
    decreases |events|
  {
    if events != [] { GrowingSeen(n, events[..|events| - 1]); }
  }

  /** A finished load among nonnegative adds answers at least the total at its start and at most
      the total at its end, however the steps interleave. */
  lemma LoadIsBetween(lanes: seq<int>, events: seq<Event>)
    requires Growing(events) && Execute(State(lanes, 0, 0), events).next == |lanes|
    ensures var t := Execute(State(lanes, 0, 0), events);
            Sum(lanes) <= t.acc <= Sum(t.lanes) == Sum(lanes) + AddedBy(|lanes|, events)
  {
    LoadIsBetweenIff(lanes, events);
    GrowingSeen(|lanes|, events);
    TotalIsConserved(State(lanes, 0, 0), events);
  }

  predicate Increments(events: seq<Event>) {
    forall k :: 0 <= k < |events| && events[k].Add? ==> events[k].arg == 1
  }

  /** With increments only, the answer IS the true total at some moment during the load. */
  lemma LoadOfIncrementsIsAMoment(lanes: seq<int>, events: seq<Event>) returns (m: nat)
    requires Increments(events) && Execute(State(lanes, 0, 0), events).next == |lanes|
    ensures m <= |events|
    ensures Execute(State(lanes, 0, 0), events).acc == Sum(Execute(State(lanes, 0, 0), events[..m]).lanes)
  {
    LoadIsBetween(lanes, events);
    var start, goal := State(lanes, 0, 0), Execute(State(lanes, 0, 0), events).acc;
    assert events[..|events|] == events;
    m := 0;
    while Sum(Execute(start, events[..m]).lanes) != goal
      invariant m <= |events| && Sum(Execute(start, events[..m]).lanes) <= goal
      decreases |events| - m
    {
      assert events[..m + 1][..m] == events[..m];
      TotalIsConserved(start, events[..m]);
      TotalIsConserved(start, events[..m + 1]);
      m := m + 1;
    }
  }

  // ----- every schedule of given adds

  /** The adds to one lane, in the order of the schedule. */
  function AddsTo(lane: nat, events: seq<Event>): seq<int>
    decreases |events|
  {
    if events == [] then [] else
      var e := events[|events| - 1];
      AddsTo(lane, events[..|events| - 1]) + if e.Add? && e.lane == lane then [e.arg] else []
  }

  /** A schedule in which every lane gets its adds in their order, and a load reads every lane. */
  ghost predicate Schedules(adds: seq<seq<int>>, events: seq<Event>) {
    ReadsIn(events) >= |adds| && forall lane :: 0 <= lane < |adds| ==> AddsTo(lane, events) == adds[lane]
  }

  predicate Bounded(lanes: seq<int>, events: seq<Event>) {
    var t := Execute(State(lanes, 0, 0), events);
    Sum(lanes) <= t.acc <= Sum(t.lanes)
  }

  /** No first part and no last part of the adds sums to less than 0. */
  ghost predicate NeverDips(s: seq<int>) {
    forall p :: 0 <= p <= |s| ==> Sum(s[..p]) >= 0 && Sum(s[p..]) >= 0
  }

  // A schedule split over the lanes.

  function SeenOf(lane: nat, events: seq<Event>): int
    decreases |events|
  {
    if events == [] then 0 else
      var before, e := events[..|events| - 1], events[|events| - 1];
      SeenOf(lane, before) + if e.Add? && e.lane == lane && ReadsIn(before) <= lane then e.arg else 0
  }

  function MissedOf(lane: nat, events: seq<Event>): int
    decreases |events|
  {
    if events == [] then 0 else
      var before, e := events[..|events| - 1], events[|events| - 1];
      MissedOf(lane, before) + if e.Add? && e.lane == lane && lane < ReadsIn(before) then e.arg else 0
  }

  lemma {:induction false} SeenByLane(n: nat, events: seq<Event>)
    ensures Seen(0, n + 1, events) == Seen(0, n, events) + SeenOf(n, events)
    ensures Missed(0, n + 1, events) == Missed(0, n, events) + MissedOf(n, events)
    decreases |events|
  {
    if events != [] { SeenByLane(n, events[..|events| - 1]); }
  }

  lemma {:induction false} NoLanes(events: seq<Event>)
    ensures Seen(0, 0, events) == 0 == Missed(0, 0, events)
    decreases |events|
  {
    if events != [] { NoLanes(events[..|events| - 1]); }
  }

  /** Of a lane's adds, a load sees the first p and misses the rest; all, until the lane is read. */
  lemma {:induction false} LaneSplits(lane: nat, events: seq<Event>) returns (p: nat)
    ensures p <= |AddsTo(lane, events)| && (ReadsIn(events) <= lane ==> p == |AddsTo(lane, events)|)
    ensures SeenOf(lane, events) == Sum(AddsTo(lane, events)[..p])
    ensures MissedOf(lane, events) == Sum(AddsTo(lane, events)[p..])
    decreases |events|
  {
    var s := AddsTo(lane, events);
    if events == [] {
      p := 0;
    } else {
      var before, e := events[..|events| - 1], events[|events| - 1];
      var had := AddsTo(lane, before);
      p := LaneSplits(lane, before);
      if e.Add? && e.lane == lane {
        if ReadsIn(before) <= lane {
          p := p + 1;
          assert s[..p][..|had|] == had[..] && had[..|had|] == had;
          assert s[..p] == s;
          assert s[p..] == [] && had[|had|..] == [];
        } else {
          assert s[..p] == had[..p] && s[p..] == had[p..] + [e.arg];
          assert s[p..][..|s| - p - 1] == had[p..];
        }
      } else {
        assert s == had;
        if ReadsIn(events) <= lane { assert p == |s|; }
      }
    }
  }

  lemma {:induction false} NeverDipsSees(adds: seq<seq<int>>, events: seq<Event>, n: nat)
    requires n <= |adds| && forall lane :: 0 <= lane < n ==> AddsTo(lane, events) == adds[lane] && NeverDips(adds[lane])
    ensures Seen(0, n, events) >= 0 && Missed(0, n, events) >= 0
    decreases n
  {
    if n == 0 {
      NoLanes(events);
    } else {
      NeverDipsSees(adds, events, n - 1);
      SeenByLane(n - 1, events);
      var p := LaneSplits(n - 1, events);
      assert NeverDips(adds[n - 1]);
    }
  }

  // Two schedules that see just a first part, or miss just a last part, of one lane's adds.

  function AddAll(lane: nat, args: seq<int>): (events: seq<Event>)
    ensures |events| == |args|
  {
    seq(|args|, k requires 0 <= k < |args| => Add(lane, args[k]))
  }

  /** The adds of the first k lanes but one. */
  function OtherAdds(adds: seq<seq<int>>, but: nat, k: nat): seq<Event>
    requires k <= |adds|
  {
    if k == 0 then [] else OtherAdds(adds, but, k - 1) + if k - 1 == but then [] else AddAll(k - 1, adds[k - 1])
  }

  lemma AppendLast<T>(a: seq<T>, b: seq<T>)
    requires b != []
    ensures (a + b)[..|a + b| - 1] == a + b[..|b| - 1] && (a + b)[|a + b| - 1] == b[|b| - 1]
  {}

  lemma {:induction false} ReadsAppend(a: seq<Event>, b: seq<Event>)
    ensures ReadsIn(a + b) == ReadsIn(a) + ReadsIn(b)
    decreases |b|
  {
    if b == [] {
      assert a + b == a;
    } else {
      AppendLast(a, b);
      ReadsAppend(a, b[..|b| - 1]);
    }
  }

  lemma {:induction false} AddsAppend(lane: nat, a: seq<Event>, b: seq<Event>)
    ensures AddsTo(lane, a + b) == AddsTo(lane, a) + AddsTo(lane, b)
    decreases |b|
  {
    if b == [] {
      assert a + b == a;
    } else {
      AppendLast(a, b);
      AddsAppend(lane, a, b[..|b| - 1]);
    }
  }

  lemma {:induction false} SeenAppend(done: nat, n: nat, a: seq<Event>, b: seq<Event>)
    ensures Seen(done, n, a + b) == Seen(done, n, a) + Seen(done + ReadsIn(a), n, b)
    ensures Missed(done, n, a + b) == Missed(done, n, a) + Missed(done + ReadsIn(a), n, b)
    decreases |b|
  {
    if b == [] {
      assert a + b == a;
    } else {
      AppendLast(a, b);
      ReadsAppend(a, b[..|b| - 1]);
      SeenAppend(done, n, a, b[..|b| - 1]);
    }
  }

  lemma {:induction false} OnlyReads(done: nat, n: nat, k: nat, lane: nat)
    ensures ReadsIn(Reads(k)) == k && AddsTo(lane, Reads(k)) == []
    ensures Seen(done, n, Reads(k)) == 0 == Missed(done, n, Reads(k))
    decreases k
  {
    if k > 0 {
      assert Reads(k)[..k - 1] == Reads(k - 1);
      OnlyReads(done, n, k - 1, lane);
    }
  }

  lemma {:induction false} OnlyAdds(done: nat, n: nat, lane: nat, args: seq<int>, other: nat)
    requires lane < n
    ensures var e := AddAll(lane, args);
            && ReadsIn(e) == 0 && AddsTo(other, e) == (if other == lane then args else [])
            && Seen(done, n, e) == (if done <= lane then Sum(args) else 0)
            && Missed(done, n, e) == (if done <= lane then 0 else Sum(args))
    decreases |args|
  {
    if args != [] {
      var k := |args| - 1;
      assert AddAll(lane, args)[..k] == AddAll(lane, args[..k]);
      OnlyAdds(done, n, lane, args[..k], other);
    }
  }

  /** What a schedule and a schedule after it give together. */
  lemma Joined(done: nat, n: nat, lane: nat, a: seq<Event>, b: seq<Event>)
    ensures ReadsIn(a + b) == ReadsIn(a) + ReadsIn(b) && AddsTo(lane, a + b) == AddsTo(lane, a) + AddsTo(lane, b)
    ensures Seen(done, n, a + b) == Seen(done, n, a) + Seen(done + ReadsIn(a), n, b)
    ensures Missed(done, n, a + b) == Missed(done, n, a) + Missed(done + ReadsIn(a), n, b)
  {
    ReadsAppend(a, b);
    AddsAppend(lane, a, b);
    SeenAppend(done, n, a, b);
  }

  lemma Nothing(done: nat, n: nat, lane: nat)
    ensures ReadsIn([]) == 0 && AddsTo(lane, []) == [] && Seen(done, n, []) == 0 == Missed(done, n, [])
  {}

  lemma {:induction false} OnlyOthers(done: nat, adds: seq<seq<int>>, but: nat, k: nat, lane: nat)
    requires k <= |adds|
    ensures var e := OtherAdds(adds, but, k);
            && ReadsIn(e) == 0 && AddsTo(lane, e) == (if lane < k && lane != but then adds[lane] else [])
            && (done == 0 ==> Missed(done, |adds|, e) == 0) && (done >= |adds| ==> Seen(done, |adds|, e) == 0)
    decreases k
  {
    hide Seen, Missed, ReadsIn, AddsTo, AddAll;
    if k == 0 {
      Nothing(done, |adds|, lane);
    } else {
      OnlyOthers(done, adds, but, k - 1, lane);
      var a := OtherAdds(adds, but, k - 1);
      if k - 1 == but {
        assert a + [] == a;
      } else {
        OnlyAdds(done, |adds|, k - 1, adds[k - 1], lane);
        Joined(done, |adds|, lane, a, AddAll(k - 1, adds[k - 1]));
      }
    }
  }

  /** The lane's first p adds come just before it is read, everything else after the load. */
  function SeesFirst(adds: seq<seq<int>>, lane: nat, p: nat): seq<Event>
    requires lane < |adds| && p <= |adds[lane]|
  {
    Reads(lane) + (AddAll(lane, adds[lane][..p]) + Unseen(adds, lane, p))
  }

  /** The lane's adds from p on come after the load, everything else before it. */
  function MissesLast(adds: seq<seq<int>>, lane: nat, p: nat): seq<Event>
    requires lane < |adds| && p <= |adds[lane]|
  {
    OtherAdds(adds, lane, |adds|) + (AddAll(lane, adds[lane][..p]) + (Reads(|adds|) + AddAll(lane, adds[lane][p..])))
  }

  /** What comes after the lane's first p adds: none of it is seen. */
  function Unseen(adds: seq<seq<int>>, lane: nat, p: nat): seq<Event>
    requires lane < |adds| && p <= |adds[lane]|
  {
    Reads(|adds| - lane) + (AddAll(lane, adds[lane][p..]) + OtherAdds(adds, lane, |adds|))
  }

  lemma SeesNothing(adds: seq<seq<int>>, lane: nat, p: nat, m: nat)
    requires lane < |adds| && p <= |adds[lane]| && m < |adds|
    ensures var e := Unseen(adds, lane, p);
            && ReadsIn(e) == |adds| - lane && AddsTo(m, e) == (if m == lane then adds[lane][p..] else adds[m])
            && Seen(lane, |adds|, e) == 0
  {
    hide Seen, Missed, ReadsIn, AddsTo, OtherAdds, AddAll, Reads;
    var n, last := |adds|, adds[lane][p..];
    OnlyReads(lane, n, n - lane, m);
    OnlyAdds(n, n, lane, last, m);
    OnlyOthers(n, adds, lane, n, m);
    Joined(n, n, m, AddAll(lane, last), OtherAdds(adds, lane, n));
    Joined(lane, n, m, Reads(n - lane), AddAll(lane, last) + OtherAdds(adds, lane, n));
  }

  lemma SeesJustFirst(adds: seq<seq<int>>, lane: nat, p: nat, m: nat)
    requires lane < |adds| && p <= |adds[lane]| && m < |adds|
    ensures var e := SeesFirst(adds, lane, p);
            ReadsIn(e) == |adds| && AddsTo(m, e) == adds[m] && Seen(0, |adds|, e) == Sum(adds[lane][..p])
  {
    hide Seen, Missed, ReadsIn, AddsTo, Unseen, AddAll, Reads;
    var n, first := |adds|, adds[lane][..p];
    OnlyReads(0, n, lane, m);
    OnlyAdds(lane, n, lane, first, m);
    SeesNothing(adds, lane, p, m);
    Joined(lane, n, m, AddAll(lane, first), Unseen(adds, lane, p));
    Joined(0, n, m, Reads(lane), AddAll(lane, first) + Unseen(adds, lane, p));
    assert first + adds[lane][p..] == adds[lane];
  }

  lemma MissesJustLast(adds: seq<seq<int>>, lane: nat, p: nat, m: nat)
    requires lane < |adds| && p <= |adds[lane]| && m < |adds|
    ensures var e := MissesLast(adds, lane, p);
            ReadsIn(e) == |adds| && AddsTo(m, e) == adds[m] && Missed(0, |adds|, e) == Sum(adds[lane][p..])
  {
    hide Seen, Missed, ReadsIn, AddsTo, OtherAdds, AddAll, Reads;
    var first, last := adds[lane][..p], adds[lane][p..];
    OnlyOthers(0, adds, lane, |adds|, m);
    OnlyAdds(0, |adds|, lane, first, m);
    LoadThenAdds(|adds|, lane, last, m);
    Joined(0, |adds|, m, AddAll(lane, first), Reads(|adds|) + AddAll(lane, last));
    Joined(0, |adds|, m, OtherAdds(adds, lane, |adds|), AddAll(lane, first) + (Reads(|adds|) + AddAll(lane, last)));
    assert first + last == adds[lane];
  }

  lemma LoadThenAdds(n: nat, lane: nat, args: seq<int>, m: nat)
    requires lane < n
    ensures var e := Reads(n) + AddAll(lane, args);
            ReadsIn(e) == n && AddsTo(m, e) == (if m == lane then args else []) && Missed(0, n, e) == Sum(args)
  {
    hide Seen, Missed, ReadsIn, AddsTo, AddAll, Reads;
    OnlyReads(0, n, n, m);
    OnlyAdds(n, n, lane, args, m);
    Joined(0, n, m, Reads(n), AddAll(lane, args));
  }

  /** Each lane's adds given, the bounds hold under every schedule that keeps each lane's order
      exactly when no first part and no last part of any lane's adds is negative. */
  lemma AlwaysBoundedIff(lanes: seq<int>, adds: seq<seq<int>>)
    requires |lanes| == |adds|
    ensures (forall events :: Schedules(adds, events) ==> Bounded(lanes, events))
            <==> forall lane :: 0 <= lane < |adds| ==> NeverDips(adds[lane])
  {
    if forall lane :: 0 <= lane < |adds| ==> NeverDips(adds[lane]) {
      forall events | Schedules(adds, events) ensures Bounded(lanes, events) {
        LoadAccounts(lanes, events);
        LoadIsBetweenIff(lanes, events);
        NeverDipsSees(adds, events, |adds|);
      }
    }
    if forall events :: Schedules(adds, events) ==> Bounded(lanes, events) {
      forall lane | 0 <= lane < |adds| ensures NeverDips(adds[lane]) {
        forall p | 0 <= p <= |adds[lane]| ensures Sum(adds[lane][..p]) >= 0 && Sum(adds[lane][p..]) >= 0 {
          BoundedNeverDips(lanes, adds, lane, p);
        }
      }
    }
  }

  lemma BoundedNeverDips(lanes: seq<int>, adds: seq<seq<int>>, lane: nat, p: nat)
    requires |lanes| == |adds| && forall events :: Schedules(adds, events) ==> Bounded(lanes, events)
    requires lane < |adds| && p <= |adds[lane]|
    ensures Sum(adds[lane][..p]) >= 0 && Sum(adds[lane][p..]) >= 0
  {
    hide SeesFirst, MissesLast, Seen, Missed, ReadsIn, AddsTo;
    var a, b := SeesFirst(adds, lane, p), MissesLast(adds, lane, p);
    forall m | 0 <= m < |adds| ensures AddsTo(m, a) == adds[m] && AddsTo(m, b) == adds[m] {
      SeesJustFirst(adds, lane, p, m);
      MissesJustLast(adds, lane, p, m);
    }
    SeesJustFirst(adds, lane, p, lane);
    MissesJustLast(adds, lane, p, lane);
    assert Schedules(adds, a) && Schedules(adds, b);
    LoadAccounts(lanes, a);
    LoadIsBetweenIff(lanes, a);
    LoadAccounts(lanes, b);
    LoadIsBetweenIff(lanes, b);
  }

  // ----- a bound that breaks

  /** Reading lanes that hold 0 adds nothing. */
  lemma {:induction false} IdleReads(s: State, before: seq<Event>, n: nat)
    requires var t := Execute(s, before);
             t.next + n <= |t.lanes| && forall k :: t.next <= k < |t.lanes| ==> t.lanes[k] == 0
    ensures var t := Execute(s, before);
            Execute(s, before + Reads(n)) == t.(next := t.next + n)
    decreases n
  {
    hide Execute;
    var all := before + Reads(n);
    if n == 0 {
      assert all == before;
    } else {
      var most := before + Reads(n - 1);
      assert all == most + [Read];
      IdleReads(s, before, n - 1);
      OneMoreEvent(s, most, Read);
    }
  }

  lemma OneMoreEvent(s: State, before: seq<Event>, e: Event)
    ensures Execute(s, before + [e]) == Step(Execute(s, before), e)
  {
    assert (before + [e])[..|before|] == before;
  }

  /** Subtraction breaks the bound: here, over all the counter's lanes, every total is at least 1
      and the load answers 0. */
  lemma SubtractionBreaksTheBound()
    ensures var start := State(Idle([0, 1], LANES - 2), 0, 0);
            var events := [Read, Add(0, 1), Add(1, -1)] + Reads(LANES - 1);
            && Execute(start, events).next == LANES && Execute(start, events).acc == 0
            && forall m :: 0 <= m <= |events| ==> Sum(Execute(start, events[..m]).lanes) >= 1
  {
    var start := State(Idle([0, 1], LANES - 2), 0, 0);
    var e := [Read, Add(0, 1), Add(1, -1)];
    FirstThree(start, e);
    hide Execute, Sum, Step;
    IdleReads(start, e, LANES - 1);
    var events := e + Reads(LANES - 1);
    forall m | 0 <= m <= |events| ensures Sum(Execute(start, events[..m]).lanes) >= 1 {
      if m <= 3 { assert events[..m] == e[..m]; } else { LaterReads(start, e, m - 3); }
    }
  }

  /** Once the three steps are over, reading changes no lane. */
  lemma LaterReads(start: State, e: seq<Event>, n: nat)
    requires |e| == 3 && n < LANES && Sum(Execute(start, e[..3]).lanes) >= 1
    requires Execute(start, e) == State(Idle([1, 0], LANES - 2), 1, 0)
    ensures Sum(Execute(start, (e + Reads(LANES - 1))[..3 + n]).lanes) >= 1
  {
    hide Execute, Sum, Step;
    IdleReads(start, e, n);
    assert (e + Reads(LANES - 1))[..3 + n] == e + Reads(n);
    assert e[..3] == e;
  }

  lemma FirstThree(start: State, e: seq<Event>)
    requires start == State(Idle([0, 1], LANES - 2), 0, 0) && e == [Read, Add(0, 1), Add(1, -1)]
    ensures Execute(start, e) == State(Idle([1, 0], LANES - 2), 1, 0)
    ensures forall m :: 0 <= m <= 3 ==> Sum(Execute(start, e[..m]).lanes) >= 1
  {
    var n := LANES - 2;
    hide Execute, Sum;
    assert Idle([0, 1], n)[0 := 1] == Idle([1, 1], n) && Idle([1, 1], n)[1 := 0] == Idle([1, 0], n);
    assert e[..1] == e[..0] + [e[0]] && e[..2] == e[..1] + [e[1]] && e[..3] == e[..2] + [e[2]] && e[..3] == e;
    ExecuteNothing(start, e[..0]);
    OneMoreEvent(start, e[..0], e[0]);
    OneMoreEvent(start, e[..1], e[1]);
    OneMoreEvent(start, e[..2], e[2]);
    hide Step, Idle;
    IdleSum([0, 1], n);
    IdleSum([1, 1], n);
    IdleSum([1, 0], n);
    PairSum(0, 1);
    PairSum(1, 1);
    PairSum(1, 0);
    forall m | 0 <= m <= 3 ensures Sum(Execute(start, e[..m]).lanes) >= 1 {
      assert m == 0 || m == 1 || m == 2 || m == 3;
    }
  }

  lemma ExecuteNothing(s: State, events: seq<Event>)
    requires events == []
    ensures Execute(s, events) == s
  {}

  lemma PairSum(a: int, b: int)
    ensures Sum([a, b]) == a + b
  {
    assert [a, b][..1] == [a] && [a][..0] == [];
    assert Sum([a]) == a;
  }
}
