/** The event queue (src/interpreter/runtime.c): threads set events off while the
    interpreter scans the waiting ones and hands out those that have fired. */
module Runtime {
  import opened Sequences
  import opened ArrayLists

  /** What a thread does is known by the moment from which its event is seen to have fired;
      moments are counted by the looks the interpreter takes at any event, so that every
      interleaving of the threads with those looks is given by some choice of the moments. */
  datatype Event = Event(id: nat, callback: int, firesAt: nat)

  predicate Fired(e: Event, now: nat) {
    e.firesAt <= now
  }

  // ----- one scan -----

  /** What a scan from place i on leaves waiting: after a removal the place of the removed
      event is not looked at again, and so neither is the event that moved into it. */
  function Left(w: seq<Event>, i: nat, now: nat): seq<Event>
    decreases |w| - i
  {
    if i >= |w| then w
    else if Fired(w[i], now) then Left(Without(w, i), i + 1, now + 1)
    else Left(w, i + 1, now + 1)
  }

  /** What it moves, in that order. */
  function Moved(w: seq<Event>, i: nat, now: nat): seq<Event>
    decreases |w| - i
  {
    if i >= |w| then []
    else if Fired(w[i], now) then [w[i]] + Moved(Without(w, i), i + 1, now + 1)
    else Moved(w, i + 1, now + 1)
  }

  function Looks(w: seq<Event>, i: nat, now: nat): nat
    decreases |w| - i
  {
    if i >= |w| then 0
    else if Fired(w[i], now) then 1 + Looks(Without(w, i), i + 1, now + 1)
    else 1 + Looks(w, i + 1, now + 1)
  }

  function FiredFrom(w: seq<Event>, i: nat, now: nat): nat
    decreases |w| - i
  {
    if i >= |w| then 0 else (if Fired(w[i], now) then 1 else 0) + FiredFrom(w, i + 1, now)
  }

  lemma {:induction false} WithoutSplits<T>(s: seq<T>, k: nat)
    requires k < |s|
    ensures multiset(s) == multiset(Without(s, k)) + multiset{s[k]}
  {
    assert s == s[..k] + [s[k]] + s[k + 1..];
  }

  /** A scan loses nothing and makes nothing up, */
  lemma {:induction false} ScanKeeps(w: seq<Event>, i: nat, now: nat)
    ensures multiset(Left(w, i, now)) + multiset(Moved(w, i, now)) == multiset(w)
    decreases |w| - i
  {
    if i < |w| {
      if Fired(w[i], now) {
        var v := Without(w, i);
        ScanKeeps(v, i + 1, now + 1);
        WithoutSplits(w, i);
        MovedFirst(w[i], Moved(v, i + 1, now + 1), multiset(Left(v, i + 1, now + 1)), multiset(v));
      } else {
        ScanKeeps(w, i + 1, now + 1);
      }
    }
  }

  lemma MovedFirst(e: Event, moved: seq<Event>, left: multiset<Event>, all: multiset<Event>)
    requires left + multiset(moved) == all
    ensures left + multiset([e] + moved) == all + multiset{e}
  {
    hide *;
    assert multiset([e] + moved) == multiset{e} + multiset(moved);
  }

  /** and moves only events that have fired. */
  lemma {:induction false} ScanMovesFired(w: seq<Event>, i: nat, now: nat)
    ensures forall k :: 0 <= k < |Moved(w, i, now)| ==> Fired(Moved(w, i, now)[k], now + Looks(w, i, now))
    decreases |w| - i
  {
    if i < |w| {
      if Fired(w[i], now) {
        ScanMovesFired(Without(w, i), i + 1, now + 1);
      } else {
        ScanMovesFired(w, i + 1, now + 1);
      }
    }
  }

  lemma {:induction false} FiredLater(w: seq<Event>, i: nat, now: nat)
    ensures FiredFrom(w, i, now) <= FiredFrom(w, i, now + 1)
    decreases |w| - i
  {
    if i < |w| {
      FiredLater(w, i + 1, now);
    }
  }

  lemma {:induction false} FiredPast(w: seq<Event>, i: nat, j: nat, now: nat)
    requires i < |w| && i < j
    ensures FiredFrom(w, j, now) == FiredFrom(Without(w, i), j - 1, now)
    decreases |w| - j
  {
    if j < |w| {
      assert Without(w, i)[j - 1] == w[j];
      FiredPast(w, i, j + 1, now);
    }
  }

  /** However many it skips, a scan moves at least half of what had fired when it began. */
  lemma {:induction false} ScanMovesHalf(w: seq<Event>, i: nat, now: nat)
    ensures 2 * |Moved(w, i, now)| >= FiredFrom(w, i, now)
    decreases |w| - i
  {
    if i < |w| {
      if Fired(w[i], now) {
        ScanMovesHalf(Without(w, i), i + 1, now + 1);
        FiredLater(Without(w, i), i + 1, now);
        FiredPast(w, i, i + 2, now);
      } else {
        ScanMovesHalf(w, i + 1, now + 1);
        FiredLater(w, i + 1, now);
      }
    }
  }

  /** And no more than that, rounded up, when everything has fired: exactly every other
      event stays behind. */
  lemma {:induction false} EveryOther(w: seq<Event>, i: nat, now: nat)
    requires i <= |w| && forall k :: i <= k < |w| ==> Fired(w[k], now)
    ensures |Left(w, i, now)| == i + (|w| - i) / 2
    ensures forall k :: i <= k < i + (|w| - i) / 2 ==> Left(w, i, now)[k] == w[2 * k - i + 1]
    ensures forall k :: 0 <= k < i ==> Left(w, i, now)[k] == w[k]
    decreases |w| - i
  {
    if i < |w| {
      var v := Without(w, i);
      if i + 1 <= |v| {
        EveryOther(v, i + 1, now + 1);
        assert v[i] == w[i + 1];
      }
    }
  }

  // ----- nothing waits for ever -----

  /** The first `at` events keep their places while the scan is behind them. */
  lemma {:induction false} PrefixStays(w: seq<Event>, i: nat, now: nat, k: nat)
    requires k < i <= |w|
    ensures k < |Left(w, i, now)| && Left(w, i, now)[k] == w[k]
    decreases |w| - i
  {
    if i < |w| {
      if Fired(w[i], now) {
        if i + 1 <= |Without(w, i)| {
          PrefixStays(Without(w, i), i + 1, now + 1, k);
        }
      } else {
        PrefixStays(w, i + 1, now + 1, k);
      }
    }
  }

  predicate AmongFirst(s: seq<Event>, n: nat, e: Event) {
    exists k :: 0 <= k < n && k < |s| && s[k] == e
  }

  /** An event that has fired and is not moved by a scan comes nearer the front. */
  lemma {:induction false} ScanBringsForward(w: seq<Event>, i: nat, now: nat, at: nat)
    requires i <= at < |w| && Fired(w[at], now)
    ensures w[at] in Moved(w, i, now) || AmongFirst(Left(w, i, now), at, w[at])
    decreases |w| - i
  {
    var e := w[at];
    if Fired(w[i], now) {
      if at != i {
        var v := Without(w, i);
        assert v[at - 1] == e;
        if at == i + 1 {
          PrefixStays(v, i + 1, now + 1, i);
          assert Left(w, i, now)[i] == e;
        } else {
          ScanBringsForward(v, i + 1, now + 1, at - 1);
          assert AmongFirst(Left(v, i + 1, now + 1), at - 1, e) ==> AmongFirst(Left(w, i, now), at, e);
        }
      }
    } else {
      ScanBringsForward(w, i + 1, now + 1, at);
    }
  }

  /** An event that has fired at place `at` is moved by one of the next at + 1 scans,
      whatever else is registered and fires meanwhile. */
  lemma {:induction false} NoStarvation(w: seq<Event>, scans: seq<(seq<Event>, nat)>, at: nat)
    requires at < |w| && |scans| > at
    requires forall s <- scans :: Fired(w[at], s.1)
    ensures exists n: nat :: n < |scans| && MovedBy(w, scans, n, w[at])
    decreases |scans|
  {
    var (batch, now) := scans[0];
    var all := w + batch;
    assert scans[0] in scans;
    ScanBringsForward(all, 0, now, at);
    if w[at] in Moved(all, 0, now) {
      assert MovedBy(w, scans, 0, w[at]);
    } else {
      var left := Left(all, 0, now);
      var k :| 0 <= k < at && k < |left| && left[k] == w[at];
      forall s <- scans[1..] ensures Fired(left[k], s.1) {
        assert s in scans;
      }
      NoStarvation(left, scans[1..], k);
      var n: nat :| n < |scans[1..]| && MovedBy(left, scans[1..], n, w[at]);
      assert MovedBy(w, scans, n + 1, w[at]);
    }
  }

  /** Scan number n moves e. */
  predicate MovedBy(w: seq<Event>, scans: seq<(seq<Event>, nat)>, n: nat, e: Event)
    requires n < |scans|
    decreases n
  {
    var (batch, now) := scans[0];
    if n == 0 then e in Moved(w + batch, 0, now)
    else MovedBy(Left(w + batch, 0, now), scans[1..], n - 1, e)
  }

  // ----- where every event is -----

  function Reverse(s: seq<Event>): (r: seq<Event>)
    ensures |r| == |s|
  {
    if s == [] then [] else Reverse(s[1..]) + [s[0]]
  }

  lemma {:induction false} ReverseJoined(s: seq<Event>, t: seq<Event>)
    ensures Reverse(s + t) == Reverse(t) + Reverse(s)
  {
    if s == [] {
      assert s + t == t;
    } else {
      assert (s + t)[1..] == s[1..] + t;
      ReverseJoined(s[1..], t);
    }
  }

  lemma {:induction false} ReverseSame(s: seq<Event>)
    ensures multiset(Reverse(s)) == multiset(s)
  {
    if s != [] {
      ReverseSame(s[1..]);
      assert s == [s[0]] + s[1..];
    }
  }

  /** Events are numbered as they are registered; each is waiting or has come into the
      queue; what has come in first has been delivered, in that order, and the rest is the
      queue, the latest first; and nothing comes in before it has fired. */
  ghost predicate History(registered: seq<Event>, arrived: seq<Event>, delivered: seq<Event>, waiting: seq<Event>,
                          queue: seq<Event>, now: nat) {
    && (forall k :: 0 <= k < |registered| ==> registered[k].id == k)
    && multiset(registered) == multiset(waiting) + multiset(arrived)
    && |delivered| <= |arrived| && delivered == arrived[..|delivered|]
    && queue == Reverse(arrived[|delivered|..])
    && (forall k :: 0 <= k < |arrived| ==> Fired(arrived[k], now))
  }

  lemma RegisterKeepsHistory(registered: seq<Event>, arrived: seq<Event>, delivered: seq<Event>, waiting: seq<Event>,
                             queue: seq<Event>, now: nat, e: Event)
    requires History(registered, arrived, delivered, waiting, queue, now) && e.id == |registered|
    ensures History(registered + [e], arrived, delivered, waiting + [e], queue, now)
  {}

  lemma ScanKeepsHistory(registered: seq<Event>, arrived: seq<Event>, delivered: seq<Event>, waiting: seq<Event>,
                         queue: seq<Event>, now: nat)
    requires History(registered, arrived, delivered, waiting, queue, now)
    ensures var moved := Moved(waiting, 0, now);
            History(registered, arrived + moved, delivered, Left(waiting, 0, now), Reverse(moved) + queue,
                    now + Looks(waiting, 0, now))
  {
    hide Left, Moved, Looks, Reverse;
    var moved := Moved(waiting, 0, now);
    ScanKeeps(waiting, 0, now);
    ScanMovesFired(waiting, 0, now);
    ReverseJoined(arrived[|delivered|..], moved);
    assert (arrived + moved)[|delivered|..] == arrived[|delivered|..] + moved;
    assert (arrived + moved)[..|delivered|] == arrived[..|delivered|];
  }

  lemma PollKeepsHistory(registered: seq<Event>, arrived: seq<Event>, delivered: seq<Event>, waiting: seq<Event>,
                         queue: seq<Event>, now: nat)
    requires History(registered, arrived, delivered, waiting, queue, now) && queue != []
    ensures var last := |queue| - 1;
            |delivered| < |arrived| && queue[last] == arrived[|delivered|]
            && History(registered, arrived, delivered + [queue[last]], waiting, Without(queue, last), now)
  {
    var rest := arrived[|delivered|..];
    assert rest[1..] == arrived[|delivered| + 1..];
    assert arrived[..|delivered| + 1] == arrived[..|delivered|] + [rest[0]];
    assert Without(queue, |queue| - 1) == Reverse(rest[1..]);
  }

  lemma {:induction false} OnlyOnce(registered: seq<Event>, k: nat, n: nat)
    requires k < n <= |registered| && forall j :: 0 <= j < n ==> registered[j].id == j
    ensures multiset(registered[..n])[registered[k]] == 1
    decreases n
  {
    var e, m := registered[n - 1], n - 1;
    assert registered[..n] == registered[..m] + [e];
    if k < m {
      OnlyOnce(registered, k, m);
    } else {
      assert e !in registered[..m];
    }
  }

  /** Every registered event is in exactly one of the three places, once. */
  lemma InOnePlace(registered: seq<Event>, arrived: seq<Event>, delivered: seq<Event>, waiting: seq<Event>,
                   queue: seq<Event>, now: nat, k: nat)
    requires History(registered, arrived, delivered, waiting, queue, now) && k < |registered|
    ensures multiset(waiting)[registered[k]] + multiset(queue)[registered[k]] + multiset(delivered)[registered[k]] == 1
  {
    OnlyOnce(registered, k, |registered|);
    assert registered[..|registered|] == registered;
    var rest := arrived[|delivered|..];
    ReverseSame(rest);
    assert arrived == delivered + rest;
  }

  lemma NothingLeft(registered: seq<Event>, arrived: seq<Event>, delivered: seq<Event>, now: nat)
    requires History(registered, arrived, delivered, [], [], now)
    ensures delivered == arrived && multiset(delivered) == multiset(registered)
  {
    assert arrived[..|arrived|] == arrived;
  }

  lemma {:induction false} NothingMoved(w: seq<Event>, i: nat, now: nat)
    requires i <= |w| && Moved(w, i, now) == []
    ensures Left(w, i, now) == w && Looks(w, i, now) == |w| - i && (i < |w| ==> !Fired(w[i], now))
    decreases |w| - i
  {
    if i < |w| {
      NothingMoved(w, i + 1, now + 1);
    }
  }

  /** A scan of w, begun at the moment `was` with q in the queue, after some looks. */
  ghost predicate Underway(w: seq<Event>, was: nat, q: seq<Event>, i: nat, now: nat, v: seq<Event>, moved: seq<Event>,
                           queue: seq<Event>) {
    && Left(w, 0, was) == Left(v, i, now) && Moved(w, 0, was) == moved + Moved(v, i, now)
    && was + Looks(w, 0, was) == now + Looks(v, i, now) && queue == Reverse(moved) + q
  }

  lemma Begun(w: seq<Event>, q: seq<Event>, now: nat)
    ensures Underway(w, now, q, 0, now, w, [], q)
  {
    hide Left, Moved, Looks;
  }

  lemma OneLook(w: seq<Event>, was: nat, q: seq<Event>, i: nat, now: nat, v: seq<Event>, moved: seq<Event>,
                queue: seq<Event>)
    requires Underway(w, was, q, i, now, v, moved, queue) && i < |v|
    ensures if Fired(v[i], now)
            then Underway(w, was, q, i + 1, now + 1, Without(v, i), moved + [v[i]], [v[i]] + queue)
            else Underway(w, was, q, i + 1, now + 1, v, moved, queue)
  {
    if Fired(v[i], now) {
      var rest := Moved(Without(v, i), i + 1, now + 1);
      assert moved + ([v[i]] + rest) == moved + [v[i]] + rest;
      ReverseJoined(moved, [v[i]]);
      assert Reverse([v[i]]) == [v[i]];
    }
  }

  lemma Ended(w: seq<Event>, was: nat, q: seq<Event>, i: nat, now: nat, v: seq<Event>, moved: seq<Event>,
              queue: seq<Event>)
    requires Underway(w, was, q, i, now, v, moved, queue) && i >= |v|
    ensures v == Left(w, 0, was) && moved == Moved(w, 0, was) && now == was + Looks(w, 0, was)
            && queue == Reverse(moved) + q
  {}

  lemma NothingQueued(moved: seq<Event>, q: seq<Event>)
    requires Reverse(moved) + q == []
    ensures moved == [] && q == []
  {
    assert |Reverse(moved) + q| == |moved| + |q|;
  }

  lemma DeliveredFired(registered: seq<Event>, arrived: seq<Event>, delivered: seq<Event>, waiting: seq<Event>,
                       queue: seq<Event>, now: nat)
    requires History(registered, arrived, delivered, waiting, queue, now) && delivered != []
    ensures Fired(delivered[|delivered| - 1], now)
  {}

  /** How many events the first k callbacks register. */
  function Born(births: seq<seq<(int, nat)>>, k: nat): nat {
    if k == 0 then 0 else Born(births, k - 1) + if k <= |births| then |births[k - 1]| else 0
  }

  lemma {:induction false} BornMost(births: seq<seq<(int, nat)>>, k: nat)
    ensures Born(births, k) <= Born(births, |births|)
    ensures k >= |births| ==> Born(births, k) == Born(births, |births|)
    decreases if k > |births| then k else |births| - k
  {
    if k > |births| {
      BornMost(births, k - 1);
    } else if k < |births| {
      BornMost(births, k + 1);
    }
  }

  lemma BornStep(births: seq<seq<(int, nat)>>, k: nat)
    ensures Born(births, 0) == 0
    ensures Born(births, k + 1) == Born(births, k) + if k < |births| then |births[k]| else 0
  {}

  class EventRuntime {
    var events: ArrayList<Event>
    var eventQueue: ArrayList<Event>
    var now: nat
    var made: nat
    ghost var registered: seq<Event>
    ghost var arrived: seq<Event>
    ghost var delivered: seq<Event>

    ghost predicate Stored()
      reads this, events, events.items, eventQueue, eventQueue.items
    {
      && events != eventQueue && events.items != eventQueue.items
      && events.Valid() && eventQueue.Valid() && events.items.Length > 0 && eventQueue.items.Length > 0
    }

    ghost predicate Valid()
      reads this, events, events.items, eventQueue, eventQueue.items
    {
      Stored() && made == |registered|
      && History(registered, arrived, delivered, events.Contents(), eventQueue.Contents(), now)
    }

    /** rt_make. */
    constructor ()
      ensures Valid() && registered == [] && fresh(events) && fresh(events.items) && fresh(eventQueue)
              && fresh(eventQueue.items)
    {
      eventQueue := new ArrayList<Event>(10);
      events := new ArrayList<Event>(10);
      now, made := 0, 0;
      registered, arrived, delivered := [], [], [];
    }

    /** rt_register; the thread that it starts will fire the event. */
    method Register(callback: int, firesAt: nat) returns (event: Event)
      requires Valid()
      modifies this, events, events.items
      ensures Valid() && event == Event(|old(registered)|, callback, firesAt)
      ensures registered == old(registered) + [event] && events.Contents() == old(events.Contents()) + [event]
      ensures events == old(events) && eventQueue == old(eventQueue) && now == old(now)
      ensures arrived == old(arrived) && delivered == old(delivered)
      ensures (events.items == old(events.items) || fresh(events.items)) && eventQueue.items == old(eventQueue.items)
    {
      hide History;
      event := Event(made, callback, firesAt);
      made := made + 1;
      events.Append(event);
      RegisterKeepsHistory(registered, arrived, delivered, old(events.Contents()), eventQueue.Contents(), now, event);
      registered := registered + [event];
    }

    /** The body of the scan: out of the one list, into the front of the other. */
    method Move(i: nat)
      requires Stored() && i < events.count
      modifies events, events.items, eventQueue, eventQueue.items
      ensures Stored() && events.items == old(events.items)
      ensures eventQueue.items == old(eventQueue.items) || fresh(eventQueue.items)
      ensures events.Contents() == Without(old(events.Contents()), i)
      ensures eventQueue.Contents() == [old(events.Contents()[i])] + old(eventQueue.Contents())
    {
      hide Without;
      ghost var q := eventQueue.Contents();
      var event := events.Get(i);
      events.RemoveAtIndex(i);
      eventQueue.Insert(event, 0);
      assert q[..0] + [event] + q[0..] == [event] + q;
    }

    /** rt_scan. */
    method Scan()
      requires Valid()
      modifies this, events, events.items, eventQueue, eventQueue.items
      ensures Valid() && Kept(old(events), old(eventQueue), old(registered))
      ensures events.items == old(events.items)
              && (eventQueue.items == old(eventQueue.items) || fresh(eventQueue.items))
      ensures var w := old(events.Contents());
              events.Contents() == Left(w, 0, old(now)) && now == old(now) + Looks(w, 0, old(now))
              && eventQueue.Contents() == Reverse(Moved(w, 0, old(now))) + old(eventQueue.Contents())
              && arrived == old(arrived) + Moved(w, 0, old(now)) && delivered == old(delivered)
    {
      hide History, Left, Moved, Looks, Reverse, Without;
      ghost var w, q, was := events.Contents(), eventQueue.Contents(), now;
      ghost var moved: seq<Event> := [];
      var i: nat := 0;
      Begun(w, q, now);
      while i < events.count
        invariant Stored() && made == old(made) && Kept(old(events), old(eventQueue), old(registered))
        invariant arrived == old(arrived) && delivered == old(delivered)
        invariant events.items == old(events.items)
                  && (eventQueue.items == old(eventQueue.items) || fresh(eventQueue.items))
        invariant Underway(w, was, q, i, now, events.Contents(), moved, eventQueue.Contents())
        decreases events.count - i
      {
        var event := events.Get(i);
        ghost var v, p := events.Contents(), eventQueue.Contents();
        OneLook(w, was, q, i, now, v, moved, p);
        if Fired(event, now) {
          Move(i);
          moved := moved + [event];
        }
        now := now + 1;
        i := i + 1;
      }
      Ended(w, was, q, i, now, events.Contents(), moved, eventQueue.Contents());
      ScanKeepsHistory(registered, arrived, delivered, w, q, was);
      arrived := arrived + moved;
    }

    /** rt_poll. */
    method Poll() returns (event: Pointer<Event>)
      requires Valid()
      modifies this, eventQueue, eventQueue.items
      ensures Valid() && Kept(old(events), old(eventQueue), old(registered)) && now == old(now)
      ensures events.items == old(events.items) && eventQueue.items == old(eventQueue.items)
      ensures events.Contents() == old(events.Contents()) && arrived == old(arrived)
      ensures var q := old(eventQueue.Contents());
              if q == [] then event == Null && eventQueue.Contents() == q && delivered == old(delivered)
              else event == To(q[|q| - 1]) && eventQueue.Contents() == Without(q, |q| - 1)
                   && delivered == old(delivered) + [q[|q| - 1]]
    {
      hide History;
      event := Null;
      if eventQueue.count > 0 {
        var ret := eventQueue.Get(eventQueue.count - 1);
        PollKeepsHistory(registered, arrived, delivered, events.Contents(), eventQueue.Contents(), now);
        eventQueue.RemoveAtIndex(eventQueue.count - 1);
        delivered := delivered + [ret];
        event := To(ret);
      }
    }

    ghost predicate Kept(es: ArrayList<Event>, q: ArrayList<Event>, rs: seq<Event>)
      reads this
    {
      events == es && eventQueue == q && registered == rs
    }

    /** rt_next: NULL exactly when nothing is outstanding; otherwise it waits until an event
        has fired and hands out the one that has been in the queue longest. */
    method Next() returns (event: Pointer<Event>)
      requires Valid()
      modifies this, events, events.items, eventQueue, eventQueue.items
      ensures Valid() && Kept(old(events), old(eventQueue), old(registered)) && old(arrived) <= arrived
              && old(now) <= now
      ensures events.items == old(events.items)
              && (eventQueue.items == old(eventQueue.items) || fresh(eventQueue.items))
      ensures event == Null <==> old(events.Contents()) == [] && old(eventQueue.Contents()) == []
      ensures event == Null ==>
                delivered == old(delivered) == arrived && multiset(delivered) == multiset(registered)
                && events.Contents() == [] && eventQueue.Contents() == []
      ensures event.To? ==> delivered == old(delivered) + [event.value] && Fired(event.value, now)
    {
      hide History, Left, Moved, Looks, Reverse, Without;
      ghost var w := events.Contents();
      while events.count > 0 || eventQueue.count > 0
        invariant Valid() && Kept(old(events), old(eventQueue), old(registered)) && old(arrived) <= arrived
                  && old(now) <= now
        invariant events.items == old(events.items)
                  && (eventQueue.items == old(eventQueue.items) || fresh(eventQueue.items))
        invariant delivered == old(delivered) && events.Contents() == w
        invariant eventQueue.Contents() == old(eventQueue.Contents())
        decreases if w == [] || w[0].firesAt <= now then 0 else w[0].firesAt - now
      {
        ghost var q, began := eventQueue.Contents(), now;
        Scan();
        event := Poll();
        if event.To? {
          DeliveredFired(registered, arrived, delivered, events.Contents(), eventQueue.Contents(), now);
          return;
        }
        NothingQueued(Moved(w, 0, began), q);
        NothingMoved(w, 0, began);
      }
      NothingLeft(registered, arrived, delivered, now);
      event := Null;
    }

    /** The events that one callback registers. */
    method RegisterAll(list: seq<(int, nat)>)
      requires Valid()
      modifies this, events, events.items
      ensures Valid() && old(registered) <= registered && |registered| == |old(registered)| + |list|
      ensures events == old(events) && eventQueue == old(eventQueue) && delivered == old(delivered)
      ensures (events.items == old(events.items) || fresh(events.items)) && eventQueue.items == old(eventQueue.items)
    {
      var i := 0;
      while i < |list|
        invariant 0 <= i <= |list| && Valid() && old(registered) <= registered && |registered| == |old(registered)| + i
        invariant events == old(events) && eventQueue == old(eventQueue) && delivered == old(delivered)
        invariant (events.items == old(events.items) || fresh(events.items))
                  && eventQueue.items == old(eventQueue.items)
      {
        var _ := Register(list[i].0, list[i].1);
        i := i + 1;
      }
    }

    /** What the interpreter does when the program has ended (src/interpreter/lky_machine.c:295-311):
        it calls one callback after the other until no event is outstanding. The k-th call
        registers what births[k] says. All events, those of the callbacks too, are delivered,
        in the order in which they came into the queue. */
    method RunEvents(births: seq<seq<(int, nat)>>)
      requires Valid()
      modifies this, events, events.items, eventQueue, eventQueue.items
      ensures Valid() && old(registered) <= registered && old(delivered) <= delivered
      ensures events.Contents() == [] && eventQueue.Contents() == []
      ensures delivered == arrived && multiset(delivered) == multiset(registered)
      ensures |registered| == |old(registered)| + Born(births, |delivered| - |old(delivered)|)
    {
      hide History, Born;
      assert Born(births, 0) == 0 by { BornStep(births, 0); }
      var k := 0;
      var event := Next();
      while event.To?
        invariant Valid() && old(registered) <= registered && old(delivered) <= delivered
        invariant |delivered| == |old(delivered)| + k + (if event.To? then 1 else 0)
        invariant |registered| == |old(registered)| + Born(births, k)
        invariant event == Null ==> delivered == arrived && multiset(delivered) == multiset(registered)
                                    && events.Contents() == [] && eventQueue.Contents() == []
        invariant events == old(events) && eventQueue == old(eventQueue)
        invariant events.items == old(events.items) || fresh(events.items)
        invariant eventQueue.items == old(eventQueue.items) || fresh(eventQueue.items)
        decreases |old(registered)| + Born(births, |births|) - |old(delivered)| - k
      {
        DeliveredRegistered();
        BornStep(births, k);
        BornMost(births, k);
        BornMost(births, k + 1);
        if k < |births| {
          RegisterAll(births[k]);
        }
        k := k + 1;
        event := Next();
      }
    }

    lemma DeliveredRegistered()
      requires Valid()
      ensures |delivered| <= |registered|
    {
      hide Stored;
      assert |multiset(registered)| == |registered| && |multiset(arrived)| == |arrived|;
    }
  }
}
