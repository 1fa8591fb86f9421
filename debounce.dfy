/**
 * The debounce table of dedup.go (dedupLoop) as a sequential state machine
 * over a logical clock counted in milliseconds. The table maps a path to its
 * one pending timer; a relevant event on a path creates or re-arms that
 * path's timer, and a timer whose deadline has passed may fire, which removes
 * the entry.
 */
module Debounce {

  /** The kinds of change a notification can carry (fsnotify's Op bits). */
  datatype Op = Create | Write | Remove | Rename | Chmod

  /** A raw notification: the path it is about and the set of kinds it carries. */
  datatype Event = Event(name: string, op: set<Op>)

  /**
   * Only creation and writing are acted upon: a notification is kept exactly
   * when it carries some kind other than removal, renaming or a permission
   * change, so one carrying nothing but those is dropped.
   */
  predicate Relevant(e: Event)
    ensures Relevant(e) <==> !(e.op <= {Remove, Rename, Chmod})
  {
    var r := Create in e.op || Write in e.op;
    assert !r ==> e.op <= {Remove, Rename, Chmod} by {
      if !r {
        forall o | o in e.op
          ensures o in {Remove, Rename, Chmod}
        {
          assert o != Create && o != Write;
        }
      }
    }
    r
  }

  /** The quiet period, in milliseconds, that restarts on every relevant event. */
  const WaitFor: nat := 250

  /**
   * A path's pending timer: when it is due, and the event that was captured
   * when the timer was created (the one the fired action reports).
   */
  datatype PendingTimer = PendingTimer(deadline: nat, event: Event)

  /** The debounce table: at most one pending timer per path. */
  type Table = map<string, PendingTimer>

  /**
   * One event taken from the stream at logical time `now`. An irrelevant
   * event is dropped; a relevant one on path P reuses P's timer if it has
   * one and creates it (capturing this event) otherwise, and either way
   * moves P's deadline to now + WaitFor. No other path's entry changes.
   */
  function Observe(t: Table, e: Event, now: nat): (t': Table)
    ensures !Relevant(e) ==> t' == t
    ensures Relevant(e) ==> e.name in t' && t'[e.name].deadline == now + WaitFor
    ensures Relevant(e) && e.name in t ==> t'[e.name].event == t[e.name].event
    ensures Relevant(e) && e.name !in t ==> t'[e.name].event == e
    ensures forall q :: q != e.name ==> (q in t' <==> q in t)
    ensures forall q :: q != e.name && q in t ==> t'[q] == t[q]
    ensures |t'.Keys| == if Relevant(e) && e.name !in t then |t.Keys| + 1 else |t.Keys|
  {
    if !Relevant(e) then t
    else if e.name in t then t[e.name := t[e.name].(deadline := now + WaitFor)]
    else
      var t' := t[e.name := PendingTimer(now + WaitFor, e)];
      assert t'.Keys == t.Keys + {e.name};
      t'
  }

  /**
   * A timer may fire for path p at time now only once its deadline has
   * passed; while the table does not change, a due timer stays due.
   */
  predicate Due(t: Table, p: string, now: nat)
    ensures Due(t, p, now) ==> p in t
    ensures p in t && now < t[p].deadline ==> !Due(t, p, now)
  {
    p in t && t[p].deadline <= now
  }

  /** While the table does not change, a due timer stays due at every later time. */
  lemma DueStaysDue(t: Table, p: string, now: nat, later: nat)
    requires Due(t, p, now) && now <= later
    ensures Due(t, p, later)
  {
  }

  /** The entry removal done at the end of a fired action. */
  function Expire(t: Table, p: string): (t': Table)
    ensures p !in t'
    ensures forall q :: q != p ==> (q in t' <==> q in t)
    ensures forall q :: q != p && q in t ==> t'[q] == t[q]
  {
    t - {p}
  }

  /** Once its entry has been removed, a path cannot fire again at any time until a new event arrives. */
  lemma ExpiredNeverDue(t: Table, p: string, now: nat)
    ensures !Due(Expire(t, p), p, now)
  {
  }

  /**
   * After a firing, the next relevant event on the same path starts a fresh
   * cycle: a new timer that captures this new event.
   */
  lemma ExpireRearms(t: Table, e: Event, now: nat)
    requires Relevant(e)
    ensures Observe(Expire(t, e.name), e, now)[e.name] == PendingTimer(now + WaitFor, e)
  {
  }

  /** An event handed to the loop at a logical time. */
  datatype Delivery = Delivery(event: Event, at: nat)

  /** The table after a stream of deliveries, taken in order. */
  function ObserveAll(t: Table, ds: seq<Delivery>): (t': Table)
  {
    if |ds| == 0 then t
    else Observe(ObserveAll(t, ds[..|ds| - 1]), ds[|ds| - 1].event, ds[|ds| - 1].at)
  }

  /** A stream made only of irrelevant events leaves the table exactly as it was. */
  lemma {:induction false} IgnoredStreamChangesNothing(t: Table, ds: seq<Delivery>)
    requires forall i :: 0 <= i < |ds| ==> !Relevant(ds[i].event)
    ensures ObserveAll(t, ds) == t
  {
    if |ds| > 0 {
      IgnoredStreamChangesNothing(t, ds[..|ds| - 1]);
    }
  }

  /** A stream with no event on path q leaves q's entry (or its absence) untouched. */
  lemma {:induction false} OtherPathsUntouched(t: Table, ds: seq<Delivery>, q: string)
    requires forall i :: 0 <= i < |ds| ==> ds[i].event.name != q
    ensures q in ObserveAll(t, ds) <==> q in t
    ensures q in t ==> ObserveAll(t, ds)[q] == t[q]
  {
    if |ds| > 0 {
      OtherPathsUntouched(t, ds[..|ds| - 1], q);
    }
  }

  /**
   * A burst on path p: a non-empty stream of relevant events on p whose
   * times never go back and whose gaps are all shorter than the quiet period.
   */
  predicate Burst(ds: seq<Delivery>, p: string)
  {
    && |ds| > 0
    && (forall i :: 0 <= i < |ds| ==> ds[i].event.name == p && Relevant(ds[i].event))
    && (forall i :: 0 <= i < |ds| - 1 ==> ds[i].at <= ds[i + 1].at < ds[i].at + WaitFor)
  }

  /**
   * Within a burst on a path with no entry, after the first k events the
   * path's timer is due WaitFor after the k-th event and still reports the
   * first event of the burst.
   */
  lemma {:induction false} BurstPrefix(t: Table, p: string, ds: seq<Delivery>, k: nat)
    requires p !in t && Burst(ds, p)
    requires 0 < k <= |ds|
    ensures p in ObserveAll(t, ds[..k])
    ensures ObserveAll(t, ds[..k])[p] == PendingTimer(ds[k - 1].at + WaitFor, ds[0].event)
  {
    var pre := ds[..k];
    assert pre[..k - 1] == ds[..k - 1];
    if k == 1 {
      assert ObserveAll(t, ds[..0]) == t;
    } else {
      BurstPrefix(t, p, ds, k - 1);
    }
  }

  /**
   * Coalescing. A burst on a path with no pending timer leaves exactly one
   * timer for it, due WaitFor after the last event and carrying the first
   * event; at no moment between two events of the burst is that timer due;
   * after the last event it becomes due exactly at its time plus WaitFor;
   * and the burst touches no other path.
   */
  lemma BurstCoalesces(t: Table, p: string, ds: seq<Delivery>)
    requires p !in t && Burst(ds, p)
    ensures ObserveAll(t, ds).Keys == t.Keys + {p}
    ensures ObserveAll(t, ds)[p] == PendingTimer(ds[|ds| - 1].at + WaitFor, ds[0].event)
    ensures forall k, now: nat :: 0 < k < |ds| && now <= ds[k].at ==> !Due(ObserveAll(t, ds[..k]), p, now)
    ensures forall now: nat :: Due(ObserveAll(t, ds), p, now) <==> ds[|ds| - 1].at + WaitFor <= now
    ensures forall q :: q != p && q in t ==> ObserveAll(t, ds)[q] == t[q]
  {
    assert ds[..|ds|] == ds;
    BurstPrefix(t, p, ds, |ds|);
    forall k, now: nat | 0 < k < |ds| && now <= ds[k].at
      ensures !Due(ObserveAll(t, ds[..k]), p, now)
    {
      BurstPrefix(t, p, ds, k);
    }
    forall q | q != p
      ensures (q in ObserveAll(t, ds) <==> q in t) && (q in t ==> ObserveAll(t, ds)[q] == t[q])
    {
      OtherPathsUntouched(t, ds, q);
    }
  }

  /**
   * The quiet-period scenario: writes to /tmp/w at 0, 100 and 200 ms leave one
   * timer that is not due at 449 ms, is due at 450 ms, and reports the first write.
   */
  lemma ThreeWritesFireOnceAt450()
    ensures var w := Event("/tmp/w", {Write});
            var ds := [Delivery(w, 0), Delivery(w, 100), Delivery(w, 200)];
            var u := ObserveAll(map[], ds);
            && u.Keys == {"/tmp/w"}
            && u["/tmp/w"].event == w
            && !Due(u, "/tmp/w", 449) && Due(u, "/tmp/w", 450)
  {
    var w := Event("/tmp/w", {Write});
    var ds := [Delivery(w, 0), Delivery(w, 100), Delivery(w, 200)];
    BurstCoalesces(map[], "/tmp/w", ds);
  }
}
