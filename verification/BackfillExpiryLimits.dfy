/** Two concrete runs at the edge of expiry, with pendingReleaseTimeout 5 and so a backfill
    timeout of 4: an acknowledgment that brings an expired backfill back, and a cleanup that
    deletes a backfill acknowledged a moment before. */
module BackfillExpiryLimits {
  import opened Domain
  import opened BackfillWorld
  import X = BackfillExpiry

  const BF: Backfill := Backfill(1, "", "", "", 0)
  const REC: Record := Record(BF, [])
  const CREATOR: Thread := Thread(Create, "b", New, BF, [], REC, 0)
  const ACKER: Thread := Thread(Ack, "b", Lock, BF, [], REC, 0)
  const CLEANER: Thread := Thread(Delete, "b", Lock, BF, [], REC, 0)

  /** The slot of "b" once created at time 0. */
  const CREATED: Slot := Slot(Some(REC), Some(1), Some(0), None, true, true, true, [], None)

  const START: World := World(0, map[], map[], map[], {}, {}, {})

  ghost predicate Reachable(w: World, p: nat) {
    exists run, steps :: IsRun(run, steps, p) && run[|run| - 1] == w
  }

  lemma Reach(w: World, w': World, step: Step, p: nat)
    requires Reachable(w, p) && Next(w, w', step, p)
    ensures Reachable(w', p)
  {
    var run, steps :| IsRun(run, steps, p) && run[|run| - 1] == w;
    assert IsRun(run + [w'], steps + [step], p);
  }

  /** Running a thread, with its effect given in advance. */
  lemma ReachRun(w: World, tid: Tid, th': Thread, slot': Slot, p: nat) returns (w': World)
    requires Reachable(w, p) && tid in w.threads && Enabled(w.threads[tid], At(w.slots, w.threads[tid].id))
    requires Exec(tid, w.threads[tid], At(w.slots, w.threads[tid].id), w.now, p) == Effect(th', slot', [])
    requires w.threads[tid].pc != Unlist
    ensures Reachable(w', p)
    ensures w' == w.(threads := w.threads[tid := th'], slots := w.slots[w.threads[tid].id := slot'])
  {
    w' := w.(threads := w.threads[tid := th'], slots := w.slots[w.threads[tid].id := slot']);
    assert w.pending - {} == w.pending && w.listed - {} == w.listed;
    Reach(w, w', Run(tid), p);
  }

  const HALF_CREATED: Slot := EMPTY_SLOT.(used := true, rec := Some(REC), stored := true, halfway := Some(0))

  lemma CreateStores() returns (w: World)
    ensures Reachable(w, 5)
    ensures w == World(0, map["b" := HALF_CREATED], map[0 := CREATOR.(pc := Stamp)], map[], {}, {}, {})
  {
    assert Reachable(START, 5) by {
      assert IsRun([START], [], 5);
    }
    var w1 := World(0, map["b" := EMPTY_SLOT.(used := true)], map[0 := CREATOR], map[], {}, {}, {});
    Reach(START, w1, Begin(0, CREATOR), 5);
    w := ReachRun(w1, 0, CREATOR.(pc := Stamp), HALF_CREATED, 5);
  }

  lemma CreateRuns() returns (w: World)
    ensures Reachable(w, 5)
    ensures w == World(0, map["b" := CREATED], map[0 := CREATOR.(pc := Done(Ok))], map[], {}, {}, {})
  {
    var w2 := CreateStores();
    var w3 := ReachRun(w2, 0, CREATOR.(pc := Index), CREATED.(idx := None), 5);
    w := ReachRun(w3, 0, CREATOR.(pc := Done(Ok)), CREATED, 5);
  }

  lemma AckArrives() returns (w: World)
    ensures Reachable(w, 5)
    ensures w == World(4, map["b" := CREATED], map[0 := CREATOR.(pc := Done(Ok)), 1 := ACKER], map[], {}, {}, {})
  {
    var w0 := CreateRuns();
    var w1 := w0.(threads := w0.threads[1 := ACKER]);
    Reach(w0, w1, Begin(1, ACKER), 5);
    w := w1.(now := 4);
    Reach(w1, w, Tick(4), 5);
  }

  lemma AckLocks() returns (w: World)
    ensures Reachable(w, 5)
    ensures w == World(4, map["b" := CREATED.(lock := Some(1))],
                       map[0 := CREATOR.(pc := Done(Ok)), 1 := ACKER.(pc := Get)], map[], {}, {}, {})
  {
    var w2 := AckArrives();
    w := ReachRun(w2, 1, ACKER.(pc := Get), CREATED.(lock := Some(1)), 5);
  }

  /** At time 4 an acknowledgment of "b" has passed its expiry check and not yet stamped. */
  lemma AckPassesCheck() returns (w: World)
    ensures Reachable(w, 5)
    ensures w == World(4, map["b" := CREATED.(lock := Some(1))],
                       map[0 := CREATOR.(pc := Done(Ok)), 1 := ACKER.(pc := Stamp, checkedAt := 4)], map[], {}, {}, {})
  {
    var w3 := AckLocks();
    var held := CREATED.(lock := Some(1));
    var w4 := ReachRun(w3, 1, ACKER.(pc := Check), held, 5);
    w := ReachRun(w4, 1, ACKER.(pc := Stamp, checkedAt := 4), held, 5);
  }

  /** The clock passes the deadline between an acknowledgment's check and its stamp: an expired
      backfill becomes unexpired. */
  lemma StraddlingAckRevives() returns (w: World, w': World)
    ensures Reachable(w, 5) && Next(w, w', Run(1), 5)
    ensures X.Revives(w, w', "b", 5)
  {
    var w0 := AckPassesCheck();
    w := w0.(now := 5);
    Reach(w0, w, Tick(1), 5);
    var held := CREATED.(lock := Some(1), ack := Some(5));
    w' := w.(threads := w.threads[1 := ACKER.(pc := Return(Ok), checkedAt := 4)], slots := w.slots["b" := held]);
    assert w.pending - {} == w.pending && w.listed - {} == w.listed;
  }

  lemma Listed() returns (w: World)
    ensures Reachable(w, 5)
    ensures w == World(4, map["b" := CREATED.(lock := Some(1))],
                       map[0 := CREATOR.(pc := Done(Ok)), 1 := ACKER.(pc := Stamp, checkedAt := 4)],
                       map[], {}, {"b"}, {})
  {
    var w0 := AckPassesCheck();
    assert ExpiredIds(w0, 5) == {"b"};
    w := w0.(cleanup := {"b"});
    Reach(w0, w, ListExpired, 5);
  }

  lemma ListThenStamp() returns (w: World)
    ensures Reachable(w, 5)
    ensures w == World(4, map["b" := CREATED.(lock := Some(1), ack := Some(4))],
                       map[0 := CREATOR.(pc := Done(Ok)), 1 := ACKER.(pc := Return(Ok), checkedAt := 4)],
                       map[], {}, {"b"}, {})
  {
    var w1 := Listed();
    w := ReachRun(w1, 1, ACKER.(pc := Return(Ok), checkedAt := 4), CREATED.(lock := Some(1), ack := Some(4)), 5);
  }

  lemma ListThenAck() returns (w: World)
    ensures Reachable(w, 5)
    ensures w == World(4, map["b" := CREATED.(ack := Some(4))],
                       map[0 := CREATOR.(pc := Done(Ok)), 1 := ACKER.(pc := Done(Ok), checkedAt := 4)],
                       map[], {}, {"b"}, {})
  {
    var w2 := ListThenStamp();
    w := ReachRun(w2, 1, ACKER.(pc := Done(Ok), checkedAt := 4), CREATED.(ack := Some(4)), 5);
  }

  const DEINDEXED: Slot := CREATED.(ack := Some(4), lock := Some(2), idx := None)

  lemma CleanerStarts() returns (w: World)
    ensures Reachable(w, 5)
    ensures w == World(4, map["b" := CREATED.(ack := Some(4))],
                       map[0 := CREATOR.(pc := Done(Ok)), 1 := ACKER.(pc := Done(Ok), checkedAt := 4),
                           2 := CLEANER], map[], {}, {}, {})
  {
    var w0 := ListThenAck();
    w := w0.(threads := w0.threads[2 := CLEANER], cleanup := {});
    Reach(w0, w, BeginCleanup(2, CLEANER), 5);
  }

  lemma CleanerDeindexes() returns (w: World)
    ensures Reachable(w, 5)
    ensures w == World(4, map["b" := DEINDEXED],
                       map[0 := CREATOR.(pc := Done(Ok)), 1 := ACKER.(pc := Done(Ok), checkedAt := 4),
                           2 := CLEANER.(pc := Fetch)], map[], {}, {}, {})
  {
    var w1 := CleanerStarts();
    var w2 := ReachRun(w1, 2, CLEANER.(pc := Unindex), CREATED.(ack := Some(4), lock := Some(2)), 5);
    w := ReachRun(w2, 2, CLEANER.(pc := Fetch), DEINDEXED, 5);
  }

  /** The listing includes the boundary and the acknowledgment's check does not: within one clock
      tick a backfill can be listed, acknowledged, and then deleted although it is not expired. */
  lemma BoundaryCleanupDeletesUnexpired() returns (w: World, w': World)
    ensures Reachable(w, 5) && Next(w, w', Run(2), 5) && 2 in w.threads && w.threads[2].op == Delete
    ensures At(w.slots, "b").rec.Some? && !Expired(At(w.slots, "b"), w.now, 5) && At(w.slots, "b").ack == Some(w.now)
    ensures At(w'.slots, "b").rec.None?
  {
    var w3 := CleanerDeindexes();
    var w4 := ReachRun(w3, 2, CLEANER.(pc := Free), DEINDEXED, 5);
    w := ReachRun(w4, 2, CLEANER.(pc := Remove), DEINDEXED, 5);
    w' := w.(threads := w.threads[2 := CLEANER.(pc := Unstamp)],
             slots := w.slots["b" := DEINDEXED.(rec := None, halfway := Some(2))]);
    assert w.pending - {} == w.pending && w.listed - {} == w.listed;
  }
}
