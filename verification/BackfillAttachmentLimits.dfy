/** A concrete orderly run, with pendingReleaseTimeout 5 and so a backfill timeout of 4, in which a
    slow acknowledgment exposes a ticket that is attached to an unexpired backfill. */
module BackfillAttachmentLimits {
  import opened Domain
  import opened BackfillWorld
  import opened BackfillAttachment

  const BF: Backfill := Backfill(1, "", "", "", 0)
  const REC: Record := Record(BF, ["t"])
  const CREATOR: Thread := Thread(MatchCreate, "b", New, BF, ["t"], REC, 0)
  const ACKER: Thread := Thread(Ack, "b", Lock, BF, [], Record(BF, []), 0)

  const START: World := World(0, map[], map[], map[], {}, {}, {})

  /** Ticket "t" is listed and was marked at time 0. */
  const MARKED: World := World(0, map[], map[], map["t" := 0], {"t"}, {}, {"t"})

  const HALF_CREATED: Slot := EMPTY_SLOT.(used := true, rec := Some(REC), stored := true, halfway := Some(0))

  /** The slot of "b" once created at time 0 with the ticket attached. */
  const CREATED: Slot := Slot(Some(REC), Some(1), Some(0), None, true, true, true, [], None)

  const HELD: Slot := CREATED.(lock := Some(1))

  const READER: Thread := ACKER.(got := REC, checkedAt := 4)

  ghost predicate Reachable(w: World) {
    exists run, steps :: IsRun(run, steps, 5) && OrderlyRun(run, steps, 5, |steps|) && run[|run| - 1] == w
  }

  lemma Reach(w: World, w': World, step: Step)
    requires Reachable(w) && Next(w, w', step, 5) && Orderly(w, w', step, 5)
    ensures Reachable(w')
  {
    var run, steps :| IsRun(run, steps, 5) && OrderlyRun(run, steps, 5, |steps|) && run[|run| - 1] == w;
    var run', steps' := run + [w'], steps + [step];
    assert IsRun(run', steps', 5);
    forall i | 0 <= i < |steps'| ensures Orderly(run'[i], run'[i + 1], steps'[i], 5) {
      if i < |steps| {
        assert Orderly(run[i], run[i + 1], steps[i], 5);
      }
    }
  }

  /** A step that is no command keeps a run orderly as long as it removes no mark. */
  lemma ReachQuiet(w: World, w': World, step: Step)
    requires Reachable(w) && Next(w, w', step, 5) && !step.Run? && !step.Fails? && w.pending.Keys <= w'.pending.Keys
    ensures Reachable(w')
  {
    Reach(w, w', step);
  }

  /** Running a thread, with its effect given in advance. */
  lemma ReachRun(w: World, tid: Tid, th': Thread, slot': Slot) returns (w': World)
    requires Reachable(w) && tid in w.threads && Enabled(w.threads[tid], At(w.slots, w.threads[tid].id))
    requires Exec(tid, w.threads[tid], At(w.slots, w.threads[tid].id), w.now, 5) == Effect(th', slot', [])
    requires w.threads[tid].pc != Unlist && w.threads[tid].pc != Recheck
    requires AttachedInTime(w.threads[tid], w.pending, w.now, 5)
    ensures Reachable(w')
    ensures w' == w.(threads := w.threads[tid := th'], slots := w.slots[w.threads[tid].id := slot'])
  {
    w' := w.(threads := w.threads[tid := th'], slots := w.slots[w.threads[tid].id := slot']);
    assert w.pending - {} == w.pending && w.listed - {} == w.listed;
    Reach(w, w', Run(tid));
  }

  lemma TicketIsMarked()
    ensures Reachable(MARKED)
  {
    assert Reachable(START) by {
      assert IsRun([START], [], 5);
    }
    var w1 := START.(listed := {"t"}, known := {"t"});
    ReachQuiet(START, w1, ListTicket("t"));
    var ts := {"t"};
    assert w1.pending + (map t | t in ts :: w1.now) == MARKED.pending;
    ReachQuiet(w1, MARKED, MarkPending(ts));
  }

  lemma CreateStores() returns (w: World)
    ensures Reachable(w)
    ensures w == MARKED.(slots := map["b" := HALF_CREATED], threads := map[0 := CREATOR.(pc := Stamp)])
  {
    TicketIsMarked();
    var w1 := MARKED.(slots := map["b" := EMPTY_SLOT.(used := true)], threads := map[0 := CREATOR]);
    ReachQuiet(MARKED, w1, Begin(0, CREATOR));
    w := ReachRun(w1, 0, CREATOR.(pc := Stamp), HALF_CREATED);
  }

  lemma CreateRuns() returns (w: World)
    ensures Reachable(w)
    ensures w == MARKED.(slots := map["b" := CREATED], threads := map[0 := CREATOR.(pc := Stream)])
  {
    var w2 := CreateStores();
    var w3 := ReachRun(w2, 0, CREATOR.(pc := Index), CREATED.(idx := None));
    w := ReachRun(w3, 0, CREATOR.(pc := Stream), CREATED);
  }

  /** At time 4, the last moment at which "b" is not expired, an acknowledgment has arrived. */
  lemma AckArrives() returns (w: World)
    ensures Reachable(w)
    ensures w == MARKED.(now := 4, slots := map["b" := CREATED],
                         threads := map[0 := CREATOR.(pc := Stream), 1 := ACKER])
  {
    var w0 := CreateRuns();
    var w1 := w0.(threads := w0.threads[1 := ACKER]);
    ReachQuiet(w0, w1, Begin(1, ACKER));
    w := w1.(now := 4);
    ReachQuiet(w1, w, Tick(4));
  }

  lemma AckReads() returns (w: World)
    ensures Reachable(w)
    ensures w == MARKED.(now := 4, slots := map["b" := HELD],
                         threads := map[0 := CREATOR.(pc := Stream), 1 := ACKER.(pc := Check, got := REC)])
  {
    var w0 := AckArrives();
    var w1 := ReachRun(w0, 1, ACKER.(pc := Get), HELD);
    w := ReachRun(w1, 1, ACKER.(pc := Check, got := REC), HELD);
  }

  lemma AckStamps() returns (w: World)
    ensures Reachable(w)
    ensures w == MARKED.(now := 4, slots := map["b" := HELD.(ack := Some(4))],
                         threads := map[0 := CREATOR.(pc := Stream), 1 := READER.(pc := Assign)])
  {
    var w0 := AckReads();
    var w1 := ReachRun(w0, 1, READER.(pc := Stamp), HELD);
    w := ReachRun(w1, 1, READER.(pc := Assign), HELD.(ack := Some(4)));
  }

  /** The acknowledgment stamped at 4; at 6 the ticket's mark has lapsed and the ticket is not yet
      deindexed, so it is back in the index while attached to an unexpired backfill. */
  lemma SlowAckExposes() returns (w: World)
    ensures Reachable(w) && AttachedTo(w, "t", "b", 5) && SlowAck(w, "b") && !BeingRemoved(w, "b")
    ensures "t" in IndexedIds(w, 5)
  {
    var w0 := AckStamps();
    w := w0.(now := 6);
    ReachQuiet(w0, w, Tick(2));
    assert w.threads[1].id == "b" && Assigning(w.threads[1]);
  }
}
