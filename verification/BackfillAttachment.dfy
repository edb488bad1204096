/** Runs without failing commands: the acknowledgment set tracks the stored backfills, and the
    tickets attached to an unexpired backfill stay out of the ticket index. */
module BackfillAttachment {
  import opened Domain
  import opened BackfillWorld
  import X = BackfillExpiry

  ghost predicate FailureFree(steps: seq<Step>, n: nat)
    requires n <= |steps|
  {
    forall i :: 0 <= i < n ==> !steps[i].Fails?
  }

  // ---------------------------------------------------------------- stored ids and acknowledged ids

  /** Between the two commands that change the record and the acknowledgment entry. */
  ghost predicate InTransition(th: Thread) {
    (Creating(th.op) && th.pc == Stamp) || th.pc == Unstamp
  }

  ghost predicate SlotMatched(slot: Slot) {
    slot.halfway.None? ==> (slot.rec.Some? <==> slot.ack.Some?)
  }

  ghost predicate ThreadMatched(tid: Tid, th: Thread, slot: Slot) {
    && (InTransition(th) ==> slot.halfway == Some(tid))
    && (th.pc == Unstamp ==> slot.rec.None?)
  }

  ghost predicate Owned(w: World, id: BackfillId, slot: Slot) {
    slot.halfway.Some? ==>
      && slot.halfway.value in w.threads && w.threads[slot.halfway.value].id == id
      && InTransition(w.threads[slot.halfway.value])
  }

  ghost predicate Matched(w: World) {
    && (forall id :: SlotMatched(At(w.slots, id)) && Owned(w, id, At(w.slots, id)))
    && (forall tid :: tid in w.threads ==> ThreadMatched(tid, w.threads[tid], At(w.slots, w.threads[tid].id)))
  }

  /** What a command must leave of the slot and of the thread that ran it. */
  ghost predicate LeavesMatched(tid: Tid, slot: Slot, e: Effect) {
    && SlotMatched(e.slot) && ThreadMatched(tid, e.th, e.slot)
    && (e.slot.halfway == Some(tid) ==> InTransition(e.th))
    && (e.slot.halfway.Some? && e.slot.halfway.value != tid ==> e.slot.halfway == slot.halfway)
  }

  /** other: the thread that is halfway on this id, when that is not the one running. */
  ghost predicate HalfwayKnown(tid: Tid, th: Thread, slot: Slot, other: Thread) {
    && (slot.halfway.Some? && slot.halfway.value != tid ==>
          ThreadSound(slot.halfway.value, other, slot) && InTransition(other) && other.id == th.id && Apart(th, other))
    && (slot.halfway == Some(tid) ==> InTransition(th))
  }

  lemma QuietKeepsMatched(tid: Tid, th: Thread, slot: Slot, now: int, p: nat, other: Thread)
    requires PcOfOp(th) && IsQuiet(th.pc) && SlotMatched(slot) && ThreadMatched(tid, th, slot)
    requires HalfwayKnown(tid, th, slot, other)
    ensures LeavesMatched(tid, slot, ExecQuiet(tid, th, slot, now, p))
  {
  }

  lemma WriteKeepsMatched(tid: Tid, th: Thread, slot: Slot, now: int, other: Thread)
    requires ThreadSound(tid, th, slot) && SlotSound(slot, now) && Enabled(th, slot) && !IsQuiet(th.pc)
    requires SlotMatched(slot) && ThreadMatched(tid, th, slot) && HalfwayKnown(tid, th, slot, other)
    ensures LeavesMatched(tid, slot, ExecWrite(tid, th, slot, now))
  {
  }

  lemma ExecKeepsMatched(tid: Tid, th: Thread, slot: Slot, now: int, p: nat, other: Thread)
    requires ThreadSound(tid, th, slot) && SlotSound(slot, now) && Enabled(th, slot)
    requires SlotMatched(slot) && ThreadMatched(tid, th, slot) && HalfwayKnown(tid, th, slot, other)
    ensures LeavesMatched(tid, slot, Exec(tid, th, slot, now, p))
  {
    if IsQuiet(th.pc) {
      QuietKeepsMatched(tid, th, slot, now, p, other);
    } else {
      WriteKeepsMatched(tid, th, slot, now, other);
    }
  }

  lemma ExecKeepsOtherMatched(tid: Tid, th: Thread, slot: Slot, now: int, p: nat, t: Tid, other: Thread)
    requires ThreadSound(tid, th, slot) && SlotSound(slot, now) && Enabled(th, slot)
    requires t != tid && ThreadSound(t, other, slot) && other.id == th.id && Apart(th, other)
    requires ThreadMatched(t, other, slot)
    ensures ThreadMatched(t, other, Exec(tid, th, slot, now, p).slot)
  {
  }

  lemma MatchedRun(w: World, w': World, tid: Tid, p: nat)
    requires Inv(w) && Matched(w) && RunStep(w, w', tid, p)
    ensures Matched(w')
  {
    MatchedHere(w, w', tid, p);
    forall id ensures SlotMatched(At(w'.slots, id)) && Owned(w', id, At(w'.slots, id)) {
      if id != w.threads[tid].id {
        assert At(w'.slots, id) == At(w.slots, id);
        assert SlotMatched(At(w.slots, id)) && Owned(w, id, At(w.slots, id));
      }
    }
    forall t | t in w'.threads ensures ThreadMatched(t, w'.threads[t], At(w'.slots, w'.threads[t].id)) {
      if t != tid {
        MatchedOther(w, w', tid, p, t);
      }
    }
  }

  lemma MatchedHere(w: World, w': World, tid: Tid, p: nat)
    requires Inv(w) && Matched(w) && RunStep(w, w', tid, p)
    ensures var th := w'.threads[tid];
            var slot := At(w'.slots, w.threads[tid].id);
            && th.id == w.threads[tid].id && SlotMatched(slot) && ThreadMatched(tid, th, slot) && Owned(w', th.id, slot)
  {
    var th := w.threads[tid];
    var slot := At(w.slots, th.id);
    assert ThreadSound(tid, th, slot) && SlotSound(slot, w.now) && ThreadMatched(tid, th, slot);
    assert SlotMatched(slot) && Owned(w, th.id, slot);
    var other := if slot.halfway.Some? then w.threads[slot.halfway.value] else th;
    if slot.halfway.Some? {
      assert ThreadSound(slot.halfway.value, other, At(w.slots, other.id));
      assert slot.halfway.value != tid ==> Apart(th, other);
    }
    ExecKeepsMatched(tid, th, slot, w.now, p, other);
    RunFacts(tid, th, slot, w.now, p);
  }

  lemma MatchedOther(w: World, w': World, tid: Tid, p: nat, t: Tid)
    requires Inv(w) && Matched(w) && RunStep(w, w', tid, p) && t in w.threads && t != tid
    ensures ThreadMatched(t, w'.threads[t], At(w'.slots, w'.threads[t].id))
  {
    var th, o := w.threads[tid], w.threads[t];
    assert ThreadSound(tid, th, At(w.slots, th.id)) && SlotSound(At(w.slots, th.id), w.now);
    assert ThreadSound(t, o, At(w.slots, o.id)) && ThreadMatched(t, o, At(w.slots, o.id)) && Apart(th, o);
    if o.id == th.id {
      ExecKeepsOtherMatched(tid, th, At(w.slots, th.id), w.now, p, t, o);
    }
  }

  lemma MatchedBegin(w: World, w': World, tid: Tid, th: Thread)
    requires Inv(w) && Matched(w) && BeginStep(w, w', tid, th)
    ensures Matched(w')
  {
    forall id ensures
      && SlotMatched(At(w'.slots, id)) && Owned(w', id, At(w'.slots, id))
      && At(w'.slots, id).halfway == At(w.slots, id).halfway && At(w'.slots, id).rec == At(w.slots, id).rec
    {
      assert SlotMatched(At(w.slots, id)) && Owned(w, id, At(w.slots, id));
    }
  }

  lemma MatchedStep(w: World, w': World, step: Step, p: nat)
    requires Inv(w) && Matched(w) && Next(w, w', step, p) && !step.Fails?
    ensures Matched(w')
  {
    if step.Run? {
      MatchedRun(w, w', step.tid, p);
    } else if step.Begin? {
      MatchedBegin(w, w', step.tid, step.th);
    } else {
      forall id ensures SlotMatched(At(w'.slots, id)) && Owned(w', id, At(w'.slots, id)) {
        assert SlotMatched(At(w.slots, id)) && Owned(w, id, At(w.slots, id));
      }
    }
  }

  lemma {:induction false} MatchedOfRun(run: seq<World>, steps: seq<Step>, p: nat, n: nat)
    requires IsRun(run, steps, p) && n < |run| && FailureFree(steps, n)
    ensures Matched(run[n])
  {
    if n == 0 {
    } else {
      MatchedOfRun(run, steps, p, n - 1);
      InvOfRun(run, steps, p, n - 1);
      MatchedStep(run[n - 1], run[n], steps[n - 1], p);
    }
  }

  /** In a run without failures, an id with no create or delete between its two commands is stored
      exactly when it has an acknowledgment entry. */
  lemma StoredIffAcknowledged(run: seq<World>, steps: seq<Step>, p: nat, n: nat, id: BackfillId)
    requires IsRun(run, steps, p) && n < |run| && FailureFree(steps, n)
    requires forall t :: t in run[n].threads && run[n].threads[t].id == id ==> !InTransition(run[n].threads[t])
    ensures At(run[n].slots, id).rec.Some? <==> At(run[n].slots, id).ack.Some?
  {
    MatchedOfRun(run, steps, p, n);
    assert SlotMatched(At(run[n].slots, id)) && Owned(run[n], id, At(run[n].slots, id));
  }

  // ---------------------------------------------------------------- attached tickets stay hidden

  /** How long after being marked pending a ticket may be attached. */
  function Slack(p: nat): int {
    p - Ttl(p)
  }

  /** A fifth of p, up to the rounding of the timeout. */
  lemma SlackIsAFifth(p: nat)
    ensures p <= 5 * Slack(p) < p + 20
  {
    TtlIsFourFifths(p);
  }

  ghost predicate FreshlyMarked(pending: map<TicketId, int>, now: int, tickets: seq<TicketId>, p: nat) {
    forall t :: t in tickets ==> t in pending && pending[t] >= now - Slack(p)
  }

  /** Tickets are attached soon enough: a match's tickets when its update is written, a created
      backfill's when its acknowledgment starts. */
  ghost predicate AttachedInTime(th: Thread, pending: map<TicketId, int>, now: int, p: nat) {
    && (th.op == Match && th.pc == Write ==> FreshlyMarked(pending, now, th.tickets, p))
    && (Creating(th.op) && th.pc == Stamp ==> FreshlyMarked(pending, now, th.got.tickets, p))
  }

  /** An acknowledgment, once stamped, gets as far as detaching the tickets. */
  ghost predicate Completes(th: Thread, slot: Slot, now: int, p: nat) {
    th.pc == Recheck ==> !CheckFails(slot, now, p)
  }

  /** No attached ticket is released, except by the deletion of its own backfill. */
  ghost predicate KeepsAttached(w: World, w': World, step: Step) {
    forall id, t ::
      At(w.slots, id).rec.Some? && t in At(w.slots, id).rec.value.tickets && t in w.pending && t !in w'.pending ==>
      step.Run? && step.tid in w.threads && w.threads[step.tid].id == id && w.threads[step.tid].op == Delete
  }

  ghost predicate Orderly(w: World, w': World, step: Step, p: nat) {
    && !step.Fails?
    && KeepsAttached(w, w', step)
    && (step.Run? && step.tid in w.threads ==>
          && AttachedInTime(w.threads[step.tid], w.pending, w.now, p)
          && Completes(w.threads[step.tid], At(w.slots, w.threads[step.tid].id), w.now, p))
  }

  ghost predicate OrderlyRun(run: seq<World>, steps: seq<Step>, p: nat, n: nat)
    requires |run| == |steps| + 1 && n <= |steps|
  {
    forall i :: 0 <= i < n ==> Orderly(run[i], run[i + 1], steps[i], p)
  }

  /** An acknowledgment between its stamp and the deindexing of the tickets. */
  ghost predicate Assigning(th: Thread) {
    th.op == Ack && (th.pc == Assign || th.pc == Unlist)
  }

  /** A deletion between the release of the tickets and the removal of the record. */
  ghost predicate Removing(th: Thread) {
    th.op == Delete && th.pc == Remove
  }

  /** An acknowledgment past its stamp, or a deletion past its release. */
  ghost predicate AtWork(th: Thread) {
    Assigning(th) || (th.op == Ack && (th.pc == Recheck || th.pc == Detach)) || Removing(th)
  }

  ghost predicate Busy(w: World, id: BackfillId) {
    exists tid :: tid in w.threads && w.threads[tid].id == id && AtWork(w.threads[tid])
  }

  ghost predicate BeingRemoved(w: World, id: BackfillId) {
    exists tid :: tid in w.threads && w.threads[tid].id == id && Removing(w.threads[tid])
  }

  // ---------------------------------------------------------------- attached tickets are marked

  /** Every attached ticket is marked. */
  ghost predicate Held(slot: Slot, pending: map<TicketId, int>) {
    slot.rec.Some? && slot.ack.Some? ==> forall t :: t in slot.rec.value.tickets ==> t in pending
  }

  /** Every attached ticket was marked at most p - ttl before the last acknowledgment. */
  ghost predicate Covered(slot: Slot, pending: map<TicketId, int>, p: nat) {
    slot.rec.Some? && slot.ack.Some? ==>
      forall t :: t in slot.rec.value.tickets ==> t in pending && pending[t] >= slot.ack.value - Slack(p)
  }

  /** An acknowledgment at work: until it deindexes them, its tickets were marked at most p before its
      expiry check; afterwards none of them is listed, or ever will be. */
  ghost predicate WorkSound(
    th: Thread, pending: map<TicketId, int>, listed: set<TicketId>, known: set<TicketId>, p: nat)
  {
    && (Assigning(th) ==> forall t :: t in th.got.tickets ==> t in pending && pending[t] >= th.checkedAt - p)
    && (AtWork(th) && !Assigning(th) && !Removing(th) ==>
          forall t :: t in th.got.tickets ==> t in known && t !in listed)
  }

  ghost predicate MarksSound(w: World) {
    forall t :: t in w.pending ==> w.pending[t] <= w.now && t in w.known
  }

  ghost predicate AllHeld(w: World) {
    forall id :: !BeingRemoved(w, id) ==> Held(At(w.slots, id), w.pending)
  }

  ghost predicate AllCovered(w: World, p: nat) {
    forall id :: !Busy(w, id) ==> Covered(At(w.slots, id), w.pending, p)
  }

  ghost predicate AllWorkSound(w: World, p: nat) {
    forall tid :: tid in w.threads ==> WorkSound(w.threads[tid], w.pending, w.listed, w.known, p)
  }

  ghost predicate Kept(w: World, p: nat) {
    MarksSound(w) && AllHeld(w) && AllCovered(w, p) && AllWorkSound(w, p)
  }

  // ---------------------------------------------------------------- one command

  /** What the marks after a command have to do with those before it. */
  ghost predicate MarksAfter(th: Thread, slot: Slot, pending: map<TicketId, int>, pending': map<TicketId, int>) {
    && (forall t :: t in pending' ==> t in pending && pending'[t] == pending[t])
    && (slot.rec.Some? && th.op != Delete ==>
          forall t :: t in slot.rec.value.tickets && t in pending ==> t in pending')
    && (FreesNothing(th) ==> pending' == pending)
  }

  ghost predicate FreesNothing(th: Thread) {
    th.pc in {Write, Stamp, Assign, Unlist, Recheck, Detach} || (th.op == Delete && th.pc != Free)
  }

  lemma ExecFrees(tid: Tid, th: Thread, slot: Slot, now: int, p: nat)
    requires PcOfOp(th) && FreesNothing(th)
    ensures Exec(tid, th, slot, now, p).freed == []
  {
  }

  lemma ExecKeepsHeld(
    tid: Tid, th: Thread, slot: Slot, now: int, p: nat, pending: map<TicketId, int>, pending': map<TicketId, int>)
    requires ThreadSound(tid, th, slot) && SlotSound(slot, now) && Enabled(th, slot)
    requires X.StampPassed(th, slot, now, p) && AttachedInTime(th, pending, now, p)
    requires !Removing(th) ==> Held(slot, pending)
    requires MarksAfter(th, slot, pending, pending')
    ensures var e := Exec(tid, th, slot, now, p); !Removing(e.th) ==> Held(e.slot, pending')
  {
  }

  lemma ExecKeepsCovered(
    tid: Tid, th: Thread, slot: Slot, now: int, p: nat, pending: map<TicketId, int>, pending': map<TicketId, int>)
    requires ThreadSound(tid, th, slot) && SlotSound(slot, now) && Enabled(th, slot)
    requires AttachedInTime(th, pending, now, p) && Completes(th, slot, now, p)
    requires !AtWork(th) ==> Covered(slot, pending, p)
    requires MarksAfter(th, slot, pending, pending')
    ensures var e := Exec(tid, th, slot, now, p); !AtWork(e.th) ==> Covered(e.slot, pending', p)
  {
  }

  lemma ExecKeepsWork(
    tid: Tid, th: Thread, slot: Slot, now: int, p: nat,
    pending: map<TicketId, int>, pending': map<TicketId, int>, listed: set<TicketId>, known: set<TicketId>)
    requires ThreadSound(tid, th, slot) && Enabled(th, slot) && X.StampPassed(th, slot, now, p)
    requires WorkSound(th, pending, listed, known, p)
    requires th.op == Ack && th.pc == Stamp ==> Covered(slot, pending, p)
    requires MarksAfter(th, slot, pending, pending') && forall t :: t in pending ==> t in known
    ensures WorkSound(Exec(tid, th, slot, now, p).th, pending', listed - Unlisted(th), known, p)
  {
  }

  // ---------------------------------------------------------------- every orderly step

  ghost predicate Sound(w: World, p: nat) {
    Inv(w) && X.StampsPassed(w, p) && Kept(w, p)
  }

  lemma RunMarks(w: World, w': World, tid: Tid, p: nat)
    requires Inv(w) && RunStep(w, w', tid, p) && KeepsAttached(w, w', Run(tid))
    ensures MarksAfter(w.threads[tid], At(w.slots, w.threads[tid].id), w.pending, w'.pending)
  {
    var th := w.threads[tid];
    var slot := At(w.slots, th.id);
    assert ThreadSound(tid, th, slot);
    if FreesNothing(th) {
      ExecFrees(tid, th, slot, w.now, p);
      assert w'.pending == w.pending;
    }
  }

  /** A thread at work on an id and not the one running is at work before and after. */
  lemma QuietElsewhere(w: World, w': World, tid: Tid, p: nat, id: BackfillId)
    requires RunStep(w, w', tid, p) && id != w.threads[tid].id
    ensures At(w'.slots, id) == At(w.slots, id)
    ensures Busy(w, id) ==> Busy(w', id)
    ensures BeingRemoved(w, id) ==> BeingRemoved(w', id)
  {
    if Busy(w, id) {
      var t :| t in w.threads && w.threads[t].id == id && AtWork(w.threads[t]);
      assert w'.threads[t] == w.threads[t];
    }
    if BeingRemoved(w, id) {
      var t :| t in w.threads && w.threads[t].id == id && Removing(w.threads[t]);
      assert w'.threads[t] == w.threads[t];
    }
  }

  /** On its own id a running thread at no work of that kind runs alone. */
  lemma QuietHere(w: World, w': World, tid: Tid, p: nat)
    requires RunStep(w, w', tid, p)
    ensures Busy(w, w.threads[tid].id) && !AtWork(w.threads[tid]) ==> Busy(w', w.threads[tid].id)
    ensures BeingRemoved(w, w.threads[tid].id) && !Removing(w.threads[tid]) ==> BeingRemoved(w', w.threads[tid].id)
  {
    var id := w.threads[tid].id;
    if Busy(w, id) && !AtWork(w.threads[tid]) {
      var t :| t in w.threads && w.threads[t].id == id && AtWork(w.threads[t]);
      assert w'.threads[t] == w.threads[t];
    }
    if BeingRemoved(w, id) && !Removing(w.threads[tid]) {
      var t :| t in w.threads && w.threads[t].id == id && Removing(w.threads[t]);
      assert w'.threads[t] == w.threads[t];
    }
  }

  lemma RunKeepsHeld(w: World, w': World, tid: Tid, p: nat, id: BackfillId)
    requires Sound(w, p) && RunStep(w, w', tid, p) && Orderly(w, w', Run(tid), p) && !BeingRemoved(w', id)
    ensures Held(At(w'.slots, id), w'.pending)
  {
    var th := w.threads[tid];
    if id == th.id {
      var slot := At(w.slots, id);
      assert ThreadSound(tid, th, slot) && SlotSound(slot, w.now) && X.StampPassed(th, slot, w.now, p);
      QuietHere(w, w', tid, p);
      RunMarks(w, w', tid, p);
      RunFacts(tid, th, slot, w.now, p);
      assert w'.threads[tid] == Exec(tid, th, slot, w.now, p).th;
      ExecKeepsHeld(tid, th, slot, w.now, p, w.pending, w'.pending);
    } else {
      QuietElsewhere(w, w', tid, p, id);
      assert Held(At(w.slots, id), w.pending);
    }
  }

  lemma RunKeepsCovered(w: World, w': World, tid: Tid, p: nat, id: BackfillId)
    requires Sound(w, p) && RunStep(w, w', tid, p) && Orderly(w, w', Run(tid), p) && !Busy(w', id)
    ensures Covered(At(w'.slots, id), w'.pending, p)
  {
    var th := w.threads[tid];
    if id == th.id {
      var slot := At(w.slots, id);
      assert ThreadSound(tid, th, slot) && SlotSound(slot, w.now);
      QuietHere(w, w', tid, p);
      RunMarks(w, w', tid, p);
      RunFacts(tid, th, slot, w.now, p);
      assert w'.threads[tid] == Exec(tid, th, slot, w.now, p).th;
      ExecKeepsCovered(tid, th, slot, w.now, p, w.pending, w'.pending);
    } else {
      QuietElsewhere(w, w', tid, p, id);
      assert Covered(At(w.slots, id), w.pending, p);
    }
  }

  /** The holder of the lock, itself at no work, is the only thread that could be. */
  lemma LockedIsIdle(w: World, tid: Tid)
    requires ThreadsSound(w) && tid in w.threads && Holding(w.threads[tid]) && !AtWork(w.threads[tid])
    ensures !Busy(w, w.threads[tid].id)
  {
    forall t | t in w.threads && w.threads[t].id == w.threads[tid].id
      ensures !AtWork(w.threads[t])
    {
      assert ThreadSound(t, w.threads[t], At(w.slots, w.threads[t].id));
      assert ThreadSound(tid, w.threads[tid], At(w.slots, w.threads[tid].id));
    }
  }

  lemma RunKeepsOwnWork(w: World, w': World, tid: Tid, p: nat)
    requires Sound(w, p) && RunStep(w, w', tid, p) && KeepsAttached(w, w', Run(tid))
    ensures WorkSound(w'.threads[tid], w'.pending, w'.listed, w'.known, p)
  {
    var th := w.threads[tid];
    var slot := At(w.slots, th.id);
    RunMarks(w, w', tid, p);
    if th.op == Ack && th.pc == Stamp {
      LockedIsIdle(w, tid);
    }
    StampIsCovered(w, tid, p);
    ExecKeepsWork(tid, th, slot, w.now, p, w.pending, w'.pending, w.listed, w.known);
  }

  lemma StampIsCovered(w: World, tid: Tid, p: nat)
    requires Sound(w, p) && tid in w.threads
    ensures var th := w.threads[tid];
            var slot := At(w.slots, th.id);
            && ThreadSound(tid, th, slot) && X.StampPassed(th, slot, w.now, p)
            && WorkSound(th, w.pending, w.listed, w.known, p)
            && (th.op == Ack && th.pc == Stamp ==> Covered(slot, w.pending, p))
  {
    if w.threads[tid].op == Ack && w.threads[tid].pc == Stamp {
      LockedIsIdle(w, tid);
    }
  }

  /** A deletion runs no command while another thread holds its lock. */
  lemma DeletionWaits(w: World, tid: Tid, t: Tid)
    requires ThreadsSound(w) && tid in w.threads && t in w.threads && w.threads[tid].id == w.threads[t].id
    requires w.threads[tid].op == Delete && Enabled(w.threads[tid], At(w.slots, w.threads[tid].id))
    requires Holding(w.threads[t])
    ensures t == tid
  {
    assert ThreadSound(tid, w.threads[tid], At(w.slots, w.threads[tid].id));
    assert ThreadSound(t, w.threads[t], At(w.slots, w.threads[t].id));
  }

  /** A thread at work holds the lock, so no deletion releases its tickets meanwhile. */
  lemma RunKeepsOtherWork(w: World, w': World, tid: Tid, p: nat, t: Tid)
    requires Inv(w) && RunStep(w, w', tid, p) && KeepsAttached(w, w', Run(tid)) && t in w.threads && t != tid
    requires WorkSound(w.threads[t], w.pending, w.listed, w.known, p)
    ensures WorkSound(w.threads[t], w'.pending, w'.listed, w'.known, p)
  {
    var th, o := w.threads[tid], w.threads[t];
    if Assigning(o) {
      assert At(w.slots, o.id).rec == Some(o.got) by {
        assert ThreadSound(t, o, At(w.slots, o.id));
      }
      if th.id == o.id && th.op == Delete {
        DeletionWaits(w, tid, t);
      }
    }
  }

  lemma RunKeepsKept(w: World, w': World, tid: Tid, p: nat)
    requires Sound(w, p) && RunStep(w, w', tid, p) && Orderly(w, w', Run(tid), p)
    ensures Kept(w', p)
  {
    forall id | !BeingRemoved(w', id) ensures Held(At(w'.slots, id), w'.pending) {
      RunKeepsHeld(w, w', tid, p, id);
    }
    forall id | !Busy(w', id) ensures Covered(At(w'.slots, id), w'.pending, p) {
      RunKeepsCovered(w, w', tid, p, id);
    }
    RunKeepsOwnWork(w, w', tid, p);
    forall t | t in w'.threads ensures WorkSound(w'.threads[t], w'.pending, w'.listed, w'.known, p) {
      if t != tid {
        RunKeepsOtherWork(w, w', tid, p, t);
      }
    }
  }

  lemma QuietKeepsKept(w: World, w': World, step: Step, p: nat)
    requires Sound(w, p) && Next(w, w', step, p) && !step.Run? && Orderly(w, w', step, p)
    ensures Kept(w', p)
  {
    forall id
      ensures !BeingRemoved(w', id) ==> Held(At(w'.slots, id), w'.pending)
      ensures !Busy(w', id) ==> Covered(At(w'.slots, id), w'.pending, p)
    {
      StillAtWork(w, w', step, p, id);
      assert !BeingRemoved(w, id) ==> Held(At(w.slots, id), w.pending);
      assert !Busy(w, id) ==> Covered(At(w.slots, id), w.pending, p);
    }
    QuietKeepsWork(w, w', step, p);
  }

  lemma StillAtWork(w: World, w': World, step: Step, p: nat, id: BackfillId)
    requires Next(w, w', step, p) && !step.Run? && !step.Fails?
    ensures Busy(w, id) ==> Busy(w', id)
    ensures BeingRemoved(w, id) ==> BeingRemoved(w', id)
    ensures At(w'.slots, id).rec == At(w.slots, id).rec && At(w'.slots, id).ack == At(w.slots, id).ack
  {
    if Busy(w, id) {
      var t :| t in w.threads && w.threads[t].id == id && AtWork(w.threads[t]);
      assert w'.threads[t] == w.threads[t];
    }
    if BeingRemoved(w, id) {
      var t :| t in w.threads && w.threads[t].id == id && Removing(w.threads[t]);
      assert w'.threads[t] == w.threads[t];
    }
  }

  lemma QuietKeepsWork(w: World, w': World, step: Step, p: nat)
    requires ThreadsSound(w) && MarksSound(w) && AllWorkSound(w, p)
    requires Next(w, w', step, p) && !step.Run? && Orderly(w, w', step, p)
    ensures AllWorkSound(w', p)
  {
    forall t | t in w'.threads ensures WorkSound(w'.threads[t], w'.pending, w'.listed, w'.known, p) {
      if t in w.threads {
        if Assigning(w.threads[t]) {
          AtWorkHasRead(w, t);
        }
        QuietWork(w, w', step, p, t);
      }
    }
  }

  lemma QuietWork(w: World, w': World, step: Step, p: nat, t: Tid)
    requires MarksSound(w) && Next(w, w', step, p) && !step.Run? && Orderly(w, w', step, p) && t in w.threads
    requires WorkSound(w.threads[t], w.pending, w.listed, w.known, p)
    requires Assigning(w.threads[t]) ==> At(w.slots, w.threads[t].id).rec == Some(w.threads[t].got)
    ensures WorkSound(w.threads[t], w'.pending, w'.listed, w'.known, p)
  {
  }

  lemma KeptAt(run: seq<World>, steps: seq<Step>, p: nat, n: nat)
    requires IsRun(run, steps, p) && n < |steps| && Kept(run[n], p) && Orderly(run[n], run[n + 1], steps[n], p)
    ensures Kept(run[n + 1], p)
  {
    InvOfRun(run, steps, p, n);
    X.StampsPassedOfRun(run, steps, p, n);
    if steps[n].Run? {
      RunKeepsKept(run[n], run[n + 1], steps[n].tid, p);
    } else {
      QuietKeepsKept(run[n], run[n + 1], steps[n], p);
    }
  }

  lemma {:induction false} KeptOfRun(run: seq<World>, steps: seq<Step>, p: nat, n: nat)
    requires IsRun(run, steps, p) && n < |run| && OrderlyRun(run, steps, p, n)
    ensures Kept(run[n], p)
  {
    if n == 0 {
      assert forall id :: At(run[0].slots, id) == EMPTY_SLOT;
    } else {
      KeptOfRun(run, steps, p, n - 1);
      KeptAt(run, steps, p, n - 1);
    }
  }

  // ---------------------------------------------------------------- main results, over every orderly run

  /** GetIndexedIDSet: listed tickets, less those in the pending-release window. */
  ghost function IndexedIds(w: World, p: nat): set<TicketId> {
    w.listed - (set t | t in w.pending && w.now - p <= w.pending[t] <= w.now + HOUR)
  }

  /** The ticket is attached to a backfill that has not expired. */
  ghost predicate AttachedTo(w: World, t: TicketId, id: BackfillId, p: nat) {
    && At(w.slots, id).rec.Some? && t in At(w.slots, id).rec.value.tickets
    && At(w.slots, id).ack.Some? && !Expired(At(w.slots, id), w.now, p)
  }

  /** An acknowledgment of the id has stamped and not yet deindexed, and the clock has moved since its expiry check. */
  ghost predicate SlowAck(w: World, id: BackfillId) {
    exists tid ::
      tid in w.threads && w.threads[tid].id == id && Assigning(w.threads[tid]) && w.threads[tid].checkedAt < w.now
  }

  /** An attached ticket keeps its mark until the deletion of its backfill releases it, so it is in the
      ticket index exactly when it is still listed and its mark has lapsed. */
  lemma AttachedExposedIff(run: seq<World>, steps: seq<Step>, p: nat, n: nat, id: BackfillId, t: TicketId)
    requires IsRun(run, steps, p) && n < |run| && OrderlyRun(run, steps, p, n)
    requires AttachedTo(run[n], t, id, p) && !BeingRemoved(run[n], id)
    ensures t in run[n].pending
    ensures t in IndexedIds(run[n], p) <==> t in run[n].listed && run[n].now > run[n].pending[t] + p
  {
    KeptOfRun(run, steps, p, n);
    assert Held(At(run[n].slots, id), run[n].pending);
  }

  /** In every orderly run, a ticket attached to an unexpired backfill is absent from the ticket index,
      unless an acknowledgment of that backfill is slow or a deletion has just released the ticket. */
  lemma AttachedTicketsAreHidden(run: seq<World>, steps: seq<Step>, p: nat, n: nat, id: BackfillId, t: TicketId)
    requires IsRun(run, steps, p) && n < |run| && OrderlyRun(run, steps, p, n) && AttachedTo(run[n], t, id, p)
    ensures t in IndexedIds(run[n], p) ==> SlowAck(run[n], id) || BeingRemoved(run[n], id)
  {
    KeptOfRun(run, steps, p, n);
    InvOfRun(run, steps, p, n);
    HiddenNow(run[n], p, id, t);
  }

  lemma HiddenNow(w: World, p: nat, id: BackfillId, t: TicketId)
    requires ThreadsSound(w) && Kept(w, p) && AttachedTo(w, t, id, p)
    ensures t in IndexedIds(w, p) ==> SlowAck(w, id) || BeingRemoved(w, id)
  {
    if tid :| tid in w.threads && w.threads[tid].id == id && AtWork(w.threads[tid]) {
      if !Removing(w.threads[tid]) {
        AtWorkHasRead(w, tid);
      }
      assert WorkSound(w.threads[tid], w.pending, w.listed, w.known, p);
    } else {
      assert !Busy(w, id);
      assert Covered(At(w.slots, id), w.pending, p);
    }
  }

  lemma AtWorkHasRead(w: World, tid: Tid)
    requires ThreadsSound(w) && tid in w.threads && AtWork(w.threads[tid]) && !Removing(w.threads[tid])
    ensures At(w.slots, w.threads[tid].id).rec == Some(w.threads[tid].got)
  {
    assert ThreadSound(tid, w.threads[tid], At(w.slots, w.threads[tid].id));
  }
}
