/** What the backfill RPCs write, attach and release, told from the requests. */
module BackfillUpdates {
  import opened Domain
  import opened BackfillWorld
  import opened BackfillGenerations

  // ---------------------------------------------------------------- requests

  /** A thread's request: what it was begun with and keeps. */
  ghost predicate SameRequest(a: Thread, b: Thread) {
    && a.op == b.op && a.id == b.id && a.arg == b.arg
    && (a.op == Match ==> a.tickets == b.tickets)
    && (Creating(a.op) ==> a.got == b.got)
  }

  lemma ExecKeepsRequest(tid: Tid, th: Thread, slot: Slot, now: int, p: nat)
    requires PcOfOp(th) && !th.pc.Done?
    ensures SameRequest(th, Exec(tid, th, slot, now, p).th)
  {
  }

  lemma RequestStep(w: World, w': World, step: Step, p: nat, tid: Tid)
    requires Next(w, w', step, p) && tid in w.threads && PcOfOp(w.threads[tid])
    ensures tid in w'.threads && SameRequest(w.threads[tid], w'.threads[tid])
  {
    if step == Run(tid) {
      ExecKeepsRequest(tid, w.threads[tid], At(w.slots, w.threads[tid].id), w.now, p);
    }
  }

  /** From its arrival on a thread keeps its request. */
  lemma {:induction false} RequestIsKept(run: seq<World>, steps: seq<Step>, p: nat, i: nat, n: nat, tid: Tid)
    requires IsRun(run, steps, p) && i <= n < |run| && tid in run[i].threads
    ensures tid in run[n].threads && SameRequest(run[i].threads[tid], run[n].threads[tid])
    decreases n
  {
    if i == n {
    } else {
      RequestIsKept(run, steps, p, i, n - 1, tid);
      PcOfThread(run, steps, p, n - 1, tid);
      RequestStep(run[n - 1], run[n], steps[n - 1], p, tid);
    }
  }

  // ---------------------------------------------------------------- what is written

  /** `after` is what an update makes of the record `before`. */
  ghost predicate IsUpdateOf(th: Thread, before: Record, after: Record) {
    && after.bf.gen == before.bf.gen + 1 && after.bf.createTime == before.bf.createTime
    && after.bf.searchFields == th.arg.searchFields && after.bf.extensions == th.arg.extensions
    && (th.op == Match ==> after.bf.persistent == before.bf.persistent && after.tickets == before.tickets + th.tickets)
    && (th.op == Update ==> after.bf.persistent == th.arg.persistent && after.tickets == [])
  }

  lemma ExecWrites(tid: Tid, th: Thread, slot: Slot, now: int, p: nat)
    requires ThreadSound(tid, th, slot) && th.pc == Write
    ensures var after := Exec(tid, th, slot, now, p).slot.rec;
            slot.rec.Some? && after.Some? && IsUpdateOf(th, slot.rec.value, after.value)
  {
  }

  /** An update puts the request's fields over what is stored at that moment, one generation on. An
      accepted match keeps the attached tickets and adds its own; a game server's update detaches all. */
  lemma UpdateWrites(run: seq<World>, steps: seq<Step>, p: nat, n: nat, tid: Tid)
    requires IsRun(run, steps, p) && n < |steps| && steps[n] == Run(tid)
    requires tid in run[n].threads && run[n].threads[tid].pc == Write
    ensures var th := run[n].threads[tid];
            var before, after := At(run[n].slots, th.id).rec, At(run[n + 1].slots, th.id).rec;
            && before.Some? && after.Some? && (th.op == Match || th.op == Update)
            && IsUpdateOf(th, before.value, after.value)
  {
    InvOfRun(run, steps, p, n);
    var th := run[n].threads[tid];
    assert ThreadSound(tid, th, At(run[n].slots, th.id));
    assert Next(run[n], run[n + 1], steps[n], p);
    ExecWrites(tid, th, At(run[n].slots, th.id), run[n].now, p);
  }

  /** A create stores what it was asked to store, as generation one. */
  lemma CreateWrites(run: seq<World>, steps: seq<Step>, p: nat, n: nat, tid: Tid)
    requires IsRun(run, steps, p) && n < |steps| && steps[n] == Run(tid)
    requires tid in run[n].threads && run[n].threads[tid].pc == New
    ensures var th := run[n].threads[tid];
            && At(run[n].slots, th.id).rec.None? && th.got.bf.gen == 1
            && At(run[n + 1].slots, th.id).rec == Some(th.got)
  {
    InvOfRun(run, steps, p, n);
    var th := run[n].threads[tid];
    assert ThreadSound(tid, th, At(run[n].slots, th.id));
    assert Next(run[n], run[n + 1], steps[n], p);
  }

  // ---------------------------------------------------------------- what is released

  /** The step takes the ticket out of pending release. */
  ghost predicate Releases(w: World, step: Step, t: TicketId) {
    match step
    case ReleaseTickets(ts) => t in ts
    case Run(tid) =>
      && tid in w.threads
      && var th := w.threads[tid];
         || ((th.pc == Release || th.pc == LetGo) && t in th.tickets)
         || (th.pc == Free && t in th.got.tickets)
    case _ => false
  }

  /** When the ticket was last marked, if nothing released it since. */
  ghost function MarkTime(run: seq<World>, steps: seq<Step>, n: nat, t: TicketId): Option<int>
    requires n <= |steps| && |run| == |steps| + 1
  {
    if n == 0 then None
    else if steps[n - 1].MarkPending? && t in steps[n - 1].ts then Some(run[n - 1].now)
    else if Releases(run[n - 1], steps[n - 1], t) then None
    else MarkTime(run, steps, n - 1, t)
  }

  ghost function Mark(w: World, t: TicketId): Option<int> {
    if t in w.pending then Some(w.pending[t]) else None
  }

  lemma ExecReleases(tid: Tid, th: Thread, slot: Slot, now: int, p: nat, t: TicketId)
    ensures t in Exec(tid, th, slot, now, p).freed <==>
            ((th.pc == Release || th.pc == LetGo) && t in th.tickets) || (th.pc == Free && t in th.got.tickets)
  {
  }

  lemma MarkStep(w: World, w': World, step: Step, p: nat, t: TicketId)
    requires Next(w, w', step, p)
    ensures Mark(w', t) ==
            if step.MarkPending? && t in step.ts then Some(w.now) else if Releases(w, step, t) then None else Mark(w, t)
  {
    if step.Run? {
      var th := w.threads[step.tid];
      ExecReleases(step.tid, th, At(w.slots, th.id), w.now, p, t);
    }
  }

  /** A ticket is pending exactly when it was marked and not released since, with the time of that mark. */
  lemma {:induction false} PendingIsHistory(run: seq<World>, steps: seq<Step>, p: nat, n: nat, t: TicketId)
    requires IsRun(run, steps, p) && n < |run|
    ensures Mark(run[n], t) == MarkTime(run, steps, n, t)
  {
    if n == 0 {
    } else {
      PendingIsHistory(run, steps, p, n - 1, t);
      MarkStep(run[n - 1], run[n], steps[n - 1], p, t);
    }
  }

  lemma ExecToRelease(tid: Tid, th: Thread, slot: Slot, now: int, p: nat)
    requires ThreadSound(tid, th, slot) && !th.pc.Done? && Exec(tid, th, slot, now, p).th.pc == Release
    ensures th.pc == Write && slot.rec.Some? && Exec(tid, th, slot, now, p).th.tickets == slot.rec.value.tickets
  {
  }

  lemma StepToRelease(w: World, w': World, step: Step, p: nat, tid: Tid)
    requires ThreadsSound(w) && Next(w, w', step, p) && tid in w'.threads && w'.threads[tid].pc == Release
    ensures tid in w.threads
    ensures if step == Run(tid)
            then w.threads[tid].pc == Write && At(w.slots, w.threads[tid].id).rec.Some?
                 && w'.threads[tid].tickets == At(w.slots, w.threads[tid].id).rec.value.tickets
            else w'.threads[tid] == w.threads[tid]
  {
    if tid in w.threads {
      assert ThreadSound(tid, w.threads[tid], At(w.slots, w.threads[tid].id));
      if step == Run(tid) {
        ExecToRelease(tid, w.threads[tid], At(w.slots, w.threads[tid].id), w.now, p);
      }
    }
  }

  /** A game server's update about to release holds exactly the tickets that were attached when it wrote. */
  lemma {:induction false} ReleaseFollowsWrite(
      run: seq<World>, steps: seq<Step>, p: nat, n: nat, tid: Tid) returns (m: nat)
    requires IsRun(run, steps, p) && n < |run| && tid in run[n].threads && run[n].threads[tid].pc == Release
    ensures m < n && steps[m] == Run(tid) && tid in run[m].threads && run[m].threads[tid].pc == Write
    ensures var rec := At(run[m].slots, run[m].threads[tid].id).rec;
            rec.Some? && run[n].threads[tid].tickets == rec.value.tickets
  {
    assert n > 0;
    InvOfRun(run, steps, p, n - 1);
    StepToRelease(run[n - 1], run[n], steps[n - 1], p, tid);
    if steps[n - 1] == Run(tid) {
      m := n - 1;
    } else {
      m := ReleaseFollowsWrite(run, steps, p, n - 1, tid);
    }
  }

  /** After the release command of a game server's update none of the tickets it detached is pending. */
  lemma UpdateReleasesDetached(run: seq<World>, steps: seq<Step>, p: nat, n: nat, tid: Tid) returns (m: nat)
    requires IsRun(run, steps, p) && n < |steps| && steps[n] == Run(tid)
    requires tid in run[n].threads && run[n].threads[tid].pc == Release
    ensures m < n && steps[m] == Run(tid) && tid in run[m].threads && run[m].threads[tid].pc == Write
    ensures var rec := At(run[m].slots, run[m].threads[tid].id).rec;
            rec.Some? && forall t :: t in rec.value.tickets ==> t !in run[n + 1].pending
  {
    m := ReleaseFollowsWrite(run, steps, p, n, tid);
    forall t | t in run[n].threads[tid].tickets ensures t !in run[n + 1].pending {
      MarkStep(run[n], run[n + 1], steps[n], p, t);
    }
  }

  // ---------------------------------------------------------------- deletion

  /** A deletion about to release has in hand the tickets attached to the record. */
  ghost predicate FreesAttached(th: Thread, slot: Slot) {
    th.op == Delete && th.pc == Free && slot.rec.Some? ==> th.got.tickets == slot.rec.value.tickets
  }

  ghost predicate AllFreeAttached(w: World) {
    forall tid :: tid in w.threads ==> FreesAttached(w.threads[tid], At(w.slots, w.threads[tid].id))
  }

  lemma ExecFreesAttached(tid: Tid, th: Thread, slot: Slot, now: int, p: nat)
    requires ThreadSound(tid, th, slot) && Enabled(th, slot)
    ensures var e := Exec(tid, th, slot, now, p); FreesAttached(e.th, e.slot)
  {
  }

  lemma ExecLeavesFreesAttached(tid: Tid, th: Thread, slot: Slot, now: int, p: nat, t: Tid, other: Thread)
    requires ThreadSound(tid, th, slot) && Enabled(th, slot) && t != tid && other.id == th.id
    requires ThreadSound(t, other, slot) && Apart(th, other) && FreesAttached(other, slot)
    ensures FreesAttached(other, Exec(tid, th, slot, now, p).slot)
  {
  }

  lemma FreesAttachedRun(w: World, w': World, tid: Tid, p: nat, t: Tid)
    requires Inv(w) && AllFreeAttached(w) && RunStep(w, w', tid, p) && t in w'.threads
    ensures FreesAttached(w'.threads[t], At(w'.slots, w'.threads[t].id))
  {
    var th, slot := w.threads[tid], At(w.slots, w.threads[tid].id);
    assert ThreadSound(tid, th, slot);
    RunFacts(tid, th, slot, w.now, p);
    if t == tid {
      ExecFreesAttached(tid, th, slot, w.now, p);
    } else {
      var other := w.threads[t];
      assert FreesAttached(other, At(w.slots, other.id));
      if other.id == th.id {
        assert ThreadSound(t, other, slot) && Apart(th, other);
        ExecLeavesFreesAttached(tid, th, slot, w.now, p, t, other);
      }
    }
  }

  lemma FreesAttachedQuiet(w: World, w': World, step: Step, p: nat, t: Tid)
    requires AllFreeAttached(w) && Next(w, w', step, p) && !step.Run? && !step.Fails? && t in w'.threads
    ensures FreesAttached(w'.threads[t], At(w'.slots, w'.threads[t].id))
  {
    if t in w.threads {
      assert FreesAttached(w.threads[t], At(w.slots, w.threads[t].id));
      QuietSlot(w, w', step, p, w.threads[t].id);
    }
  }

  lemma FreesAttachedAt(run: seq<World>, steps: seq<Step>, p: nat, n: nat)
    requires IsRun(run, steps, p) && n < |steps| && AllFreeAttached(run[n]) && !steps[n].Fails?
    ensures AllFreeAttached(run[n + 1])
  {
    InvOfRun(run, steps, p, n);
    var w, w' := run[n], run[n + 1];
    forall t | t in w'.threads ensures FreesAttached(w'.threads[t], At(w'.slots, w'.threads[t].id)) {
      if steps[n].Run? {
        FreesAttachedRun(w, w', steps[n].tid, p, t);
      } else {
        FreesAttachedQuiet(w, w', steps[n], p, t);
      }
    }
  }

  lemma {:induction false} FreesAttachedOfRun(run: seq<World>, steps: seq<Step>, p: nat, n: nat)
    requires IsRun(run, steps, p) && n < |run| && forall i :: 0 <= i < n ==> !steps[i].Fails?
    ensures AllFreeAttached(run[n])
  {
    if n == 0 {
    } else {
      FreesAttachedOfRun(run, steps, p, n - 1);
      FreesAttachedAt(run, steps, p, n - 1);
    }
  }

  /** Where no command failed, the release command of a deletion leaves no attached ticket pending. */
  lemma DeletionReleasesAttached(run: seq<World>, steps: seq<Step>, p: nat, n: nat, tid: Tid)
    requires IsRun(run, steps, p) && n < |steps| && steps[n] == Run(tid) && forall i :: 0 <= i < n ==> !steps[i].Fails?
    requires tid in run[n].threads && run[n].threads[tid].op == Delete && run[n].threads[tid].pc == Free
    ensures var rec := At(run[n].slots, run[n].threads[tid].id).rec;
            rec.Some? ==> forall t :: t in rec.value.tickets ==> t !in run[n + 1].pending
  {
    FreesAttachedOfRun(run, steps, p, n);
    assert FreesAttached(run[n].threads[tid], At(run[n].slots, run[n].threads[tid].id));
    forall t | t in run[n].threads[tid].got.tickets ensures t !in run[n + 1].pending {
      MarkStep(run[n], run[n + 1], steps[n], p, t);
    }
  }

  /** How a deletion got to its end: only a failure to deindex stops it early. */
  ghost predicate EndsDeletion(w: World, step: Step, tid: Tid, o: Outcome) {
    && tid in w.threads && w.threads[tid].op == Delete
    && (o == Ok ==> (step == Run(tid) || step == Fails(tid)) && w.threads[tid].pc in {Remove, Unstamp})
    && (o == Failed ==> step == Fails(tid) && w.threads[tid].pc == Unindex)
  }

  lemma ExecEndsDeletion(tid: Tid, th: Thread, slot: Slot, now: int, p: nat)
    requires PcOfOp(th) && th.op == Delete && Exec(tid, th, slot, now, p).th.pc.Return?
    ensures Exec(tid, th, slot, now, p).th.pc == Return(Ok) && th.pc in {Remove, Unstamp}
  {
  }

  lemma StepEndsDeletion(w: World, w': World, step: Step, p: nat, tid: Tid)
    requires Next(w, w', step, p) && tid in w'.threads && w'.threads[tid].op == Delete && w'.threads[tid].pc.Return?
    requires tid in w.threads ==> PcOfOp(w.threads[tid]) && SameRequest(w.threads[tid], w'.threads[tid])
    ensures tid in w.threads
    ensures w'.threads[tid] == w.threads[tid] || EndsDeletion(w, step, tid, w'.threads[tid].pc.o)
  {
    if step == Run(tid) {
      ExecEndsDeletion(tid, w.threads[tid], At(w.slots, w.threads[tid].id), w.now, p);
    }
  }

  /** A deletion that returns success has run its removal, whatever failed before it; one that returns an
      error after taking the lock failed to deindex. */
  lemma {:induction false} DeletionEnds(run: seq<World>, steps: seq<Step>, p: nat, n: nat, tid: Tid) returns (m: nat)
    requires IsRun(run, steps, p) && n < |run| && tid in run[n].threads
    requires run[n].threads[tid].op == Delete && run[n].threads[tid].pc.Return?
    ensures m < n && EndsDeletion(run[m], steps[m], tid, run[n].threads[tid].pc.o)
  {
    assert n > 0;
    if tid in run[n - 1].threads {
      PcOfThread(run, steps, p, n - 1, tid);
      RequestIsKept(run, steps, p, n - 1, n, tid);
    }
    StepEndsDeletion(run[n - 1], run[n], steps[n - 1], p, tid);
    if run[n].threads[tid] == run[n - 1].threads[tid] {
      m := DeletionEnds(run, steps, p, n - 1, tid);
    } else {
      m := n - 1;
    }
  }

  /** Failing to deindex a ticket does not stop an acknowledgment. */
  lemma AcknowledgmentGoesOn(run: seq<World>, steps: seq<Step>, p: nat, n: nat, tid: Tid)
    requires IsRun(run, steps, p) && n < |steps| && (steps[n] == Fails(tid) || steps[n] == Run(tid))
    requires tid in run[n].threads && run[n].threads[tid].pc == Unlist
    ensures tid in run[n + 1].threads && run[n + 1].threads[tid].pc == Recheck
  {
    assert Next(run[n], run[n + 1], steps[n], p);
  }
}
