/** Expiry: acknowledgments against the clock, and cleanup. */
module BackfillExpiry {
  import opened Domain
  import opened BackfillWorld

  /** A backfill is expired exactly when more than four fifths of p, up to rounding by less than four
      nanoseconds, have passed since its last acknowledgment. */
  lemma ExpiredAfterFourFifths(slot: Slot, now: int, p: nat)
    requires slot.ack.Some?
    ensures 5 * (now - slot.ack.value) > 4 * p ==> Expired(slot, now, p)
    ensures Expired(slot, now, p) ==> 5 * (now - slot.ack.value) > 4 * p - 20
  {
    TtlIsFourFifths(p);
  }

  // ---------------------------------------------------------------- when an expired backfill comes back

  /** An update about to be written, or an acknowledgment about to be stamped, passed its expiry check
      against the entry still stored; and an acknowledgment's entry then stays until it is done. */
  ghost predicate StampPassed(th: Thread, slot: Slot, now: int, p: nat) {
    && (th.pc == Write || (th.op == Ack && th.pc == Stamp) ==>
          slot.ack.Some? && th.checkedAt <= slot.ack.value + Ttl(p) && th.checkedAt <= now)
    && (th.op == Ack && th.pc in {Assign, Unlist, Recheck, Detach} ==> slot.ack.Some?)
  }

  ghost predicate StampsPassed(w: World, p: nat) {
    forall tid :: tid in w.threads ==> StampPassed(w.threads[tid], At(w.slots, w.threads[tid].id), w.now, p)
  }

  lemma QuietKeepsStampPassed(tid: Tid, th: Thread, slot: Slot, now: int, p: nat)
    requires ThreadSound(tid, th, slot) && IsQuiet(th.pc) && StampPassed(th, slot, now, p)
    ensures var e := ExecQuiet(tid, th, slot, now, p); StampPassed(e.th, e.slot, now, p)
  {
  }

  lemma WriteKeepsStampPassed(tid: Tid, th: Thread, slot: Slot, now: int, p: nat)
    requires ThreadSound(tid, th, slot) && !IsQuiet(th.pc) && !th.pc.Done? && StampPassed(th, slot, now, p)
    ensures var e := ExecWrite(tid, th, slot, now); StampPassed(e.th, e.slot, now, p)
  {
  }

  lemma ExecKeepsStampPassed(tid: Tid, th: Thread, slot: Slot, now: int, p: nat)
    requires ThreadSound(tid, th, slot) && Enabled(th, slot) && StampPassed(th, slot, now, p)
    ensures var e := Exec(tid, th, slot, now, p); StampPassed(e.th, e.slot, now, p)
  {
    if IsQuiet(th.pc) {
      QuietKeepsStampPassed(tid, th, slot, now, p);
    } else {
      WriteKeepsStampPassed(tid, th, slot, now, p);
    }
  }

  lemma ExecKeepsOtherStampPassed(tid: Tid, th: Thread, slot: Slot, now: int, p: nat, t: Tid, other: Thread)
    requires ThreadSound(tid, th, slot) && Enabled(th, slot)
    requires t != tid && other.id == th.id && ThreadSound(t, other, slot) && Apart(th, other)
    requires StampPassed(other, slot, now, p)
    ensures StampPassed(other, Exec(tid, th, slot, now, p).slot, now, p)
  {
  }

  lemma StampsPassedRun(w: World, w': World, tid: Tid, p: nat)
    requires Inv(w) && StampsPassed(w, p) && RunStep(w, w', tid, p)
    ensures StampsPassed(w', p)
  {
    var th := w.threads[tid];
    var slot := At(w.slots, th.id);
    assert ThreadSound(tid, th, slot) && SlotSound(slot, w.now);
    ExecKeepsStampPassed(tid, th, slot, w.now, p);
    RunFacts(tid, th, slot, w.now, p);
    forall t | t in w'.threads ensures StampPassed(w'.threads[t], At(w'.slots, w'.threads[t].id), w'.now, p) {
      if t != tid {
        var other := w.threads[t];
        assert ThreadSound(t, other, At(w.slots, other.id)) && Apart(th, other);
        assert StampPassed(other, At(w.slots, other.id), w.now, p);
        if other.id == th.id {
          ExecKeepsOtherStampPassed(tid, th, slot, w.now, p, t, other);
        }
      }
    }
  }

  lemma StampPassedQuietly(w: World, w': World, step: Step, p: nat, t: Tid)
    requires StampsPassed(w, p) && Next(w, w', step, p) && !step.Run? && t in w'.threads
    ensures StampPassed(w'.threads[t], At(w'.slots, w'.threads[t].id), w'.now, p)
  {
    if t in w.threads {
      assert StampPassed(w.threads[t], At(w.slots, w.threads[t].id), w.now, p);
    }
  }

  lemma StampsPassedStep(w: World, w': World, step: Step, p: nat)
    requires Inv(w) && StampsPassed(w, p) && Next(w, w', step, p)
    ensures StampsPassed(w', p)
  {
    if step.Run? {
      StampsPassedRun(w, w', step.tid, p);
    } else {
      forall t | t in w'.threads ensures StampPassed(w'.threads[t], At(w'.slots, w'.threads[t].id), w'.now, p) {
        StampPassedQuietly(w, w', step, p, t);
      }
    }
  }

  lemma StampsPassedAt(run: seq<World>, steps: seq<Step>, p: nat, n: nat)
    requires IsRun(run, steps, p) && n < |steps| && StampsPassed(run[n], p)
    ensures StampsPassed(run[n + 1], p)
  {
    InvOfRun(run, steps, p, n);
    StampsPassedStep(run[n], run[n + 1], steps[n], p);
  }

  lemma {:induction false} StampsPassedOfRun(run: seq<World>, steps: seq<Step>, p: nat, n: nat)
    requires IsRun(run, steps, p) && n < |run|
    ensures StampsPassed(run[n], p)
  {
    if n == 0 {
    } else {
      StampsPassedOfRun(run, steps, p, n - 1);
      StampsPassedAt(run, steps, p, n - 1);
    }
  }

  /** The step turns an expired backfill back into an unexpired one. */
  ghost predicate Revives(w: World, w': World, id: BackfillId, p: nat) {
    && Expired(At(w.slots, id), w.now, p)
    && At(w'.slots, id).ack.Some? && !Expired(At(w'.slots, id), w'.now, p)
  }

  /** An acknowledgment that checked expiry before the deadline and stamps after it. */
  ghost predicate Straddles(w: World, step: Step, id: BackfillId, p: nat) {
    && step.Run? && step.tid in w.threads
    && var th := w.threads[step.tid];
       var slot := At(w.slots, id);
       && th.id == id && th.op == Ack && th.pc == Stamp
       && slot.ack.Some? && th.checkedAt <= slot.ack.value + Ttl(p) < w.now
  }

  /** Acknowledged once, and now either expired or without an entry. */
  ghost predicate Lapsed(slot: Slot, now: int, p: nat) {
    slot.stamped && (slot.ack.Some? ==> Expired(slot, now, p))
  }

  lemma ExecAck(tid: Tid, th: Thread, slot: Slot, now: int, p: nat)
    requires ThreadSound(tid, th, slot) && Enabled(th, slot) && slot.stamped && StampPassed(th, slot, now, p)
    ensures var e := Exec(tid, th, slot, now, p);
            && e.slot.stamped
            && (!(th.op == Ack && th.pc == Stamp) && e.slot.ack.Some? ==> e.slot.ack == slot.ack)
            && (th.op == Ack && th.pc == Stamp ==> slot.ack.Some? && e.slot.ack == Some(now))
  {
  }

  /** What one step does to a lapsed backfill. */
  lemma LapsedStep(w: World, w': World, step: Step, p: nat, id: BackfillId)
    requires Inv(w) && StampsPassed(w, p) && Next(w, w', step, p) && Lapsed(At(w.slots, id), w.now, p)
    ensures Lapsed(At(w'.slots, id), w'.now, p) <==> !Straddles(w, step, id, p)
  {
    if step.Run? && w.threads[step.tid].id == id {
      var th := w.threads[step.tid];
      assert ThreadSound(step.tid, th, At(w.slots, id)) && StampPassed(th, At(w.slots, id), w.now, p);
      ExecAck(step.tid, th, At(w.slots, id), w.now, p);
    }
  }

  lemma ExpiredIsLapsed(w: World, id: BackfillId, p: nat)
    requires Inv(w) && Expired(At(w.slots, id), w.now, p)
    ensures Lapsed(At(w.slots, id), w.now, p)
  {
    assert SlotSound(At(w.slots, id), w.now);
  }

  /** Expiry is undone exactly by an acknowledgment whose check and stamp lie on either side of the
      deadline, which is possible because they are two store commands. */
  lemma RevivedIffStraddled(run: seq<World>, steps: seq<Step>, p: nat, n: nat, id: BackfillId)
    requires IsRun(run, steps, p) && n < |steps|
    ensures Revives(run[n], run[n + 1], id, p) <==> Straddles(run[n], steps[n], id, p)
  {
    InvOfRun(run, steps, p, n);
    StampsPassedOfRun(run, steps, p, n);
    InvOfRun(run, steps, p, n + 1);
    assert SlotSound(At(run[n + 1].slots, id), run[n + 1].now);
    if Expired(At(run[n].slots, id), run[n].now, p) {
      ExpiredIsLapsed(run[n], id, p);
      LapsedStep(run[n], run[n + 1], steps[n], p, id);
      StampedStays(run[n], run[n + 1], steps[n], p, id);
    }
  }

  lemma StampedStays(w: World, w': World, step: Step, p: nat, id: BackfillId)
    requires Inv(w) && Next(w, w', step, p) && At(w.slots, id).stamped
    ensures At(w'.slots, id).stamped
  {
    if step.Run? && w.threads[step.tid].id == id {
      assert ThreadSound(step.tid, w.threads[step.tid], At(w.slots, id));
      RunFacts(step.tid, w.threads[step.tid], At(w.slots, id), w.now, p);
    }
  }

  lemma LapsedAt(run: seq<World>, steps: seq<Step>, p: nat, n: nat, id: BackfillId)
    requires IsRun(run, steps, p) && n < |steps|
    requires Lapsed(At(run[n].slots, id), run[n].now, p) && !Straddles(run[n], steps[n], id, p)
    ensures Lapsed(At(run[n + 1].slots, id), run[n + 1].now, p)
  {
    InvOfRun(run, steps, p, n);
    StampsPassedOfRun(run, steps, p, n);
    LapsedStep(run[n], run[n + 1], steps[n], p, id);
  }

  lemma {:induction false} LapsedThroughout(run: seq<World>, steps: seq<Step>, p: nat, i: nat, j: nat, id: BackfillId)
    requires IsRun(run, steps, p) && i <= j < |run| && Lapsed(At(run[i].slots, id), run[i].now, p)
    requires forall k {:trigger Straddles(run[k], steps[k], id, p)} ::
               i <= k < j ==> !Straddles(run[k], steps[k], id, p)
    ensures Lapsed(At(run[j].slots, id), run[j].now, p)
    decreases j
  {
    if i == j {
    } else {
      LapsedThroughout(run, steps, p, i, j - 1, id);
      LapsedAt(run, steps, p, j - 1, id);
    }
  }

  /** Without such an acknowledgment expiry is absorbing. */
  lemma ExpiryIsAbsorbing(run: seq<World>, steps: seq<Step>, p: nat, i: nat, j: nat, id: BackfillId)
    requires IsRun(run, steps, p) && i <= j < |run|
    requires Expired(At(run[i].slots, id), run[i].now, p)
    requires forall k {:trigger Straddles(run[k], steps[k], id, p)} ::
               i <= k < j ==> !Straddles(run[k], steps[k], id, p)
    ensures At(run[j].slots, id).ack.Some? ==> Expired(At(run[j].slots, id), run[j].now, p)
  {
    InvOfRun(run, steps, p, i);
    ExpiredIsLapsed(run[i], id, p);
    LapsedThroughout(run, steps, p, i, j, id);
  }

  // ---------------------------------------------------------------- cleanup

  /** The step stamps an acknowledgment of the id. */
  ghost predicate StampsAck(w: World, step: Step, id: BackfillId) {
    && step.Run? && step.tid in w.threads
    && w.threads[step.tid].id == id && w.threads[step.tid].op == Ack && w.threads[step.tid].pc == Stamp
  }

  /** When an acknowledgment of the id was last stamped, among the steps from i up to j. */
  ghost function LastStamp(run: seq<World>, steps: seq<Step>, id: BackfillId, i: nat, j: nat): Option<int>
    requires |run| == |steps| + 1 && j <= |steps|
  {
    if j <= i then None
    else if StampsAck(run[j - 1], steps[j - 1], id) then Some(run[j - 1].now)
    else LastStamp(run, steps, id, i, j - 1)
  }

  lemma {:induction false} LastStampNone(run: seq<World>, steps: seq<Step>, id: BackfillId, i: nat, j: nat)
    requires |run| == |steps| + 1 && j <= |steps|
    ensures LastStamp(run, steps, id, i, j).None? <==> forall k :: i <= k < j ==> !StampsAck(run[k], steps[k], id)
  {
    if i < j {
      LastStampNone(run, steps, id, i, j - 1);
    }
  }

  /** Once stamped, an entry changes only by an acknowledgment's stamp, to the time of that stamp, or goes. */
  lemma AckStep(w: World, w': World, step: Step, p: nat, id: BackfillId)
    requires Inv(w) && StampsPassed(w, p) && Next(w, w', step, p) && At(w.slots, id).stamped
    ensures At(w'.slots, id).stamped && w.now <= w'.now
    ensures At(w'.slots, id).ack.Some? ==>
              && At(w.slots, id).ack.Some?
              && At(w'.slots, id).ack == if StampsAck(w, step, id) then Some(w.now) else At(w.slots, id).ack
  {
    if step.Run? && w.threads[step.tid].id == id {
      var th := w.threads[step.tid];
      assert ThreadSound(step.tid, th, At(w.slots, id)) && StampPassed(th, At(w.slots, id), w.now, p);
      ExecAck(step.tid, th, At(w.slots, id), w.now, p);
      ExecGone(step.tid, th, At(w.slots, id), w.now, p);
    }
  }

  /** No command brings back an entry that is gone. */
  lemma ExecGone(tid: Tid, th: Thread, slot: Slot, now: int, p: nat)
    requires ThreadSound(tid, th, slot) && Enabled(th, slot) && slot.stamped && StampPassed(th, slot, now, p)
    ensures slot.ack.None? ==> Exec(tid, th, slot, now, p).slot.ack.None?
  {
  }

  lemma AckStepAt(run: seq<World>, steps: seq<Step>, p: nat, n: nat, id: BackfillId)
    requires IsRun(run, steps, p) && n < |steps| && At(run[n].slots, id).stamped
    ensures At(run[n + 1].slots, id).stamped && run[n].now <= run[n + 1].now
    ensures At(run[n + 1].slots, id).ack.Some? ==>
              var ack := At(run[n].slots, id).ack;
              && ack.Some?
              && At(run[n + 1].slots, id).ack == if StampsAck(run[n], steps[n], id) then Some(run[n].now) else ack
  {
    InvOfRun(run, steps, p, n);
    StampsPassedOfRun(run, steps, p, n);
    AckStep(run[n], run[n + 1], steps[n], p, id);
  }

  /** A later entry is the last stamp since, or the old entry if there was none. */
  lemma {:induction false} AckSince(run: seq<World>, steps: seq<Step>, p: nat, i: nat, j: nat, id: BackfillId)
    requires IsRun(run, steps, p) && i <= j < |run| && At(run[i].slots, id).stamped
    ensures At(run[j].slots, id).stamped && run[i].now <= run[j].now
    ensures At(run[j].slots, id).ack.Some? ==>
              var s := LastStamp(run, steps, id, i, j);
              && At(run[i].slots, id).ack.Some?
              && At(run[j].slots, id).ack == if s.Some? then s else At(run[i].slots, id).ack
    decreases j
  {
    if i == j {
    } else {
      AckSince(run, steps, p, i, j - 1, id);
      AckStepAt(run, steps, p, j - 1, id);
    }
  }

  lemma ListedIsStamped(run: seq<World>, steps: seq<Step>, p: nat, i: nat, id: BackfillId)
    requires IsRun(run, steps, p) && i < |steps| && steps[i] == ListExpired && id in run[i + 1].cleanup
    ensures At(run[i].slots, id).stamped && At(run[i].slots, id).ack.Some?
    ensures At(run[i].slots, id).ack.value <= run[i].now - Ttl(p)
  {
    assert Next(run[i], run[i + 1], steps[i], p);
    InvOfRun(run, steps, p, i);
    assert SlotSound(At(run[i].slots, id), run[i].now);
  }

  /** Exactly when a listed backfill that still has its entry is not expired: an acknowledgment was
      stamped since the listing and its own deadline has not passed; or there was none, the entry lay
      on the very boundary of the listing, and the clock has not moved since. */
  lemma ListedIsUnexpiredIff(run: seq<World>, steps: seq<Step>, p: nat, i: nat, j: nat, id: BackfillId)
    requires IsRun(run, steps, p) && i < j < |run| && steps[i] == ListExpired && id in run[i + 1].cleanup
    requires At(run[j].slots, id).ack.Some?
    ensures !Expired(At(run[j].slots, id), run[j].now, p) <==>
            var s := LastStamp(run, steps, id, i, j);
            if s.Some? then run[j].now <= s.value + Ttl(p)
            else run[j].now == run[i].now && At(run[i].slots, id).ack == Some(run[i].now - Ttl(p))
  {
    ListedIsStamped(run, steps, p, i, id);
    AckSince(run, steps, p, i, j, id);
  }

  /** If the clock has moved since the listing and no acknowledgment was stamped before it did, then,
      unless one straddles the deadline after that, a listed backfill is expired or has lost its entry
      whenever its record is deleted. */
  lemma CleanupDeletesOnlyExpired(run: seq<World>, steps: seq<Step>, p: nat, i: nat, m: nat, j: nat, id: BackfillId)
    requires IsRun(run, steps, p) && i < m <= j < |run| && steps[i] == ListExpired && id in run[i + 1].cleanup
    requires run[i].now < run[m].now && forall k :: i <= k < m ==> !StampsAck(run[k], steps[k], id)
    requires forall k {:trigger Straddles(run[k], steps[k], id, p)} ::
               m <= k < j ==> !Straddles(run[k], steps[k], id, p)
    ensures At(run[j].slots, id).ack.Some? ==> Expired(At(run[j].slots, id), run[j].now, p)
  {
    ListedIsStamped(run, steps, p, i, id);
    LastStampNone(run, steps, id, i, m);
    AckSince(run, steps, p, i, m, id);
    LapsedThroughout(run, steps, p, m, j, id);
  }

  lemma {:induction false} TakenIsGone(run: seq<World>, steps: seq<Step>, p: nat, i: nat, j: nat, id: BackfillId)
    requires IsRun(run, steps, p) && i <= j < |run| && id !in run[i].cleanup
    requires forall k :: i <= k < j ==> !steps[k].ListExpired?
    ensures id !in run[j].cleanup
    decreases j
  {
    if i == j {
    } else {
      TakenIsGone(run, steps, p, i, j - 1, id);
      assert Next(run[j - 1], run[j], steps[j - 1], p);
    }
  }

  /** Between two listings a listed id is taken up by at most one worker. */
  lemma TakenAtMostOnce(run: seq<World>, steps: seq<Step>, p: nat, i: nat, j: nat)
    requires IsRun(run, steps, p) && i < j < |steps|
    requires steps[i].BeginCleanup? && steps[j].BeginCleanup? && steps[i].th.id == steps[j].th.id
    ensures exists k :: i < k < j && steps[k].ListExpired?
  {
    assert Next(run[i], run[i + 1], steps[i], p) && Next(run[j], run[j + 1], steps[j], p);
    if forall k :: i + 1 <= k < j ==> !steps[k].ListExpired? {
      TakenIsGone(run, steps, p, i + 1, j, steps[i].th.id);
    }
  }

  /** A listed id that is no longer waiting was taken up by a worker; a new listing waits until all are. */
  lemma {:induction false} ListedIsTaken(
      run: seq<World>, steps: seq<Step>, p: nat, i: nat, j: nat, id: BackfillId) returns (k: nat)
    requires IsRun(run, steps, p) && i <= j < |run| && id in run[i].cleanup
    requires id !in run[j].cleanup || (j < |steps| && steps[j].ListExpired?)
    ensures i <= k < j && steps[k].BeginCleanup? && steps[k].th.id == id
    decreases j
  {
    if j < |steps| {
      assert Next(run[j], run[j + 1], steps[j], p);
    }
    assert i < j;
    assert Next(run[j - 1], run[j], steps[j - 1], p);
    if id !in run[j - 1].cleanup || steps[j - 1].ListExpired? {
      k := ListedIsTaken(run, steps, p, i, j - 1, id);
    } else {
      k := j - 1;
    }
  }

  /** An update is written only to a backfill that was not expired when it was checked, by the entry it
      still has. */
  lemma WrittenOnlyIfUnexpired(run: seq<World>, steps: seq<Step>, p: nat, n: nat, tid: Tid)
    requires IsRun(run, steps, p) && n < |run| && tid in run[n].threads && run[n].threads[tid].pc == Write
    ensures var th, slot := run[n].threads[tid], At(run[n].slots, run[n].threads[tid].id);
            slot.ack.Some? && th.checkedAt <= run[n].now && !Expired(slot, th.checkedAt, p)
  {
    StampsPassedOfRun(run, steps, p, n);
    assert StampPassed(run[n].threads[tid], At(run[n].slots, run[n].threads[tid].id), run[n].now, p);
  }

  /** A listing misses no expired backfill. */
  lemma EveryExpiredIsListed(run: seq<World>, steps: seq<Step>, p: nat, n: nat, id: BackfillId)
    requires IsRun(run, steps, p) && n < |steps| && steps[n] == ListExpired
    requires Expired(At(run[n].slots, id), run[n].now, p) && At(run[n].slots, id).ack.value >= 0
    ensures id in run[n + 1].cleanup
  {
    assert Next(run[n], run[n + 1], steps[n], p);
  }

  /** Every expiry check, of an update, of an acknowledgment and at its end once more, refuses exactly the
      backfills that are expired or have no entry. */
  lemma RefusedIffExpired(run: seq<World>, steps: seq<Step>, p: nat, n: nat, tid: Tid)
    requires IsRun(run, steps, p) && n < |steps| && steps[n] == Run(tid) && tid in run[n].threads
    requires run[n].threads[tid].pc == Check || run[n].threads[tid].pc == Recheck
    ensures var th, slot := run[n].threads[tid], At(run[n].slots, run[n].threads[tid].id);
            && tid in run[n + 1].threads && At(run[n + 1].slots, th.id) == slot
            && (run[n + 1].threads[tid].pc == Return(Failed) <==> slot.ack.None? || Expired(slot, run[n].now, p))
  {
    assert Next(run[n], run[n + 1], steps[n], p);
  }
}
