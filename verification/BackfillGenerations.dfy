/** Generations: what they say about content, about the index, and about competing updates. */
module BackfillGenerations {
  import opened Domain
  import opened BackfillWorld

  // ---------------------------------------------------------------- content is fixed by id and generation

  /** How one id's record may change: never back to an older generation, never new content under
      an old generation, and never back from deletion. */
  ghost predicate Evolves(a: Slot, b: Slot) {
    && (a.stored ==> b.stored)
    && (a.stored && a.rec.None? ==> b.rec.None?)
    && (a.rec.Some? && b.rec.Some? ==> a.rec.value.bf.gen <= b.rec.value.bf.gen)
    && (a.rec.Some? && b.rec.Some? && a.rec.value.bf.gen == b.rec.value.bf.gen ==> a.rec.value.bf == b.rec.value.bf)
  }

  lemma EvolvesTransitive(a: Slot, b: Slot, c: Slot)
    requires Evolves(a, b) && Evolves(b, c) && (a.rec.Some? ==> a.stored)
    ensures Evolves(a, c)
  {
  }

  lemma ExecEvolves(tid: Tid, th: Thread, slot: Slot, now: int, p: nat)
    requires ThreadSound(tid, th, slot) && SlotSound(slot, now) && Enabled(th, slot)
    ensures Evolves(slot, Exec(tid, th, slot, now, p).slot)
  {
  }

  lemma StepEvolves(w: World, w': World, step: Step, p: nat, id: BackfillId)
    requires Inv(w) && Next(w, w', step, p)
    ensures Evolves(At(w.slots, id), At(w'.slots, id))
  {
    if step.Run? {
      var th := w.threads[step.tid];
      assert ThreadSound(step.tid, th, At(w.slots, th.id)) && SlotSound(At(w.slots, th.id), w.now);
      ExecEvolves(step.tid, th, At(w.slots, th.id), w.now, p);
    }
  }

  lemma EvolvesAt(run: seq<World>, steps: seq<Step>, p: nat, n: nat, id: BackfillId)
    requires IsRun(run, steps, p) && n < |steps|
    ensures Evolves(At(run[n].slots, id), At(run[n + 1].slots, id))
  {
    InvOfRun(run, steps, p, n);
    StepEvolves(run[n], run[n + 1], steps[n], p, id);
  }

  /** What is stored or indexed counts as stored. */
  lemma StoredAt(run: seq<World>, steps: seq<Step>, p: nat, n: nat, id: BackfillId)
    requires IsRun(run, steps, p) && n < |run|
    ensures At(run[n].slots, id).rec.Some? || At(run[n].slots, id).idx.Some? ==> At(run[n].slots, id).stored
  {
    InvOfRun(run, steps, p, n);
    assert SlotSound(At(run[n].slots, id), run[n].now);
  }

  /** Over every run, an id and a generation determine a stored backfill's content, generations
      never fall, and a deleted id never comes back. */
  lemma {:induction false} GenerationFixesContent(
      run: seq<World>, steps: seq<Step>, p: nat, i: nat, j: nat, id: BackfillId)
    requires IsRun(run, steps, p) && i <= j < |run|
    ensures Evolves(At(run[i].slots, id), At(run[j].slots, id))
    decreases j
  {
    if i == j {
    } else {
      GenerationFixesContent(run, steps, p, i, j - 1, id);
      EvolvesAt(run, steps, p, j - 1, id);
      StoredAt(run, steps, p, i, id);
      EvolvesTransitive(At(run[i].slots, id), At(run[j - 1].slots, id), At(run[j].slots, id));
    }
  }

  // ---------------------------------------------------------------- the index

  /** At every step of every run the indexed generation is at most the stored one. */
  lemma IndexNeverAhead(run: seq<World>, steps: seq<Step>, p: nat, n: nat, id: BackfillId)
    requires IsRun(run, steps, p) && n < |run|
    requires At(run[n].slots, id).idx.Some? && At(run[n].slots, id).rec.Some?
    ensures At(run[n].slots, id).idx.value <= At(run[n].slots, id).rec.value.bf.gen
  {
    InvOfRun(run, steps, p, n);
    assert SlotSound(At(run[n].slots, id), run[n].now);
  }

  /** The indexing command that ends a successful create or update makes the two equal; after a
      create the record can only be missing because cleanup removed it. */
  lemma IndexCatchesUp(run: seq<World>, steps: seq<Step>, p: nat, n: nat, tid: Tid)
    requires IsRun(run, steps, p) && n < |steps| && steps[n] == Run(tid)
    requires tid in run[n].threads && run[n].threads[tid].pc == Index
    ensures var slot := At(run[n + 1].slots, run[n].threads[tid].id);
            && slot.idx.Some?
            && (slot.rec.Some? ==> slot.idx.value == slot.rec.value.bf.gen)
            && (!Creating(run[n].threads[tid].op) ==> slot.rec.Some?)
  {
    InvOfRun(run, steps, p, n);
    var th := run[n].threads[tid];
    assert Next(run[n], run[n + 1], steps[n], p);
    assert ThreadSound(tid, th, At(run[n].slots, th.id));
  }

  /** A create or update that has succeeded, or is about to return success. */
  ghost predicate Succeeding(th: Thread) {
    if th.op == Create || th.op == Update then th.pc == Return(Ok) || th.pc == Done(Ok)
    else (th.op == Match || th.op == MatchCreate) && th.pc in {Return(Streamed), Stream, Done(Streamed)}
  }

  lemma ExecSucceeds(tid: Tid, th: Thread, slot: Slot, now: int, p: nat)
    requires PcOfOp(th) && !th.pc.Done? && Succeeding(Exec(tid, th, slot, now, p).th)
    ensures Succeeding(th) || th.pc == Index
  {
  }

  lemma StepSucceeds(w: World, w': World, step: Step, p: nat, tid: Tid)
    requires Next(w, w', step, p) && tid in w'.threads && Succeeding(w'.threads[tid])
    requires tid in w.threads ==> PcOfOp(w.threads[tid])
    ensures tid in w.threads && (Succeeding(w.threads[tid]) || (step == Run(tid) && w.threads[tid].pc == Index))
  {
    if step == Run(tid) {
      ExecSucceeds(tid, w.threads[tid], At(w.slots, w.threads[tid].id), w.now, p);
    }
  }

  lemma PcOfThread(run: seq<World>, steps: seq<Step>, p: nat, n: nat, tid: Tid)
    requires IsRun(run, steps, p) && n < |run| && tid in run[n].threads
    ensures PcOfOp(run[n].threads[tid])
  {
    InvOfRun(run, steps, p, n);
    assert ThreadSound(tid, run[n].threads[tid], At(run[n].slots, run[n].threads[tid].id));
  }

  /** Every create or update RPC that returns success has run its indexing command, which made the index
      entry equal to the stored generation. */
  lemma {:induction false} SuccessHasIndexed(
      run: seq<World>, steps: seq<Step>, p: nat, n: nat, tid: Tid) returns (m: nat)
    requires IsRun(run, steps, p) && n < |run| && tid in run[n].threads && Succeeding(run[n].threads[tid])
    ensures m < n && steps[m] == Run(tid) && tid in run[m].threads && run[m].threads[tid].pc == Index
    ensures var slot := At(run[m + 1].slots, run[m].threads[tid].id);
            slot.idx.Some? && (slot.rec.Some? ==> slot.idx.value == slot.rec.value.bf.gen)
  {
    assert n > 0;
    if tid in run[n - 1].threads {
      PcOfThread(run, steps, p, n - 1, tid);
    }
    StepSucceeds(run[n - 1], run[n], steps[n - 1], p, tid);
    if Succeeding(run[n - 1].threads[tid]) {
      m := SuccessHasIndexed(run, steps, p, n - 1, tid);
    } else {
      m := n - 1;
      IndexCatchesUp(run, steps, p, m, tid);
    }
  }

  /** A successful update that still holds the lock. */
  ghost predicate Returning(th: Thread) {
    (th.op == Update && th.pc == Return(Ok)) || (th.op == Match && th.pc == Return(Streamed))
  }

  ghost predicate UpToDate(slot: Slot) {
    slot.rec.Some? && slot.idx == Some(slot.rec.value.bf.gen)
  }

  ghost predicate AllUpToDate(w: World) {
    forall tid :: tid in w.threads && Returning(w.threads[tid]) ==> UpToDate(At(w.slots, w.threads[tid].id))
  }

  lemma ExecReturning(tid: Tid, th: Thread, slot: Slot, now: int, p: nat)
    requires ThreadSound(tid, th, slot) && Enabled(th, slot) && Returning(Exec(tid, th, slot, now, p).th)
    ensures UpToDate(Exec(tid, th, slot, now, p).slot)
  {
  }

  /** Nobody else changes record or entry while the lock is held. */
  lemma ExecLeavesUpToDate(tid: Tid, th: Thread, slot: Slot, now: int, p: nat, t: Tid, other: Thread)
    requires ThreadSound(tid, th, slot) && Enabled(th, slot) && t != tid && other.id == th.id
    requires ThreadSound(t, other, slot) && Apart(th, other) && Returning(other) && UpToDate(slot)
    ensures UpToDate(Exec(tid, th, slot, now, p).slot)
  {
  }

  lemma UpToDateRun(w: World, w': World, tid: Tid, p: nat, t: Tid)
    requires Inv(w) && AllUpToDate(w) && RunStep(w, w', tid, p) && t in w'.threads && Returning(w'.threads[t])
    ensures UpToDate(At(w'.slots, w'.threads[t].id))
  {
    var th, slot := w.threads[tid], At(w.slots, w.threads[tid].id);
    assert ThreadSound(tid, th, slot);
    RunFacts(tid, th, slot, w.now, p);
    if t == tid {
      ExecReturning(tid, th, slot, w.now, p);
    } else if w.threads[t].id == th.id {
      assert ThreadSound(t, w.threads[t], slot) && Apart(th, w.threads[t]);
      ExecLeavesUpToDate(tid, th, slot, w.now, p, t, w.threads[t]);
    }
  }

  lemma UpToDateStep(w: World, w': World, step: Step, p: nat)
    requires Inv(w) && AllUpToDate(w) && Next(w, w', step, p)
    ensures AllUpToDate(w')
  {
    forall t | t in w'.threads && Returning(w'.threads[t]) ensures UpToDate(At(w'.slots, w'.threads[t].id)) {
      if step.Run? {
        UpToDateRun(w, w', step.tid, p, t);
      } else {
        QuietUpToDate(w, w', step, p, t);
      }
    }
  }

  lemma QuietUpToDate(w: World, w': World, step: Step, p: nat, t: Tid)
    requires ThreadsSound(w) && AllUpToDate(w) && Next(w, w', step, p) && !step.Run? && t in w'.threads
    requires Returning(w'.threads[t])
    ensures UpToDate(At(w'.slots, w'.threads[t].id))
  {
    assert t in w.threads ==> PcOfOp(w.threads[t]) by {
      if t in w.threads {
        assert ThreadSound(t, w.threads[t], At(w.slots, w.threads[t].id));
      }
    }
    QuietReturning(w, w', step, p, t);
    QuietSlot(w, w', step, p, w.threads[t].id);
  }

  lemma QuietSlot(w: World, w': World, step: Step, p: nat, id: BackfillId)
    requires Next(w, w', step, p) && !step.Run?
    ensures At(w'.slots, id).rec == At(w.slots, id).rec && At(w'.slots, id).idx == At(w.slots, id).idx
  {
  }

  lemma QuietReturning(w: World, w': World, step: Step, p: nat, t: Tid)
    requires Next(w, w', step, p) && !step.Run? && t in w'.threads && Returning(w'.threads[t])
    requires t in w.threads ==> PcOfOp(w.threads[t])
    ensures t in w.threads && w'.threads[t] == w.threads[t]
  {
  }

  /** From then on until it releases the lock, an update's entry and record stay equal. */
  lemma EqualUntilUnlock(run: seq<World>, steps: seq<Step>, p: nat, n: nat, tid: Tid)
    requires IsRun(run, steps, p) && n < |run| && tid in run[n].threads && Returning(run[n].threads[tid])
    ensures UpToDate(At(run[n].slots, run[n].threads[tid].id))
  {
    AllUpToDateOfRun(run, steps, p, n);
  }

  lemma UpToDateAt(run: seq<World>, steps: seq<Step>, p: nat, n: nat)
    requires IsRun(run, steps, p) && n < |steps| && AllUpToDate(run[n])
    ensures AllUpToDate(run[n + 1])
  {
    InvOfRun(run, steps, p, n);
    UpToDateStep(run[n], run[n + 1], steps[n], p);
  }

  lemma {:induction false} AllUpToDateOfRun(run: seq<World>, steps: seq<Step>, p: nat, n: nat)
    requires IsRun(run, steps, p) && n < |run|
    ensures AllUpToDate(run[n])
  {
    if n == 0 {
    } else {
      AllUpToDateOfRun(run, steps, p, n - 1);
      UpToDateAt(run, steps, p, n - 1);
    }
  }

  // ---------------------------------------------------------------- competing updates

  /** Of all updates built on one generation of a backfill, from matches and game servers alike,
      at most one is ever applied. */
  lemma AtMostOneApplied(run: seq<World>, steps: seq<Step>, p: nat, n: nat, id: BackfillId, gen: int, a: Tid, b: Tid)
    requires IsRun(run, steps, p) && n < |run|
    requires Bump(gen, a) in At(run[n].slots, id).bumps && Bump(gen, b) in At(run[n].slots, id).bumps
    ensures a == b
  {
    InvOfRun(run, steps, p, n);
    var slot := At(run[n].slots, id);
    assert SlotSound(slot, run[n].now);
    var i :| 0 <= i < |slot.bumps| && slot.bumps[i] == Bump(gen, a);
    var j :| 0 <= j < |slot.bumps| && slot.bumps[j] == Bump(gen, b);
    assert !(i < j) && !(j < i);
  }

  /** Two matches proposed on one generation of one backfill. */
  ghost predicate SameProposal(x: Thread, y: Thread) {
    x.op == Match && y.op == Match && x.id == y.id && x.arg.gen == y.arg.gen
  }

  /** A streamed match was applied to the generation it was proposed on.  Of all matches proposed on
      one generation at most one is streamed to its caller, and then no game-server update was applied to that
      generation. */
  lemma AtMostOneStreamed(run: seq<World>, steps: seq<Step>, p: nat, n: nat, a: Tid, b: Tid)
    requires IsRun(run, steps, p) && n < |run| && a in run[n].threads
    requires run[n].threads[a].op == Match && run[n].threads[a].pc == Done(Streamed)
    ensures Bump(run[n].threads[a].arg.gen, a) in At(run[n].slots, run[n].threads[a].id).bumps
    ensures b in run[n].threads && b != a && SameProposal(run[n].threads[a], run[n].threads[b]) ==>
              run[n].threads[b].pc != Done(Streamed)
    ensures b != a ==> Bump(run[n].threads[a].arg.gen, b) !in At(run[n].slots, run[n].threads[a].id).bumps
  {
    InvOfRun(run, steps, p, n);
    var ta := run[n].threads[a];
    assert ThreadSound(a, ta, At(run[n].slots, ta.id));
    if b in run[n].threads && run[n].threads[b].op == Match && run[n].threads[b].id == ta.id {
      assert ThreadSound(b, run[n].threads[b], At(run[n].slots, ta.id));
    }
    if Bump(ta.arg.gen, b) in At(run[n].slots, ta.id).bumps {
      AtMostOneApplied(run, steps, p, n, ta.id, ta.arg.gen, a, b);
    }
  }

  /** A match thread keeps its request, and a finished thread stays finished. */
  lemma ThreadStep(w: World, w': World, step: Step, p: nat, tid: Tid)
    requires Inv(w) && Next(w, w', step, p) && tid in w.threads
    ensures tid in w'.threads && w'.threads[tid].id == w.threads[tid].id
    ensures w'.threads[tid].op == w.threads[tid].op && w'.threads[tid].arg == w.threads[tid].arg
    ensures w'.threads[tid].pc == w.threads[tid].pc || step == Run(tid) || step == Fails(tid)
    ensures w.threads[tid].pc.Done? ==> w'.threads[tid] == w.threads[tid]
  {
    if step == Run(tid) {
      assert ThreadSound(tid, w.threads[tid], At(w.slots, w.threads[tid].id));
      RunFacts(tid, w.threads[tid], At(w.slots, w.threads[tid].id), w.now, p);
    }
  }

  /** The moment a dropped match's tickets were put up for release. */
  ghost predicate LetGoAt(run: seq<World>, steps: seq<Step>, m: nat, tid: Tid)
    requires m < |steps| && |run| == |steps| + 1
  {
    && tid in run[m].threads && run[m].threads[tid].pc == LetGo
    && (steps[m] == Fails(tid) ||
        (steps[m] == Run(tid) && forall t :: t in run[m].threads[tid].tickets ==> t !in run[m + 1].pending))
  }

  lemma ExecDropsOnlyFromLetGo(tid: Tid, th: Thread, slot: Slot, now: int, p: nat)
    requires !th.pc.Done? && Exec(tid, th, slot, now, p).th.pc == Done(Dropped)
    ensures th.pc == LetGo && Exec(tid, th, slot, now, p).freed == th.tickets
  {
  }

  lemma DroppedOnlyFromLetGo(w: World, w': World, step: Step, p: nat, tid: Tid)
    requires Next(w, w', step, p) && tid in w'.threads && w'.threads[tid].pc == Done(Dropped)
    ensures tid in w.threads
    ensures w.threads[tid].pc == Done(Dropped) || w.threads[tid].pc == LetGo
    ensures w.threads[tid].pc == LetGo ==> step == Run(tid) || step == Fails(tid)
    ensures w.threads[tid].pc == LetGo && step == Run(tid) ==>
              forall t :: t in w.threads[tid].tickets ==> t !in w'.pending
  {
    if step == Run(tid) {
      ExecDropsOnlyFromLetGo(tid, w.threads[tid], At(w.slots, w.threads[tid].id), w.now, p);
    }
  }

  lemma DroppedNeverApplied(run: seq<World>, steps: seq<Step>, p: nat, n: nat, tid: Tid)
    requires IsRun(run, steps, p) && n < |run| && tid in run[n].threads
    requires run[n].threads[tid].op == Match && run[n].threads[tid].pc == Done(Dropped)
    ensures n > 0 && forall b :: b in At(run[n].slots, run[n].threads[tid].id).bumps ==> b.tid != tid
  {
    InvOfRun(run, steps, p, n);
    assert ThreadSound(tid, run[n].threads[tid], At(run[n].slots, run[n].threads[tid].id));
  }

  /** A match that lost the race, by generation mismatch or because its backfill is gone, was never
      applied, and its tickets were released unless that very command failed. */
  lemma {:induction false} LoserIsReleased(run: seq<World>, steps: seq<Step>, p: nat, n: nat, tid: Tid) returns (m: nat)
    requires IsRun(run, steps, p) && n < |run| && tid in run[n].threads
    requires run[n].threads[tid].op == Match && run[n].threads[tid].pc == Done(Dropped)
    ensures m < n && LetGoAt(run, steps, m, tid)
    ensures forall b :: b in At(run[n].slots, run[n].threads[tid].id).bumps ==> b.tid != tid
  {
    DroppedNeverApplied(run, steps, p, n, tid);
    InvOfRun(run, steps, p, n - 1);
    DroppedOnlyFromLetGo(run[n - 1], run[n], steps[n - 1], p, tid);
    ThreadStep(run[n - 1], run[n], steps[n - 1], p, tid);
    if run[n - 1].threads[tid].pc == LetGo {
      m := n - 1;
    } else {
      m := LoserIsReleased(run, steps, p, n - 1, tid);
    }
  }

  /** A match on its way to being dropped. */
  ghost predicate Losing(th: Thread) {
    th.op == Match && th.pc in {Return(Dropped), LetGo, Done(Dropped)}
  }

  /** The backfill the match was proposed on is gone, or has moved to another generation. */
  ghost predicate Lost(th: Thread, slot: Slot) {
    th.op == Match && th.pc == Get && (slot.rec.None? || slot.rec.value.bf.gen != th.arg.gen)
  }

  lemma ExecLoses(tid: Tid, th: Thread, slot: Slot, now: int, p: nat)
    requires PcOfOp(th) && !th.pc.Done?
    ensures Losing(Exec(tid, th, slot, now, p).th) <==> Losing(th) || Lost(th, slot)
  {
  }

  lemma LosingStep(w: World, w': World, step: Step, p: nat, tid: Tid)
    requires Next(w, w', step, p) && tid in w.threads && PcOfOp(w.threads[tid])
    ensures tid in w'.threads
    ensures Losing(w'.threads[tid]) <==>
            Losing(w.threads[tid]) || (step == Run(tid) && Lost(w.threads[tid], At(w.slots, w.threads[tid].id)))
  {
    if step == Run(tid) {
      ExecLoses(tid, w.threads[tid], At(w.slots, w.threads[tid].id), w.now, p);
    }
  }

  lemma NewIsNotLosing(w: World, w': World, step: Step, p: nat, tid: Tid)
    requires Next(w, w', step, p) && tid in w'.threads && tid !in w.threads
    ensures !Losing(w'.threads[tid])
  {
  }

  /** A match is dropped, and its tickets put up for release, exactly when at its read its backfill was
      gone or at another generation than the one it was proposed on. */
  lemma {:induction false} DroppedIffLost(run: seq<World>, steps: seq<Step>, p: nat, n: nat, tid: Tid)
    requires IsRun(run, steps, p) && n < |run| && tid in run[n].threads
    ensures Losing(run[n].threads[tid]) <==>
            exists m :: 0 <= m < n && steps[m] == Run(tid) && tid in run[m].threads
                        && Lost(run[m].threads[tid], At(run[m].slots, run[m].threads[tid].id))
  {
    if n == 0 {
    } else if tid in run[n - 1].threads {
      DroppedIffLost(run, steps, p, n - 1, tid);
      PcOfThread(run, steps, p, n - 1, tid);
      LosingStep(run[n - 1], run[n], steps[n - 1], p, tid);
    } else {
      NewIsNotLosing(run[n - 1], run[n], steps[n - 1], p, tid);
      NotBefore(run, steps, p, n - 1, tid);
    }
  }

  /** A thread that does not exist has not existed. */
  lemma {:induction false} NotBefore(run: seq<World>, steps: seq<Step>, p: nat, n: nat, tid: Tid)
    requires IsRun(run, steps, p) && n < |run| && tid !in run[n].threads
    ensures forall m :: 0 <= m <= n ==> tid !in run[m].threads
  {
    if n == 0 {
    } else {
      assert Next(run[n - 1], run[n], steps[n - 1], p);
      NotBefore(run, steps, p, n - 1, tid);
    }
  }
}
