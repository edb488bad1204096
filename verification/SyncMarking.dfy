/** Which tickets a synchronizer cycle has marked pending: per ticket, and per routed match. */
module SyncMarking {
  import opened Domain
  import E = DefaultEvaluator
  import opened SyncPipeline

  // ---------------------------------------------------------------- one ticket

  /** Step k is the return of a store call for the ticket; ok tells whether it succeeded. */
  ghost predicate ReturnsFor(run: seq<Pipe>, steps: seq<Step>, k: nat, ok: bool, t: TicketId) {
    && k < |steps| && k < |run| && steps[k] == OfBack(StoreReturns(ok))
    && run[k].b.hand.Calling? && t in run[k].b.hand.ids
  }

  lemma MarkedStep(s: Pipe, s': Pipe, step: Step)
    requires Next(s, s', step)
    ensures if step == OfBack(StoreReturns(true)) then s.b.hand.Calling? && s'.b.marked == s.b.marked + s.b.hand.ids
            else s'.b.marked == s.b.marked
  {
  }

  /** A ticket is marked exactly when some store call for it has succeeded, whatever other calls failed. */
  lemma {:induction false} MarkedIffCallSucceeded(run: seq<Pipe>, steps: seq<Step>, n: nat, t: TicketId)
    requires IsRun(run, steps) && n < |run|
    ensures t in run[n].b.marked <==> exists k: nat :: k < n && ReturnsFor(run, steps, k, true, t)
  {
    if n == 0 {
    } else {
      MarkedIffCallSucceeded(run, steps, n - 1, t);
      MarkedStep(run[n - 1], run[n], steps[n - 1]);
      assert t in run[n].b.marked <==> t in run[n - 1].b.marked || ReturnsFor(run, steps, n - 1, true, t);
    }
  }

  // ---------------------------------------------------------------- the store call of one id

  /** How many of the accepted ids are past their store call. */
  ghost function Returned(b: Back): nat {
    |b.m7| + |b.m6| + if b.hand.Forwarding? then |b.hand.rest| else 0
  }

  /** Step k is the return of the store call for the batch that holds the id. */
  ghost predicate OwnCall(run: seq<Pipe>, steps: seq<Step>, k: nat, ok: bool, id: MatchId) {
    && k < |steps| && k < |run| && steps[k] == OfBack(StoreReturns(ok))
    && run[k].b.hand.Calling? && id in run[k].b.hand.batch
  }

  /** Whether the step is the return of a store call. */
  ghost predicate IsReturn(step: Step) {
    step.OfBack? && step.bs.StoreReturns?
  }

  lemma ReturnedBackStep(s: Pipe, s': Pipe, step: BackStep)
    requires BackNext(s, s', step) && s'.b.lostRoutes == 0
    ensures s'.c == s.c && s'.f == s.f
    ensures step.StoreReturns? ==> s.b.hand.Calling? && Returned(s'.b) == Returned(s.b) + |s.b.hand.batch|
    ensures !step.StoreReturns? ==> Returned(s'.b) == Returned(s.b)
  {
  }

  lemma ReturnedStep(s: Pipe, s': Pipe, step: Step)
    requires Next(s, s', step) && s'.b.lostRoutes == 0
    ensures s.c.accepted <= s'.c.accepted && s.f.log <= s'.f.log
    ensures IsReturn(step) ==> s.b.hand.Calling? && Returned(s'.b) == Returned(s.b) + |s.b.hand.batch|
    ensures !IsReturn(step) ==> Returned(s'.b) == Returned(s.b)
  {
    if step.OfBack? {
      ReturnedBackStep(s, s', step.bs);
    }
  }

  lemma ReturnedAt(run: seq<Pipe>, steps: seq<Step>, n: nat)
    requires IsRun(run, steps) && n < |steps|
    ensures run[n].c.accepted <= run[n + 1].c.accepted && run[n].f.log <= run[n + 1].f.log
    ensures IsReturn(steps[n]) ==>
              run[n].b.hand.Calling? && Returned(run[n + 1].b) == Returned(run[n].b) + |run[n].b.hand.batch|
    ensures !IsReturn(steps[n]) ==> Returned(run[n + 1].b) == Returned(run[n].b)
  {
    UnknownIdBranchesUnreachable(run, steps, n + 1);
    ReturnedStep(run[n], run[n + 1], steps[n]);
  }

  lemma {:induction false} ReturnedGrows(run: seq<Pipe>, steps: seq<Step>, k: nat, n: nat)
    requires IsRun(run, steps) && k <= n < |run|
    ensures Returned(run[k].b) <= Returned(run[n].b)
    ensures run[k].c.accepted <= run[n].c.accepted && run[k].f.log <= run[n].f.log
    decreases n
  {
    if k == n {
    } else {
      ReturnedGrows(run, steps, k, n - 1);
      ReturnedAt(run, steps, n - 1);
    }
  }

  /** A batch in its store call is the next run of the accepted ids. */
  lemma BatchIsNext(s: Pipe, i: nat)
    requires Inv(s) && s.b.hand.Calling? && i < |s.b.hand.batch|
    ensures Returned(s.b) + i < |s.c.accepted| && s.c.accepted[Returned(s.b) + i] == s.b.hand.batch[i]
  {
    var before := RoutedIds(s.b.m7) + s.b.m6;
    assert s.c.accepted == before + s.b.hand.batch + s.b.m5;
    assert |before| == Returned(s.b);
  }

  /** An accepted id past its store call had one. */
  lemma {:induction false} HadItsCall(run: seq<Pipe>, steps: seq<Step>, n: nat, q: nat) returns (k: nat, ok: bool)
    requires IsRun(run, steps) && n < |run| && q < Returned(run[n].b)
    ensures k < n && q < |run[n].c.accepted| && OwnCall(run, steps, k, ok, run[n].c.accepted[q])
  {
    assert n > 0;
    ReturnedAt(run, steps, n - 1);
    if q < Returned(run[n - 1].b) {
      k, ok := HadItsCall(run, steps, n - 1, q);
    } else {
      k, ok := n - 1, steps[n - 1].bs.ok;
      InvOfRun(run, steps, k);
      BatchIsNext(run[k], q - Returned(run[k].b));
    }
  }

  /** Where a batch sits among the accepted ids at any later time. */
  lemma OwnCallPosition(run: seq<Pipe>, steps: seq<Step>, k: nat, ok: bool, id: MatchId, n: nat) returns (q: nat)
    requires IsRun(run, steps) && k < n < |run| && OwnCall(run, steps, k, ok, id)
    ensures Returned(run[k].b) <= q < Returned(run[k + 1].b) && q < |run[n].c.accepted| && run[n].c.accepted[q] == id
  {
    InvOfRun(run, steps, k);
    var i :| 0 <= i < |run[k].b.hand.batch| && run[k].b.hand.batch[i] == id;
    BatchIsNext(run[k], i);
    ReturnedAt(run, steps, k);
    ReturnedGrows(run, steps, k, n);
    q := Returned(run[k].b) + i;
  }

  /** And only one. */
  lemma OneCallEach(run: seq<Pipe>, steps: seq<Step>, n: nat, k: nat, ok: bool, k': nat, ok': bool, id: MatchId)
    requires IsRun(run, steps) && k < n < |run| && k' < n
    requires OwnCall(run, steps, k, ok, id) && OwnCall(run, steps, k', ok', id)
    ensures k == k' && ok == ok'
  {
    InvOfRun(run, steps, n);
    var q := OwnCallPosition(run, steps, k, ok, id, n);
    var q' := OwnCallPosition(run, steps, k', ok', id, n);
    assert q == q';
    if k < k' {
      ReturnedGrows(run, steps, k + 1, k');
    } else if k' < k {
      ReturnedGrows(run, steps, k' + 1, k);
    }
  }

  // ---------------------------------------------------------------- whose tickets a call is for

  /** The ticket belongs to a proposal whose id is in the batch. */
  ghost predicate Sourced(log: seq<Sent>, batch: seq<MatchId>, t: TicketId) {
    exists i :: 0 <= i < |log| && log[i].m.id in batch && t in log[i].m.tickets
  }

  ghost predicate HandSourced(s: Pipe) {
    s.b.hand.Calling? ==> forall t :: t in s.b.hand.ids ==> Sourced(s.f.log, s.b.hand.batch, t)
  }

  lemma SourcedStays(log: seq<Sent>, log': seq<Sent>, batch: seq<MatchId>, t: TicketId)
    requires Sourced(log, batch, t) && log <= log'
    ensures Sourced(log', batch, t)
  {
    var i :| 0 <= i < |log| && log[i].m.id in batch && t in log[i].m.tickets;
    assert log'[i] == log[i];
  }

  lemma BatchSourced(f: Front, batch: seq<MatchId>, t: TicketId)
    requires Traced(f) && t in BatchTickets(f.tix, batch)
    ensures Sourced(f.log, batch, t)
  {
    var id :| id in batch && id in f.tix && t in f.tix[id];
    assert ProposedWith(f.log, id, f.tix[id]);
    var i :| 0 <= i < |f.log| && f.log[i].m.id == id && f.log[i].m.tickets == f.tix[id];
    assert f.log[i].m.id in batch;
  }

  lemma {:induction false} HandSourcedOfRun(run: seq<Pipe>, steps: seq<Step>, n: nat)
    requires IsRun(run, steps) && n < |run|
    ensures HandSourced(run[n])
  {
    if n == 0 {
    } else {
      HandSourcedOfRun(run, steps, n - 1);
      var s, s' := run[n - 1], run[n];
      InvOfRun(run, steps, n - 1);
      ReturnedAt(run, steps, n - 1);
      assert Next(s, s', steps[n - 1]);
      if s'.b.hand.Calling? {
        forall t | t in s'.b.hand.ids ensures Sourced(s'.f.log, s'.b.hand.batch, t) {
          if s.b.hand == s'.b.hand {
            SourcedStays(s.f.log, s'.f.log, s.b.hand.batch, t);
          } else {
            BatchSourced(s.f, s'.b.hand.batch, t);
          }
        }
      }
    }
  }

  // ---------------------------------------------------------------- main result

  /** No two accepted matches share a ticket, as an evaluator that resolves collisions ensures. */
  ghost predicate AcceptedApart(log: seq<Sent>, accepted: seq<MatchId>) {
    forall i, j :: 0 <= i < |log| && 0 <= j < |log| && log[i].m.id in accepted && log[j].m.id in accepted ==>
      log[i].m.id == log[j].m.id || forall t :: t in log[i].m.tickets ==> t !in log[j].m.tickets
  }

  /** The call for the batch of an id is a call for all the tickets of the match with that id. */
  lemma OwnCallCovers(run: seq<Pipe>, steps: seq<Step>, n: nat, k: nat, ok: bool, i: nat, t: TicketId)
    requires IsRun(run, steps) && k < n < |run| && i < |run[n].f.log| && DistinctIds(run[n].f.log)
    requires OwnCall(run, steps, k, ok, run[n].f.log[i].m.id) && t in run[n].f.log[i].m.tickets
    ensures ReturnsFor(run, steps, k, ok, t)
  {
    InvOfRun(run, steps, k);
    ReturnedGrows(run, steps, k, n);
    var f, id := run[k].f, run[n].f.log[i].m.id;
    assert Covers(run[k].b.hand.ids, f.tix, id);
    assert ProposedWith(f.log, id, f.tix[id]);
    var j :| 0 <= j < |f.log| && f.log[j].m.id == id && f.log[j].m.tickets == f.tix[id];
    assert run[n].f.log[j] == f.log[j];
    assert i == j;
  }

  /** A call for a ticket of an accepted match is the call for that match's batch. */
  lemma CallIsOwn(run: seq<Pipe>, steps: seq<Step>, n: nat, k: nat, ok: bool, i: nat, t: TicketId)
    requires IsRun(run, steps) && k < n < |run| && i < |run[n].f.log|
    requires AcceptedApart(run[n].f.log, run[n].c.accepted) && run[n].f.log[i].m.id in run[n].c.accepted
    requires ReturnsFor(run, steps, k, ok, t) && t in run[n].f.log[i].m.tickets
    ensures OwnCall(run, steps, k, ok, run[n].f.log[i].m.id)
  {
    HandSourcedOfRun(run, steps, k);
    ReturnedGrows(run, steps, k, n);
    var f := run[k].f;
    var j :| 0 <= j < |f.log| && f.log[j].m.id in run[k].b.hand.batch && t in f.log[j].m.tickets;
    assert run[n].f.log[j] == f.log[j];
    var q := OwnCallPosition(run, steps, k, ok, f.log[j].m.id, n);
  }

  /**
   * A routed match went through exactly one store call, and its tickets are marked exactly when that
   * call succeeded, whatever happened to other batches.
   */
  lemma RoutedIsMarkedIffOwnCallSucceeded(run: seq<Pipe>, steps: seq<Step>, n: nat, q: nat, i: nat)
    returns (k: nat, ok: bool)
    requires IsRun(run, steps) && n < |run| && q < |run[n].b.m7|
    requires DistinctIds(run[n].f.log) && AcceptedApart(run[n].f.log, run[n].c.accepted)
    requires i < |run[n].f.log| && run[n].f.log[i].m.id == run[n].b.m7[q].id
    ensures k < n && OwnCall(run, steps, k, ok, run[n].b.m7[q].id)
    ensures forall k': nat, ok' :: k' < n && OwnCall(run, steps, k', ok', run[n].b.m7[q].id) ==> k' == k && ok' == ok
    ensures forall t :: t in run[n].f.log[i].m.tickets ==> (t in run[n].b.marked <==> ok)
  {
    var id := run[n].b.m7[q].id;
    RoutedIsAccepted(run, steps, n, q);
    k, ok := HadItsCall(run, steps, n, q);
    forall k': nat, ok' | k' < n && OwnCall(run, steps, k', ok', id)
      ensures k' == k && ok' == ok
    {
      OneCallEach(run, steps, n, k, ok, k', ok', id);
    }
    forall t | t in run[n].f.log[i].m.tickets
      ensures t in run[n].b.marked <==> ok
    {
      MarkedIffCallSucceeded(run, steps, n, t);
      OwnCallCovers(run, steps, n, k, ok, i, t);
      if t in run[n].b.marked {
        var k': nat :| k' < n && ReturnsFor(run, steps, k', true, t);
        CallIsOwn(run, steps, n, k', true, i, t);
        OneCallEach(run, steps, n, k, ok, k', true, id);
      }
    }
  }

  lemma RoutedIsAccepted(run: seq<Pipe>, steps: seq<Step>, n: nat, q: nat)
    requires IsRun(run, steps) && n < |run| && q < |run[n].b.m7|
    ensures q < Returned(run[n].b) && q < |run[n].c.accepted| && run[n].c.accepted[q] == run[n].b.m7[q].id
  {
    InvOfRun(run, steps, n);
    assert RoutedIds(run[n].b.m7)[q] == run[n].b.m7[q].id;
  }
}
