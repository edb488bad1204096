/** The matchmaking loop told from its steps: what is logged, marked, indexed, proposed and accepted
    at any moment, as a function of what has happened so far. */
module MatchmakingHistory {
  import opened Domain
  import E = DefaultEvaluator
  import opened Matchmaking

  // ---------------------------------------------------------------- marks

  /** The step marks the ticket pending. */
  ghost predicate Marks(w: World, step: Step, t: TicketId) {
    && step.OfCycle? && step.ys.Mark? && HasCycle(w, step.c)
    && w.cycles[step.c].marking.Marking? && w.cycles[step.c].marking.todo != []
    && t in w.cycles[step.c].marking.todo[0].m.tickets
  }

  /** The step takes the ticket out of pending release. */
  ghost predicate Unmarks(step: Step, t: TicketId) {
    match step
    case OfStore(ReleaseTickets(ts)) => t in ts
    case OfStore(Unpend(u)) => t == u
    case OfCycle(_, Cleanup(ts)) => t in ts
    case _ => false
  }

  /** When the ticket was last marked, if nothing took it out since. */
  ghost function MarkTime(run: seq<World>, steps: seq<Step>, n: nat, t: TicketId): Option<int>
    requires n <= |steps| && |run| == |steps| + 1
  {
    if n == 0 then None
    else if Marks(run[n - 1], steps[n - 1], t) then Some(run[n - 1].now)
    else if Unmarks(steps[n - 1], t) then None
    else MarkTime(run, steps, n - 1, t)
  }

  ghost function Mark(w: World, t: TicketId): Option<int> {
    if t in w.pending then Some(w.pending[t]) else None
  }

  lemma MarkStep(w: World, w': World, step: Step, p: nat, t: TicketId)
    requires Next(w, w', step, p)
    ensures Mark(w', t) == if Marks(w, step, t) then Some(w.now) else if Unmarks(step, t) then None else Mark(w, t)
  {
  }

  /** A ticket is pending exactly when it was marked and not taken out since, with the time of its last mark. */
  lemma {:induction false} PendingIsHistory(run: seq<World>, steps: seq<Step>, p: nat, n: nat, t: TicketId)
    requires IsRun(run, steps, p) && n < |run|
    ensures Mark(run[n], t) == MarkTime(run, steps, n, t)
  {
    if n == 0 {
    } else {
      PendingIsHistory(run, steps, p, n - 1, t);
      MarkStep(run[n - 1], run[n], steps[n - 1], p, t);
    }
  }

  // ---------------------------------------------------------------- the log

  /** What a step logs. */
  ghost function EventsOf(w: World, step: Step): seq<Event> {
    match step
    case OfStore(ReleaseTickets(ts)) => [Release(ts)]
    case OfCycle(_, Cleanup(ts)) => [Release(ts)]
    case OfCycle(c, Mark) =>
      if HasCycle(w, c) && w.cycles[c].marking.Marking? && w.cycles[c].marking.todo != []
      then [Accept(c, w.cycles[c].marking.todo[0].m, w.now)] else []
    case _ => []
  }

  ghost function Events(run: seq<World>, steps: seq<Step>, n: nat): seq<Event>
    requires n <= |steps| && |run| == |steps| + 1
  {
    if n == 0 then [] else Events(run, steps, n - 1) + EventsOf(run[n - 1], steps[n - 1])
  }

  lemma LogStep(w: World, w': World, step: Step, p: nat)
    requires Next(w, w', step, p)
    ensures w'.log == w.log + EventsOf(w, step)
  {
  }

  /** The log holds every acceptance and every release, in order, and nothing else. */
  lemma {:induction false} LogIsHistory(run: seq<World>, steps: seq<Step>, p: nat, n: nat)
    requires IsRun(run, steps, p) && n < |run|
    ensures run[n].log == Events(run, steps, n)
  {
    if n == 0 {
    } else {
      LogIsHistory(run, steps, p, n - 1);
      LogStep(run[n - 1], run[n], steps[n - 1], p);
    }
  }

  // ---------------------------------------------------------------- the ticket index

  /** Created, and not deindexed since. */
  ghost predicate Listed(steps: seq<Step>, n: nat, t: TicketId)
    requires n <= |steps|
  {
    n > 0 &&
    if steps[n - 1] == OfStore(CreateTicket(t)) then true
    else if steps[n - 1] == OfStore(Deindex(t)) then false
    else Listed(steps, n - 1, t)
  }

  lemma IndexStep(w: World, w': World, step: Step, p: nat, t: TicketId)
    requires Next(w, w', step, p)
    ensures step == OfStore(CreateTicket(t)) ==> t in w'.index
    ensures step == OfStore(Deindex(t)) ==> t !in w'.index
    ensures step != OfStore(CreateTicket(t)) && step != OfStore(Deindex(t)) ==> (t in w'.index <==> t in w.index)
  {
  }

  lemma {:induction false} IndexIsHistory(run: seq<World>, steps: seq<Step>, p: nat, n: nat, t: TicketId)
    requires IsRun(run, steps, p) && n < |run|
    ensures t in run[n].index <==> Listed(steps, n, t)
  {
    if n == 0 {
    } else {
      IndexIsHistory(run, steps, p, n - 1, t);
      IndexStep(run[n - 1], run[n], steps[n - 1], p, t);
    }
  }

  // ---------------------------------------------------------------- proposals

  ghost predicate CutBy(steps: seq<Step>, c: nat, n: nat)
    requires n <= |steps|
  {
    n > 0 && (steps[n - 1] == OfCycle(c, Cutoff) || CutBy(steps, c, n - 1))
  }

  /** The proposals sent to the cycle before its first cutoff, in order. */
  ghost function SentBeforeCutoff(steps: seq<Step>, c: nat, n: nat): seq<E.Match>
    requires n <= |steps|
  {
    if n == 0 then []
    else
      var before, step := SentBeforeCutoff(steps, c, n - 1), steps[n - 1];
      if step.OfCycle? && step.c == c && step.ys.Propose? && !CutBy(steps, c, n - 1) then before + [step.ys.m]
      else before
  }

  ghost function ProposalsOf(w: World, c: nat): seq<E.Match> {
    if HasCycle(w, c) then w.cycles[c].proposals else []
  }

  ghost predicate IsCut(w: World, c: nat) {
    HasCycle(w, c) && w.cycles[c].cut
  }

  lemma ProposalsCycleStep(w: World, w': World, c: nat, step: CycleStep)
    requires HasCycle(w, c) && CycleNext(w, w', c, step)
    ensures ProposalsOf(w', c) == ProposalsOf(w, c) + if step.Propose? && !IsCut(w, c) then [step.m] else []
    ensures IsCut(w', c) <==> IsCut(w, c) || step == Cutoff
    ensures forall d :: d != c ==> ProposalsOf(w', d) == ProposalsOf(w, d) && (IsCut(w', d) <==> IsCut(w, d))
  {
  }

  lemma ProposalsStep(w: World, w': World, step: Step, p: nat, c: nat)
    requires Next(w, w', step, p)
    ensures ProposalsOf(w', c) == ProposalsOf(w, c) +
              if step.OfCycle? && step.c == c && step.ys.Propose? && !IsCut(w, c) then [step.ys.m] else []
    ensures IsCut(w', c) <==> IsCut(w, c) || step == OfCycle(c, Cutoff)
  {
    if step.OfCycle? {
      ProposalsCycleStep(w, w', step.c, step.ys);
    }
  }

  /** A cycle evaluates exactly what its callers sent before its cutoff, in order. */
  lemma {:induction false} ProposalsAreHistory(run: seq<World>, steps: seq<Step>, p: nat, n: nat, c: nat)
    requires IsRun(run, steps, p) && n < |run|
    ensures ProposalsOf(run[n], c) == SentBeforeCutoff(steps, c, n)
    ensures IsCut(run[n], c) <==> CutBy(steps, c, n)
  {
    if n == 0 {
    } else {
      ProposalsAreHistory(run, steps, p, n - 1, c);
      ProposalsStep(run[n - 1], run[n], steps[n - 1], p, c);
    }
  }

  // ---------------------------------------------------------------- registration

  ghost predicate ClosedBy(steps: seq<Step>, c: nat, n: nat)
    requires n <= |steps|
  {
    n > 0 && (steps[n - 1] == OfCycle(c, CloseRegistration) || ClosedBy(steps, c, n - 1))
  }

  ghost predicate IsClosed(w: World, c: nat) {
    HasCycle(w, c) && !w.cycles[c].registering
  }

  lemma ClosedStep(w: World, w': World, step: Step, p: nat, c: nat)
    requires Next(w, w', step, p)
    ensures IsClosed(w', c) <==> IsClosed(w, c) || step == OfCycle(c, CloseRegistration)
  {
  }

  lemma {:induction false} ClosedIsHistory(run: seq<World>, steps: seq<Step>, p: nat, n: nat, c: nat)
    requires IsRun(run, steps, p) && n < |run|
    ensures IsClosed(run[n], c) <==> ClosedBy(steps, c, n)
  {
    if n == 0 {
    } else {
      ClosedIsHistory(run, steps, p, n - 1, c);
      ClosedStep(run[n - 1], run[n], steps[n - 1], p, c);
    }
  }

  ghost predicate Joined(w: World, k: nat, c: nat) {
    k in w.callers && !w.callers[k].Waiting? && w.callers[k].cycle == c
  }

  lemma JoinStep(w: World, w': World, step: Step, p: nat, k: nat, c: nat)
    requires Next(w, w', step, p) && Joined(w', k, c)
    ensures Joined(w, k, c) || (step == OfCaller(Register(k, c)) && HasCycle(w, c) && !IsClosed(w, c))
  {
  }

  /** A caller is in a cycle because it registered with it while that cycle's registration was open. */
  lemma {:induction false} JoinedWhileOpen(run: seq<World>, steps: seq<Step>, p: nat, n: nat, k: nat, c: nat)
    returns (m: nat)
    requires IsRun(run, steps, p) && n < |run| && Joined(run[n], k, c)
    ensures m < n && steps[m] == OfCaller(Register(k, c)) && HasCycle(run[m], c) && !ClosedBy(steps, c, m)
  {
    assert n > 0;
    JoinStep(run[n - 1], run[n], steps[n - 1], p, k, c);
    if Joined(run[n - 1], k, c) {
      m := JoinedWhileOpen(run, steps, p, n - 1, k, c);
    } else {
      m := n - 1;
      ClosedIsHistory(run, steps, p, m, c);
    }
  }

  /** A cycle is cut off only after its registration was closed. */
  lemma {:induction false} CutIsClosed(run: seq<World>, steps: seq<Step>, p: nat, n: nat, c: nat)
    requires IsRun(run, steps, p) && n < |run| && CutBy(steps, c, n)
    ensures ClosedBy(steps, c, n)
  {
    assert n > 0;
    if CutBy(steps, c, n - 1) {
      CutIsClosed(run, steps, p, n - 1, c);
    } else {
      assert Next(run[n - 1], run[n], steps[n - 1], p);
      ClosedIsHistory(run, steps, p, n - 1, c);
    }
  }

  lemma QueryStep(w: World, w': World, step: Step, p: nat, q: nat)
    requires Next(w, w', step, p) && q in w'.queries
    ensures (q in w.queries && w.queries[q].cycle == w'.queries[q].cycle)
            || (step.OfCaller? && step.cs.BeginQuery? && step.cs.q == q && step.cs.caller in w.callers
                && w.callers[step.cs.caller] == Started(w'.queries[q].cycle))
  {
  }

  /** Every query was begun by a caller of its cycle that had its StartMmfs. */
  lemma {:induction false} QueriedAfterStart(run: seq<World>, steps: seq<Step>, p: nat, n: nat, q: nat)
    returns (m: nat, k: nat)
    requires IsRun(run, steps, p) && n < |run| && q in run[n].queries
    ensures m < n && steps[m] == OfCaller(BeginQuery(k, q))
    ensures k in run[m].callers && run[m].callers[k] == Started(run[n].queries[q].cycle)
  {
    assert n > 0;
    QueryStep(run[n - 1], run[n], steps[n - 1], p, q);
    if q in run[n - 1].queries && run[n - 1].queries[q].cycle == run[n].queries[q].cycle {
      m, k := QueriedAfterStart(run, steps, p, n - 1, q);
    } else {
      m, k := n - 1, steps[n - 1].cs.caller;
    }
  }

  // ---------------------------------------------------------------- acceptance

  /** The matches a cycle has accepted, in order. */
  ghost function AcceptedBy(log: seq<Event>, c: nat): seq<E.Match> {
    if log == [] then []
    else
      var before, e := AcceptedBy(log[..|log| - 1], c), log[|log| - 1];
      if e.Accept? && e.cycle == c then before + [e.m] else before
  }

  lemma AcceptedBySnoc(log: seq<Event>, e: Event, c: nat)
    ensures AcceptedBy(log + [e], c) == AcceptedBy(log, c) + if e.Accept? && e.cycle == c then [e.m] else []
  {
    assert (log + [e])[..|log|] == log;
  }

  ghost function MatchesOf(ms: seq<E.MatchInp>): seq<E.Match> {
    seq(|ms|, i requires 0 <= i < |ms| => ms[i].m)
  }

  /** accepted is what the default evaluator makes of the proposals, for some order its sort may leave. */
  ghost predicate IsEvaluation(proposals: seq<E.Match>, accepted: seq<E.Match>) {
    exists sorted :: E.IsSortOf(sorted, E.Eligible(proposals)) && accepted == MatchesOf(E.Accepted(sorted))
  }

  /** What a cycle has accepted, with what it has still to mark, is the evaluation of its proposals. */
  ghost predicate Evaluated(w: World, c: nat)
    requires HasCycle(w, c)
  {
    var cy, done := w.cycles[c], AcceptedBy(w.log, c);
    match cy.marking
    case Unevaluated => done == []
    case Marking(todo) => cy.cut && IsEvaluation(cy.proposals, done + MatchesOf(todo))
    case Marked => done == [] || (cy.cut && exists rest :: IsEvaluation(cy.proposals, done + rest))
  }

  lemma EvaluatedMark(w: World, w': World, c: nat)
    requires HasCycle(w, c) && Evaluated(w, c) && CycleNext(w, w', c, CycleStep.Mark)
    ensures Evaluated(w', c)
  {
    var todo := w.cycles[c].marking.todo;
    AcceptedBySnoc(w.log, Accept(c, todo[0].m, w.now), c);
    assert AcceptedBy(w.log, c) + MatchesOf(todo) == AcceptedBy(w.log, c) + [todo[0].m] + MatchesOf(todo[1..]);
  }

  lemma EvaluatedOwnStep(w: World, w': World, c: nat, step: CycleStep)
    requires HasCycle(w, c) && Evaluated(w, c) && CycleNext(w, w', c, step)
    ensures Evaluated(w', c)
  {
    var cy := w.cycles[c];
    if step.Mark? {
      EvaluatedMark(w, w', c);
    } else if step.Cleanup? {
      AcceptedBySnoc(w.log, Release(step.ts), c);
    } else if step.Evaluate? {
      assert [] + MatchesOf(E.Accepted(step.sorted)) == MatchesOf(E.Accepted(step.sorted));
    } else if step.MarkingDone? {
      assert IsEvaluation(cy.proposals, AcceptedBy(w.log, c) + MatchesOf(cy.marking.todo));
    }
  }

  lemma EvaluatedOtherStep(w: World, w': World, step: Step, p: nat, c: nat)
    requires HasCycle(w, c) && Evaluated(w, c) && Next(w, w', step, p) && !(step.OfCycle? && step.c == c)
    ensures HasCycle(w', c) && Evaluated(w', c)
  {
    StepLogs(w, w', step, p);
    assert w'.cycles[c] == w.cycles[c];
    if w'.log != w.log {
      var e :| LogsOne(w, w', step, e);
      AcceptedBySnoc(w.log, e, c);
    }
  }

  /** A cycle that does not exist yet has accepted nothing. */
  lemma {:induction false} NothingAccepted(log: seq<Event>, c: nat)
    requires forall i :: 0 <= i < |log| && log[i].Accept? ==> log[i].cycle != c
    ensures AcceptedBy(log, c) == []
  {
    if log == [] {
    } else {
      NothingAccepted(log[..|log| - 1], c);
    }
  }

  lemma EvaluatedAt(run: seq<World>, steps: seq<Step>, p: nat, n: nat, c: nat)
    requires IsRun(run, steps, p) && n < |steps| && HasCycle(run[n + 1], c)
    requires HasCycle(run[n], c) ==> Evaluated(run[n], c)
    ensures Evaluated(run[n + 1], c)
  {
    var w, w', step := run[n], run[n + 1], steps[n];
    if !HasCycle(w, c) {
      InvOfRun(run, steps, p, n);
      NothingAccepted(w.log, c);
      assert Next(w, w', step, p);
      assert w'.log == w.log && w'.cycles[c].marking.Unevaluated?;
    } else if step.OfCycle? && step.c == c {
      EvaluatedOwnStep(w, w', c, step.ys);
    } else {
      EvaluatedOtherStep(w, w', step, p, c);
    }
  }

  /**
   * In every run, what a cycle has accepted, followed by what it has still to mark, is in order what the
   * default evaluator accepts of the proposals sent before the cutoff; a cycle that stopped early, by an
   * error, has accepted a beginning of that.
   */
  lemma {:induction false} AcceptedIsEvaluation(run: seq<World>, steps: seq<Step>, p: nat, n: nat, c: nat)
    requires IsRun(run, steps, p) && n < |run| && HasCycle(run[n], c)
    ensures Evaluated(run[n], c) && run[n].cycles[c].proposals == SentBeforeCutoff(steps, c, n)
  {
    ProposalsAreHistory(run, steps, p, n, c);
    if n == 0 {
    } else {
      if HasCycle(run[n - 1], c) {
        AcceptedIsEvaluation(run, steps, p, n - 1, c);
      }
      EvaluatedAt(run, steps, p, n - 1, c);
    }
  }
}
