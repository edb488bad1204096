/**
 * The query cache inside the matchmaking loop.  Match functions query through the cache, so one
 * refresh answers all the requests gathered for it.  Joined step by step, the two protocols are a
 * run of the matchmaking loop in which every request is a query of its own, and so what holds of
 * that loop holds of them.
 */
module QueryComposition {
  import opened Domain
  import M = Matchmaking
  import C = CacheProtocol

  /** How far the update in progress has got with its two reads. */
  datatype Phase = Fresh | GotPending(hidden: set<TicketId>) | GotIndex

  datatype Joint = Joint(w: M.World, c: C.State, phase: Phase)

  /**
   * Ask: a match function of a caller sends request q. ReadsPending, ReadsIndex: the two reads of
   * GetIndexedIDSet, by the update of runRequest r.
   */
  datatype Step =
    | OfWorld(ms: M.Step)
    | OfCache(cs: C.Step)
    | Ask(caller: nat, q: nat)
    | ReadsPending(r: nat)
    | ReadsIndex(r: nat, view: set<TicketId>)

  /** The steps of the loop that are no steps of a query. */
  ghost predicate NoQueryStep(step: M.Step) {
    step.OfCaller? ==> !step.cs.BeginQuery? && !step.cs.ReadPending? && !step.cs.ReadIndex?
  }

  /** Every query that has begun reads the pending range. */
  ghost function PendingReadBy(w: M.World, reqs: seq<nat>, p: nat): (w': M.World)
    ensures w' == w.(queries := w'.queries)
  {
    if reqs == [] then w
    else
      var w0, q := PendingReadBy(w, reqs[..|reqs| - 1], p), reqs[|reqs| - 1];
      if q in w0.queries && w0.queries[q].Begun?
      then w0.(queries := w0.queries[q := M.PendingRead(w0.queries[q].cycle, M.HiddenAt(w, p), w.now, w.log)])
      else w0
  }

  /** Every query that has read the pending range is answered. */
  ghost function IndexReadBy(w: M.World, reqs: seq<nat>, view: set<TicketId>): (w': M.World)
    ensures w' == w.(queries := w'.queries)
  {
    if reqs == [] then w
    else
      var w0, q := IndexReadBy(w, reqs[..|reqs| - 1], view), reqs[|reqs| - 1];
      if q in w0.queries && w0.queries[q].PendingRead?
      then w0.(queries := w0.queries[q := M.Answered(w0.queries[q].cycle, view, w0.queries[q].at, w0.queries[q].hist)])
      else w0
  }

  ghost predicate CacheNext(s: Joint, s': Joint, step: C.Step) {
    && !step.Arrive? && C.Next(s.c, s'.c, step) && s'.w == s.w
    && (step.EndUpdate? ==> s.phase.GotIndex?)
    && s'.phase == if step.BeginUpdate? then Fresh else s.phase
  }

  ghost predicate Next(s: Joint, s': Joint, step: Step, p: nat) {
    match step
    case OfWorld(ms) => NoQueryStep(ms) && M.Next(s.w, s'.w, ms, p) && s' == s.(w := s'.w)
    case OfCache(cs) => CacheNext(s, s', cs)
    case Ask(k, q) =>
      && C.Next(s.c, s'.c, C.Arrive(q)) && M.Next(s.w, s'.w, M.OfCaller(M.BeginQuery(k, q)), p)
      && s'.phase == s.phase
    case ReadsPending(r) =>
      && r in s.c.runners && s.c.runners[r].Updating? && s.phase.Fresh?
      && s' == s.(w := PendingReadBy(s.w, s.c.runners[r].reqs, p), phase := GotPending(M.HiddenAt(s.w, p)))
    case ReadsIndex(r, view) =>
      && r in s.c.runners && s.c.runners[r].Updating? && s.phase.GotPending? && view <= s.w.index - s.phase.hidden
      && s' == s.(w := IndexReadBy(s.w, s.c.runners[r].reqs, view), phase := GotIndex)
  }

  ghost predicate IsRun(run: seq<Joint>, steps: seq<Step>, p: nat) {
    && |run| == |steps| + 1
    && M.Init(run[0].w) && run[0].c == C.START && run[0].phase == Fresh
    && forall i {:trigger steps[i]} :: 0 <= i < |steps| ==> Next(run[i], run[i + 1], steps[i], p)
  }

  // ---------------------------------------------------------------- requests and their queries

  /** Where the query of a gathered request must have got to. */
  ghost predicate QueryAt(w: M.World, q: nat, runner: C.Runner, phase: Phase) {
    q in w.queries &&
    match runner
    case Gathering(_) => w.queries[q].Begun?
    case Updating(_, _) =>
      (match phase
       case Fresh => w.queries[q].Begun?
       case GotPending(hidden) => w.queries[q].PendingRead? && w.queries[q].hidden == hidden
       case GotIndex => w.queries[q].Answered?)
    case Granting(_, _, _) => w.queries[q].Answered?
    case Exiting => true
  }

  ghost predicate RunnerTracked(w: M.World, runner: C.Runner, phase: Phase) {
    !runner.Exiting? ==> forall q :: q in runner.reqs ==> QueryAt(w, q, runner, phase)
  }

  ghost predicate RequestTracked(w: M.World, q: nat, request: C.Request) {
    && q in w.queries
    && (request.Sending? ==> w.queries[q].Begun?)
    && (request.Reading? ==> w.queries[q].Answered?)
  }

  ghost predicate Tracked(s: Joint) {
    && (forall r :: r in s.c.runners ==> RunnerTracked(s.w, s.c.runners[r], s.phase))
    && (forall q :: q in s.c.requests ==> RequestTracked(s.w, q, s.c.requests[q]))
  }

  lemma RequestKeepsTracked(s: Joint, s': Joint, step: C.Step)
    requires Tracked(s) && CacheNext(s, s', step) && C.RequestStep(s.c, s'.c, step)
    ensures Tracked(s')
  {
    forall r | r in s'.c.runners ensures RunnerTracked(s'.w, s'.c.runners[r], s'.phase) {
      assert r in s.c.runners ==> RunnerTracked(s.w, s.c.runners[r], s.phase);
    }
    forall q | q in s'.c.requests ensures RequestTracked(s'.w, q, s'.c.requests[q]) {
      assert RequestTracked(s.w, q, s.c.requests[q]);
    }
  }

  lemma RunnerKeepsTracked(s: Joint, s': Joint, step: C.Step, r: nat)
    requires C.OneRunner(s.c) && Tracked(s) && CacheNext(s, s', step) && C.RunnerStep(s.c, s'.c, step)
    requires r in s'.c.runners
    ensures RunnerTracked(s'.w, s'.c.runners[r], s'.phase)
  {
    C.SameRunner(s.c, r, step.r);
    var before, after := s.c.runners[r], s'.c.runners[r];
    assert RunnerTracked(s.w, before, s.phase);
    if !after.Exiting? {
      forall q | q in after.reqs ensures QueryAt(s.w, q, after, s'.phase) {
        if q in before.reqs {
          assert QueryAt(s.w, q, before, s.phase);
        } else {
          assert step.Hand? && q == step.q;
          assert RequestTracked(s.w, q, s.c.requests[q]);
        }
      }
    }
  }

  lemma RunnerKeepsRequests(s: Joint, s': Joint, step: C.Step, q: nat)
    requires Tracked(s) && CacheNext(s, s', step) && C.RunnerStep(s.c, s'.c, step) && q in s'.c.requests
    ensures RequestTracked(s'.w, q, s'.c.requests[q])
  {
    assert RequestTracked(s.w, q, s.c.requests[q]);
    if step.Grant? && q == s.c.runners[step.r].reqs[0] {
      assert RunnerTracked(s.w, s.c.runners[step.r], s.phase);
      assert QueryAt(s.w, q, s.c.runners[step.r], s.phase);
    }
  }

  lemma CacheKeepsTracked(s: Joint, s': Joint, step: C.Step)
    requires C.OneRunner(s.c) && Tracked(s) && CacheNext(s, s', step)
    ensures Tracked(s')
  {
    if C.RequestStep(s.c, s'.c, step) {
      RequestKeepsTracked(s, s', step);
    } else {
      forall r | r in s'.c.runners ensures RunnerTracked(s'.w, s'.c.runners[r], s'.phase) {
        RunnerKeepsTracked(s, s', step, r);
      }
      forall q | q in s'.c.requests ensures RequestTracked(s'.w, q, s'.c.requests[q]) {
        RunnerKeepsRequests(s, s', step, q);
      }
    }
  }

  lemma WorldKeepsQueries(w: M.World, w': M.World, step: M.Step, p: nat)
    requires NoQueryStep(step) && M.Next(w, w', step, p)
    ensures w'.queries == w.queries
  {
  }

  /** The queries of the gathered requests move on together, and no other query moves. */
  lemma {:induction false} AllReadPending(w: M.World, reqs: seq<nat>, p: nat, q: nat)
    requires q in w.queries
    ensures var w' := PendingReadBy(w, reqs, p);
            && q in w'.queries
            && (q in reqs && w.queries[q].Begun? ==>
                w'.queries[q].PendingRead? && w'.queries[q].hidden == M.HiddenAt(w, p))
            && (q !in reqs || !w.queries[q].Begun? ==> w'.queries[q] == w.queries[q])
  {
    if reqs == [] {
    } else {
      AllReadPending(w, reqs[..|reqs| - 1], p, q);
    }
  }

  lemma {:induction false} AllReadIndex(w: M.World, reqs: seq<nat>, view: set<TicketId>, q: nat)
    requires q in w.queries
    ensures var w' := IndexReadBy(w, reqs, view);
            && q in w'.queries
            && (q in reqs && w.queries[q].PendingRead? ==> w'.queries[q].Answered? && w'.queries[q].view == view)
            && (q !in reqs || !w.queries[q].PendingRead? ==> w'.queries[q] == w.queries[q])
  {
    if reqs == [] {
    } else {
      AllReadIndex(w, reqs[..|reqs| - 1], view, q);
    }
  }

  lemma ReadsKeepTracked(s: Joint, s': Joint, step: Step, p: nat, r: nat)
    requires C.Inv(s.c) && Tracked(s) && Next(s, s', step, p) && (step.ReadsPending? || step.ReadsIndex?) && step.r == r
    ensures Tracked(s')
  {
    var reqs := s.c.runners[r].reqs;
    assert RunnerTracked(s.w, s.c.runners[r], s.phase);
    forall x | x in s'.c.runners ensures RunnerTracked(s'.w, s'.c.runners[x], s'.phase) {
      C.SameRunner(s.c, x, r);
      forall q | q in reqs ensures QueryAt(s'.w, q, s.c.runners[r], s'.phase) {
        assert QueryAt(s.w, q, s.c.runners[r], s.phase);
        QueryMoves(s, s', step, p, q);
      }
    }
    forall q | q in s'.c.requests ensures RequestTracked(s'.w, q, s'.c.requests[q]) {
      assert RequestTracked(s.w, q, s.c.requests[q]);
      QueryMoves(s, s', step, p, q);
      assert C.Timely(s.c.requests, reqs, s.c.runners[r].u);
    }
  }

  /** What the reads of an update do to one query. */
  lemma QueryMoves(s: Joint, s': Joint, step: Step, p: nat, q: nat)
    requires Next(s, s', step, p) && (step.ReadsPending? || step.ReadsIndex?) && q in s.w.queries
    ensures q in s'.w.queries
    ensures var reqs, before, after := s.c.runners[step.r].reqs, s.w.queries[q], s'.w.queries[q];
            && (q !in reqs || before.Answered? ==> after == before)
            && (step.ReadsPending? && q in reqs && before.Begun? ==>
                after.PendingRead? && s'.phase == GotPending(after.hidden))
            && (step.ReadsIndex? && q in reqs && before.PendingRead? ==> after.Answered?)
  {
    if step.ReadsPending? {
      AllReadPending(s.w, s.c.runners[step.r].reqs, p, q);
    } else {
      AllReadIndex(s.w, s.c.runners[step.r].reqs, step.view, q);
    }
  }

  lemma AskKeepsTracked(s: Joint, s': Joint, k: nat, q: nat, p: nat)
    requires Tracked(s) && Next(s, s', Ask(k, q), p)
    ensures Tracked(s')
  {
    forall r | r in s'.c.runners ensures RunnerTracked(s'.w, s'.c.runners[r], s'.phase) {
      assert RunnerTracked(s.w, s.c.runners[r], s.phase);
    }
    forall x | x in s'.c.requests ensures RequestTracked(s'.w, x, s'.c.requests[x]) {
      assert x != q ==> RequestTracked(s.w, x, s.c.requests[x]);
    }
  }

  lemma WorldKeepsTracked(s: Joint, s': Joint, step: M.Step, p: nat)
    requires Tracked(s) && Next(s, s', OfWorld(step), p)
    ensures Tracked(s')
  {
    WorldKeepsQueries(s.w, s'.w, step, p);
    forall r | r in s'.c.runners ensures RunnerTracked(s'.w, s'.c.runners[r], s'.phase) {
      assert RunnerTracked(s.w, s.c.runners[r], s.phase);
    }
    forall x | x in s'.c.requests ensures RequestTracked(s'.w, x, s'.c.requests[x]) {
      assert RequestTracked(s.w, x, s.c.requests[x]);
    }
  }

  lemma StepKeepsTracked(s: Joint, s': Joint, step: Step, p: nat)
    requires C.Inv(s.c) && Tracked(s) && Next(s, s', step, p)
    ensures Tracked(s')
  {
    match step
    case OfWorld(ms) => WorldKeepsTracked(s, s', ms, p);
    case OfCache(cs) => CacheKeepsTracked(s, s', cs);
    case Ask(k, q) => AskKeepsTracked(s, s', k, q, p);
    case ReadsPending(r) => ReadsKeepTracked(s, s', step, p, r);
    case ReadsIndex(r, _) => ReadsKeepTracked(s, s', step, p, r);
  }

  // ---------------------------------------------------------------- the two protocols by themselves

  ghost predicate InLoop(w: M.World, p: nat) {
    exists run, steps :: M.IsRun(run, steps, p) && run[|run| - 1] == w
  }

  lemma LoopStep(w: M.World, w': M.World, step: M.Step, p: nat)
    requires InLoop(w, p) && M.Next(w, w', step, p)
    ensures InLoop(w', p)
  {
    var run, steps :| M.IsRun(run, steps, p) && run[|run| - 1] == w;
    assert M.IsRun(run + [w'], steps + [step], p);
  }

  ghost predicate InCache(c: C.State) {
    exists run, steps :: C.IsRun(run, steps) && run[|run| - 1] == c
  }

  lemma CacheStep(c: C.State, c': C.State, step: C.Step)
    requires InCache(c) && C.Next(c, c', step)
    ensures InCache(c')
  {
    var run, steps :| C.IsRun(run, steps) && run[|run| - 1] == c;
    assert C.IsRun(run + [c'], steps + [step]);
  }

  /** The read of the pending range for all gathered requests is one read after the other. */
  lemma {:induction false} PendingReadsAreSteps(w: M.World, reqs: seq<nat>, p: nat)
    requires InLoop(w, p)
    ensures InLoop(PendingReadBy(w, reqs, p), p)
  {
    if reqs == [] {
    } else {
      var w0, q := PendingReadBy(w, reqs[..|reqs| - 1], p), reqs[|reqs| - 1];
      PendingReadsAreSteps(w, reqs[..|reqs| - 1], p);
      if q in w0.queries && w0.queries[q].Begun? {
        LoopStep(w0, PendingReadBy(w, reqs, p), M.OfCaller(M.ReadPending(q)), p);
      }
    }
  }

  lemma {:induction false} IndexReadsAreSteps(w: M.World, reqs: seq<nat>, view: set<TicketId>, p: nat)
    requires InLoop(w, p)
    requires forall q :: q in reqs && q in w.queries && w.queries[q].PendingRead? ==>
        view <= w.index - w.queries[q].hidden
    ensures InLoop(IndexReadBy(w, reqs, view), p)
  {
    if reqs == [] {
    } else {
      var front, q := reqs[..|reqs| - 1], reqs[|reqs| - 1];
      var w0 := IndexReadBy(w, front, view);
      IndexReadsAreSteps(w, front, view, p);
      if q in w0.queries && w0.queries[q].PendingRead? {
        SameIfUnread(w, front, view, q);
        LoopStep(w0, IndexReadBy(w, reqs, view), M.OfCaller(M.ReadIndex(q, view)), p);
      }
    }
  }

  lemma {:induction false} SameIfUnread(w: M.World, reqs: seq<nat>, view: set<TicketId>, q: nat)
    requires var w' := IndexReadBy(w, reqs, view); q in w'.queries && w'.queries[q].PendingRead?
    ensures q in w.queries && w.queries[q] == IndexReadBy(w, reqs, view).queries[q]
  {
    if reqs == [] {
    } else {
      SameIfUnread(w, reqs[..|reqs| - 1], view, q);
    }
  }

  lemma StepInLoop(s: Joint, s': Joint, step: Step, p: nat)
    requires Tracked(s) && InLoop(s.w, p) && Next(s, s', step, p)
    ensures InLoop(s'.w, p)
  {
    match step
    case OfWorld(ms) => LoopStep(s.w, s'.w, ms, p);
    case OfCache(_) =>
    case Ask(k, q) => LoopStep(s.w, s'.w, M.OfCaller(M.BeginQuery(k, q)), p);
    case ReadsPending(r) => PendingReadsAreSteps(s.w, s.c.runners[r].reqs, p);
    case ReadsIndex(r, view) =>
      assert RunnerTracked(s.w, s.c.runners[r], s.phase);
      IndexReadsAreSteps(s.w, s.c.runners[r].reqs, view, p);
  }

  lemma StepInCache(s: Joint, s': Joint, step: Step, p: nat)
    requires InCache(s.c) && Next(s, s', step, p)
    ensures InCache(s'.c)
  {
    if step.OfCache? {
      CacheStep(s.c, s'.c, step.cs);
    } else if step.Ask? {
      CacheStep(s.c, s'.c, C.Arrive(step.q));
    }
  }

  lemma CacheInv(c: C.State)
    requires InCache(c)
    ensures C.Inv(c)
  {
    var run, steps :| C.IsRun(run, steps) && run[|run| - 1] == c;
    C.InvOfRun(run, steps, |run| - 1);
  }

  lemma {:induction false} JointOfRun(run: seq<Joint>, steps: seq<Step>, p: nat, n: nat)
    requires IsRun(run, steps, p) && n < |run|
    ensures InLoop(run[n].w, p) && InCache(run[n].c) && Tracked(run[n])
  {
    if n == 0 {
      assert M.IsRun([run[0].w], [], p) && C.IsRun([run[0].c], []);
    } else {
      JointOfRun(run, steps, p, n - 1);
      CacheInv(run[n - 1].c);
      StepKeepsTracked(run[n - 1], run[n], steps[n - 1], p);
      StepInLoop(run[n - 1], run[n], steps[n - 1], p);
      StepInCache(run[n - 1], run[n], steps[n - 1], p);
    }
  }

  // ---------------------------------------------------------------- main results, over every joint run

  /** A request that reads the cache has had its own query answered: the reads of the update it sees
      are that query's, made after it began; and that update began after the request was handed over. */
  lemma ReadersQueryIsAnswered(run: seq<Joint>, steps: seq<Step>, p: nat, n: nat, q: nat)
    requires IsRun(run, steps, p) && n < |run| && q in run[n].c.requests && run[n].c.requests[q].Reading?
    ensures q in run[n].w.queries && run[n].w.queries[q].Answered?
    ensures run[n].c.requests[q].since < run[n].c.requests[q].seen == run[n].c.updates
  {
    JointOfRun(run, steps, p, n);
    assert RequestTracked(run[n].w, q, run[n].c.requests[q]);
    var cs, ss :| C.IsRun(cs, ss) && cs[|cs| - 1] == run[n].c;
    C.ReadsLaterUpdate(cs, ss, |cs| - 1, q);
  }

  /** The end-to-end guarantee with queries answered through the shared cache. */
  lemma NoTicketMatchedTwice(run: seq<Joint>, steps: seq<Step>, p: nat, n: nat)
    requires IsRun(run, steps, p) && n < |run|
    ensures M.NoDoubleAccept(run[n].w.log, p)
  {
    JointOfRun(run, steps, p, n);
    var ws, ms :| M.IsRun(ws, ms, p) && ws[|ws| - 1] == run[n].w;
    M.InvOfRun(ws, ms, p, |ws| - 1);
  }
}
