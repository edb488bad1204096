/** The matchmaking loop end to end: the synchronizer's cycles, the callers registered
    with them, the queries behind their proposals, and the pending-release marks that
    keep a matched ticket out of later queries.  Every goroutine, RPC and store command
    is an atomic step and steps interleave freely. */
module Matchmaking {
  import opened Domain
  import E = DefaultEvaluator

  /** What the pending-release goroutine of a cycle is doing. */
  datatype Marking = Unevaluated | Marking(todo: seq<E.MatchInp>) | Marked

  datatype Cycle = Cycle(registering: bool, cut: bool, proposals: seq<E.Match>, marking: Marking,
                         cleaned: bool, ended: bool)

  datatype Caller = Waiting | Registered(cycle: nat) | Started(cycle: nat)

  /** A ticket query: the pending-release range is read first, the index second. `hist` and
      `at` remember the log and the clock of the first read. */
  datatype Query =
    | Begun(cycle: nat)
    | PendingRead(cycle: nat, hidden: set<TicketId>, at: int, hist: seq<Event>)
    | Answered(cycle: nat, view: set<TicketId>, at: int, hist: seq<Event>)

  datatype Event = Accept(cycle: nat, m: E.Match, at: int) | Release(tickets: set<TicketId>)

  /** token: values in the startCycle channel. retired: tickets whose deindexing has begun.
      log: accepted matches and explicit releases, in order. */
  datatype World = World(
    now: int, token: nat, cycles: seq<Cycle>, callers: map<nat, Caller>, queries: map<nat, Query>,
    tickets: set<TicketId>, index: set<TicketId>, retired: set<TicketId>, pending: map<TicketId, int>,
    log: seq<Event>)

  datatype StoreStep =
    | Tick(d: nat)
    | CreateTicket(t: TicketId)
    | Deindex(t: TicketId)
    | Unpend(t: TicketId)
    | ReleaseTickets(ts: set<TicketId>)

  datatype CallerStep =
    | Arrive(caller: nat)
    | StartCycle(caller: nat)
    | Register(caller: nat, c: nat)
    | StartMmfs(caller: nat)
    | BeginQuery(caller: nat, q: nat)
    | ReadPending(q: nat)
    | ReadIndex(q: nat, view: set<TicketId>)

  datatype CycleStep =
    | Propose(caller: nat, m: E.Match)
    | CloseRegistration
    | Cutoff
    | Evaluate(sorted: seq<E.MatchInp>)
    | EvaluatorFails
    | Mark
    | MarkingDone
    | Cleanup(ts: set<TicketId>)
    | EndCycle

  datatype Step = OfStore(ss: StoreStep) | OfCaller(cs: CallerStep) | OfCycle(c: nat, ys: CycleStep)

  ghost predicate Init(w: World) {
    && w.token == 1 && w.cycles == [] && w.callers == map[] && w.queries == map[]
    && w.tickets == {} && w.index == {} && w.retired == {} && w.pending == map[] && w.log == []
  }

  // ---------------------------------------------------------------- steps

  ghost predicate HasCycle(w: World, c: nat) {
    c < |w.cycles|
  }

  /** ZRANGEBYSCORE over the pending-release set, as GetIndexedIDSet bounds it. */
  ghost function HiddenAt(w: World, p: nat): set<TicketId> {
    set t | t in w.pending && w.now - p <= w.pending[t] <= w.now + HOUR
  }

  /** Tickets an answered query of cycle c has shown. */
  ghost predicate Shown(w: World, c: nat, t: TicketId) {
    exists q :: q in w.queries && w.queries[q].Answered? && w.queries[q].cycle == c && t in w.queries[q].view
  }

  ghost predicate AllShown(w: World, c: nat, m: E.Match) {
    forall t :: t in m.tickets ==> Shown(w, c, t)
  }

  /** Tickets come and go, and are released, while the clock moves on. */
  ghost predicate StoreNext(w: World, w': World, step: StoreStep) {
    match step
    case Tick(d) => w' == w.(now := w.now + d)
    // Ticket ids are fresh; indexing comes with creation, deindexing precedes unmarking.
    case CreateTicket(t) => t !in w.tickets && w' == w.(tickets := w.tickets + {t}, index := w.index + {t})
    case Deindex(t) => w' == w.(tickets := w.tickets + {t}, index := w.index - {t}, retired := w.retired + {t})
    case Unpend(t) => t in w.retired && w' == w.(pending := w.pending - {t})
    case ReleaseTickets(ts) => w' == w.(pending := w.pending - ts, log := w.log + [Release(ts)])
  }

  /** Synchronize calls and the queries of their match functions. */
  ghost predicate CallerNext(w: World, w': World, step: CallerStep, p: nat) {
    match step
    // Synchronize: register, starting a cycle when the token is free.
    case Arrive(k) => k !in w.callers && w' == w.(callers := w.callers[k := Waiting])
    case StartCycle(k) =>
      && k in w.callers && w.callers[k] == Waiting && w.token > 0
      && w' == w.(token := w.token - 1, cycles := w.cycles + [Cycle(true, false, [], Unevaluated, false, false)])
    case Register(k, c) =>
      && k in w.callers && w.callers[k] == Waiting && HasCycle(w, c) && w.cycles[c].registering
      && w' == w.(callers := w.callers[k := Registered(c)])
    case StartMmfs(k) =>
      && k in w.callers && w.callers[k].Registered?
      && w' == w.(callers := w.callers[k := Started(w.callers[k].cycle)])
    // A match function's query begins after its caller's StartMmfs.
    case BeginQuery(k, q) =>
      && k in w.callers && w.callers[k].Started? && q !in w.queries
      && w' == w.(queries := w.queries[q := Begun(w.callers[k].cycle)])
    case ReadPending(q) =>
      && q in w.queries && w.queries[q].Begun?
      && w' == w.(queries := w.queries[q := PendingRead(w.queries[q].cycle, HiddenAt(w, p), w.now, w.log)])
    case ReadIndex(q, view) =>
      && q in w.queries && w.queries[q].PendingRead? && view <= w.index - w.queries[q].hidden
      && w' == w.(queries := w.queries[q := Answered(w.queries[q].cycle, view, w.queries[q].at, w.queries[q].hist)])
  }

  /** A running cycle, from the first proposal to its end. */
  ghost predicate CycleNext(w: World, w': World, c: nat, step: CycleStep)
    requires HasCycle(w, c)
  {
    var cy := w.cycles[c];
    match step
    // cutoffSender: proposals after the cutoff are ignored.
    case Propose(k, m) =>
      && k in w.callers && w.callers[k] == Started(c) && AllShown(w, c, m)
      && w' == if cy.cut then w else w.(cycles := w.cycles[c := cy.(proposals := cy.proposals + [m])])
    case CloseRegistration => cy.registering && w' == w.(cycles := w.cycles[c := cy.(registering := false)])
    case Cutoff => !cy.registering && w' == w.(cycles := w.cycles[c := cy.(cut := true)])
    // The default evaluator answers once its input is closed, in any order the sort allows.
    case Evaluate(sorted) =>
      && cy.cut && cy.marking.Unevaluated? && E.IsSortOf(sorted, E.Eligible(cy.proposals))
      && w' == w.(cycles := w.cycles[c := cy.(marking := Marking(E.Accepted(sorted)))])
    case EvaluatorFails => cy.marking.Unevaluated? && w' == w.(cycles := w.cycles[c := cy.(marking := Marked)])
    // AddTicketsToPendingRelease for the next accepted match.
    case Mark =>
      && cy.marking.Marking? && cy.marking.todo != []
      && var todo := cy.marking.todo;
         w' == w.(cycles := w.cycles[c := cy.(marking := Marking(todo[1..]))],
                  pending := w.pending + (map t | t in todo[0].m.tickets :: w.now),
                  log := w.log + [Accept(c, todo[0].m, w.now)])
    // closedOnCycleEnd, also when an error cut the stream of accepted ids short.
    case MarkingDone => cy.marking.Marking? && w' == w.(cycles := w.cycles[c := cy.(marking := Marked)])
    // runCycle's tail: CleanupBackfills releases the tickets of expired backfills.
    case Cleanup(ts) =>
      && !cy.registering && cy.marking.Marked? && !cy.cleaned
      && w' == w.(cycles := w.cycles[c := cy.(cleaned := true)], pending := w.pending - ts,
        log := w.log + [Release(ts)])
    case EndCycle =>
      && cy.cleaned && !cy.ended
      && w' == w.(cycles := w.cycles[c := cy.(ended := true)], token := w.token + 1)
  }

  /** One step; p is the configured pendingReleaseTimeout. */
  ghost predicate Next(w: World, w': World, step: Step, p: nat) {
    match step
    case OfStore(ss) => StoreNext(w, w', ss)
    case OfCaller(cs) => CallerNext(w, w', cs, p)
    case OfCycle(c, ys) => HasCycle(w, c) && CycleNext(w, w', c, ys)
  }

  ghost predicate IsRun(run: seq<World>, steps: seq<Step>, p: nat) {
    && |run| == |steps| + 1
    && Init(run[0])
    && forall i {:trigger steps[i]} :: 0 <= i < |steps| ==> Next(run[i], run[i + 1], steps[i], p)
  }

  // ---------------------------------------------------------------- the log

  /** When t was last accepted, if nothing released it since. */
  ghost function LastAccept(log: seq<Event>, t: TicketId): Option<int> {
    if log == [] then None else
      var e, before := log[|log| - 1], log[..|log| - 1];
      if e.Accept? && t in e.m.tickets then Some(e.at)
      else if e.Release? && t in e.tickets then None
      else LastAccept(before, t)
  }

  ghost predicate ReleasedBetween(log: seq<Event>, t: TicketId, i: int, j: int)
    requires 0 <= i && j <= |log|
  {
    exists k :: i <= k < j && log[k].Release? && t in log[k].tickets
  }

  ghost predicate TimesOrdered(log: seq<Event>, now: int) {
    && (forall i :: 0 <= i < |log| && log[i].Accept? ==> log[i].at <= now)
    && (forall i, j :: 0 <= i < j < |log| && log[i].Accept? && log[j].Accept? ==> log[i].at <= log[j].at)
  }

  /** No ticket is in two accepted matches within p unless released in between. */
  ghost predicate NoDoubleAccept(log: seq<Event>, p: nat) {
    forall i, j, t ::
      0 <= i < j < |log| && log[i].Accept? && log[j].Accept? && t in log[i].m.tickets && t in log[j].m.tickets ==>
        ReleasedBetween(log, t, i + 1, j) || log[j].at - log[i].at > p
  }

  lemma {:induction false} LastAcceptCovers(log: seq<Event>, t: TicketId, i: nat, now: int)
    requires TimesOrdered(log, now)
    requires i < |log| && log[i].Accept? && t in log[i].m.tickets
    requires !ReleasedBetween(log, t, i + 1, |log|)
    ensures LastAccept(log, t).Some? && LastAccept(log, t).value >= log[i].at
  {
    var n := |log| - 1;
    if i < n && !(log[n].Accept? && t in log[n].m.tickets) {
      assert forall k :: 0 <= k < n ==> log[..n][k] == log[k];
      LastAcceptCovers(log[..n], t, i, now);
    }
  }

  lemma LastAcceptSnoc(log: seq<Event>, e: Event, t: TicketId)
    ensures LastAccept(log + [e], t) ==
      if e.Accept? && t in e.m.tickets then Some(e.at)
      else if e.Release? && t in e.tickets then None
      else LastAccept(log, t)
  {
    assert (log + [e])[..|log|] == log;
  }

  // ---------------------------------------------------------------- invariants

  /** One token or one running cycle, and only the newest cycle can be running. */
  ghost predicate Scheduled(w: World) {
    && w.token <= 1
    && (forall c :: 0 <= c < |w.cycles| - 1 ==> w.cycles[c].ended)
    && (w.token == 0 <==> |w.cycles| > 0 && !w.cycles[|w.cycles| - 1].ended)
    && (forall c :: 0 <= c < |w.cycles| && w.cycles[c].ended ==> w.cycles[c].cleaned)
    && (forall c :: 0 <= c < |w.cycles| && w.cycles[c].cleaned ==>
        !w.cycles[c].registering && w.cycles[c].marking.Marked?)
    && (forall k :: k in w.callers && !w.callers[k].Waiting? ==> w.callers[k].cycle < |w.cycles|)
    && (forall q :: q in w.queries ==> w.queries[q].cycle < |w.cycles|)
  }

  /** A ticket is indexed from its creation until its deindexing. */
  ghost predicate TicketSets(w: World) {
    w.retired <= w.tickets && w.index == w.tickets - w.retired
  }

  /** A live acceptance is still marked at its own time, unless its ticket has left the index. */
  ghost predicate MarksKept(w: World) {
    && TimesOrdered(w.log, w.now)
    && forall t :: LastAccept(w.log, t).Some? && t !in w.retired ==>
         t in w.pending && w.pending[t] == LastAccept(w.log, t).value
  }

  /** Every mark is that of the last acceptance, which nothing has released since. */
  ghost predicate MarksExact(w: World) {
    forall t :: t in w.pending ==> LastAccept(w.log, t) == Some(w.pending[t])
  }

  ghost predicate Stale(last: Option<int>, at: int, p: nat) {
    last.Some? ==> last.value < at - p
  }

  ghost predicate QuerySound(w: World, q: Query, p: nat) {
    !q.Begun? ==>
      && q.at <= w.now && q.hist <= w.log
      && (forall i :: |q.hist| <= i < |w.log| && w.log[i].Accept? ==> w.log[i].cycle >= q.cycle)
      && (q.PendingRead? ==> forall t :: t !in q.hidden && t !in w.retired ==> Stale(LastAccept(q.hist, t), q.at, p))
      && (q.Answered? ==> forall t :: t in q.view ==> Stale(LastAccept(q.hist, t), q.at, p))
  }

  ghost predicate QueriesSound(w: World, p: nat) {
    forall q :: q in w.queries ==> QuerySound(w, w.queries[q], p)
  }

  ghost predicate Sourced(w: World, c: nat, cy: Cycle) {
    && (forall m :: m in cy.proposals ==> AllShown(w, c, m))
    && (cy.marking.Marking? ==> forall x :: x in cy.marking.todo ==> AllShown(w, c, x.m))
  }

  ghost predicate ProposalsSourced(w: World) {
    forall c :: 0 <= c < |w.cycles| ==> Sourced(w, c, w.cycles[c])
  }

  ghost predicate ShareTicket(a: E.Match, b: E.Match) {
    exists t :: t in a.tickets && t in b.tickets
  }

  /** What a cycle has still to mark is disjoint from what it has marked, and in itself. */
  ghost predicate TodoApart(log: seq<Event>, c: nat, todo: seq<E.MatchInp>) {
    && TodoDisjoint(todo)
    && forall i, x :: 0 <= i < |log| && log[i].Accept? && log[i].cycle == c && x in todo ==> !ShareTicket(log[i].m, x.m)
  }

  ghost predicate CycleDisjoint(w: World) {
    && (forall i :: 0 <= i < |w.log| && w.log[i].Accept? ==>
          w.log[i].cycle < |w.cycles| && !w.cycles[w.log[i].cycle].marking.Unevaluated?)
    && (forall c :: 0 <= c < |w.cycles| && w.cycles[c].marking.Marking? ==>
        TodoApart(w.log, c, w.cycles[c].marking.todo))
  }

  ghost predicate TodoDisjoint(todo: seq<E.MatchInp>) {
    forall i, j :: 0 <= i < j < |todo| ==> !ShareTicket(todo[i].m, todo[j].m)
  }

  ghost predicate Inv(w: World, p: nat) {
    && Scheduled(w) && TicketSets(w) && MarksKept(w) && MarksExact(w)
    && QueriesSound(w, p) && ProposalsSourced(w) && CycleDisjoint(w) && NoDoubleAccept(w.log, p)
  }

  // ---------------------------------------------------------------- every step keeps the invariants

  lemma ScheduledStep(w: World, w': World, step: Step, p: nat)
    requires Scheduled(w) && Next(w, w', step, p)
    ensures Scheduled(w')
  {
    if step.OfCaller? {
      ScheduledCaller(w, w', step.cs, p);
    } else if step.OfCycle? {
      ScheduledCycle(w, w', step.c, step.ys);
    }
  }

  lemma ScheduledCaller(w: World, w': World, step: CallerStep, p: nat)
    requires Scheduled(w) && CallerNext(w, w', step, p)
    ensures Scheduled(w')
  {
  }

  lemma ScheduledCycle(w: World, w': World, c: nat, step: CycleStep)
    requires Scheduled(w) && HasCycle(w, c) && CycleNext(w, w', c, step)
    ensures Scheduled(w')
  {
  }

  lemma TicketSetsStep(w: World, w': World, step: Step, p: nat)
    requires TicketSets(w) && Next(w, w', step, p)
    ensures TicketSets(w')
  {
  }

  /** What a step may add to the log: a release, or the acceptance of the match its cycle marks. */
  ghost predicate Logs(w: World, w': World, step: Step) {
    w'.log == w.log || exists e :: LogsOne(w, w', step, e)
  }

  ghost predicate LogsOne(w: World, w': World, step: Step, e: Event) {
    && w'.log == w.log + [e] && w'.now == w.now
    && (e.Accept? ==>
          && step.OfCycle? && step.ys.Mark? && HasCycle(w, step.c)
          && w.cycles[step.c].marking.Marking? && w.cycles[step.c].marking.todo != []
          && e == Accept(step.c, w.cycles[step.c].marking.todo[0].m, w.now))
  }

  lemma StepLogs(w: World, w': World, step: Step, p: nat)
    requires Next(w, w', step, p)
    ensures Logs(w, w', step)
  {
    if |w'.log| > |w.log| {
      assert LogsOne(w, w', step, w'.log[|w.log|]);
    }
  }

  lemma MarksKeptStep(w: World, w': World, step: Step, p: nat)
    requires MarksKept(w) && Next(w, w', step, p)
    ensures MarksKept(w')
  {
    TimesOrderedStep(w, w', step, p);
    forall t | LastAccept(w'.log, t).Some? && t !in w'.retired
      ensures t in w'.pending && w'.pending[t] == LastAccept(w'.log, t).value
    {
      if |w'.log| > |w.log| {
        LastAcceptSnoc(w.log, w'.log[|w.log|], t);
        assert w'.log == w.log + [w'.log[|w.log|]];
      }
    }
  }

  lemma MarksExactStep(w: World, w': World, step: Step, p: nat)
    requires MarksExact(w) && Next(w, w', step, p)
    ensures MarksExact(w')
  {
    match step
    case OfStore(ss) => MarksExactStore(w, w', ss);
    case OfCaller(_) => assert w'.pending == w.pending && w'.log == w.log;
    case OfCycle(c, ys) => MarksExactCycle(w, w', c, ys);
  }

  lemma MarksExactStore(w: World, w': World, step: StoreStep)
    requires MarksExact(w) && StoreNext(w, w', step)
    ensures MarksExact(w')
  {
    if step.ReleaseTickets? {
      forall t | t in w'.pending ensures LastAccept(w'.log, t) == Some(w'.pending[t]) {
        LastAcceptSnoc(w.log, Release(step.ts), t);
      }
    } else {
      assert w'.log == w.log;
    }
  }

  lemma MarksExactCycle(w: World, w': World, c: nat, step: CycleStep)
    requires MarksExact(w) && HasCycle(w, c) && CycleNext(w, w', c, step)
    ensures MarksExact(w')
  {
    if step.Mark? || step.Cleanup? {
      var e := if step.Mark? then Accept(c, w.cycles[c].marking.todo[0].m, w.now) else Release(step.ts);
      forall t | t in w'.pending ensures LastAccept(w'.log, t) == Some(w'.pending[t]) {
        LastAcceptSnoc(w.log, e, t);
      }
    } else {
      assert w'.pending == w.pending && w'.log == w.log;
    }
  }

  lemma TimesOrderedStep(w: World, w': World, step: Step, p: nat)
    requires TimesOrdered(w.log, w.now) && Next(w, w', step, p)
    ensures TimesOrdered(w'.log, w'.now)
  {
    StepLogs(w, w', step, p);
  }

  /** A cycle that is still marking is the newest one. */
  lemma MarkingIsNewest(w: World, c: nat)
    requires Scheduled(w) && HasCycle(w, c) && !w.cycles[c].marking.Marked?
    ensures c == |w.cycles| - 1
  {
  }

  /** Reading the pending range hides every ticket whose last acceptance is recent. */
  lemma UnhiddenIsStale(w: World, t: TicketId, p: nat)
    requires MarksKept(w) && t !in HiddenAt(w, p) && t !in w.retired
    ensures Stale(LastAccept(w.log, t), w.now, p)
  {
    if LastAccept(w.log, t).Some? {
      LastAcceptBound(w.log, t, w.now);
    }
  }

  lemma {:induction false} LastAcceptBound(log: seq<Event>, t: TicketId, now: int)
    requires TimesOrdered(log, now) && LastAccept(log, t).Some?
    ensures LastAccept(log, t).value <= now
  {
    var n := |log| - 1;
    if !(log[n].Accept? && t in log[n].m.tickets) {
      LastAcceptBound(log[..n], t, now);
    }
  }

  lemma QueriesSoundStep(w: World, w': World, step: Step, p: nat)
    requires Scheduled(w) && TicketSets(w) && MarksKept(w) && QueriesSound(w, p) && Next(w, w', step, p)
    ensures QueriesSound(w', p)
  {
    forall q | q in w'.queries ensures QuerySound(w', w'.queries[q], p) {
      assert q in w.queries ==> QuerySound(w, w.queries[q], p);
      if step.OfCaller? {
        QuerySoundCaller(w, w', step.cs, p, q);
      } else if step.OfCycle? {
        QuerySoundCycle(w, w', step.c, step.ys, p, q);
      }
    }
  }

  lemma QuerySoundCaller(w: World, w': World, step: CallerStep, p: nat, q: nat)
    requires TicketSets(w) && MarksKept(w) && CallerNext(w, w', step, p) && q in w'.queries
    requires q in w.queries ==> QuerySound(w, w.queries[q], p)
    ensures QuerySound(w', w'.queries[q], p)
  {
    if step.ReadPending? {
      forall t | t !in HiddenAt(w, p) && t !in w.retired ensures Stale(LastAccept(w.log, t), w.now, p) {
        UnhiddenIsStale(w, t, p);
      }
    }
  }

  lemma QuerySoundCycle(w: World, w': World, c: nat, step: CycleStep, p: nat, q: nat)
    requires Scheduled(w) && HasCycle(w, c) && CycleNext(w, w', c, step) && q in w.queries
    requires QuerySound(w, w.queries[q], p)
    ensures q in w'.queries && QuerySound(w', w'.queries[q], p)
  {
    if step.Mark? {
      MarkingIsNewest(w, c);
    }
  }

  lemma ShownGrows(w: World, w': World, step: Step, p: nat)
    requires Next(w, w', step, p)
    ensures forall c, m :: AllShown(w, c, m) ==> AllShown(w', c, m)
  {
    forall c, t | Shown(w, c, t) ensures Shown(w', c, t) {
      var q :| q in w.queries && w.queries[q].Answered? && w.queries[q].cycle == c && t in w.queries[q].view;
      assert q in w'.queries && w'.queries[q] == w.queries[q];
    }
  }

  lemma AcceptedAreProposals(proposals: seq<E.Match>, sorted: seq<E.MatchInp>)
    requires E.IsSortOf(sorted, E.Eligible(proposals))
    ensures forall x :: x in E.Accepted(sorted) ==> x.m in proposals
  {
    E.AcceptedDisjoint(sorted);
    forall x | x in E.Accepted(sorted) ensures x.m in proposals {
      assert x in multiset(sorted);
      assert x in multiset(E.Eligible(proposals));
      E.EligibleMembers(proposals, x);
    }
  }

  lemma ProposalsSourcedStep(w: World, w': World, step: Step, p: nat)
    requires ProposalsSourced(w) && Next(w, w', step, p)
    ensures ProposalsSourced(w')
  {
    ShownGrows(w, w', step, p);
    forall c | 0 <= c < |w'.cycles| ensures Sourced(w', c, w'.cycles[c]) {
      assert c < |w.cycles| ==> Sourced(w, c, w.cycles[c]);
      if step.OfCycle? && c == step.c {
        SourcedCycle(w, w', c, step.ys);
      }
    }
  }

  lemma SourcedCycle(w: World, w': World, c: nat, step: CycleStep)
    requires HasCycle(w, c) && CycleNext(w, w', c, step) && Sourced(w, c, w.cycles[c])
    requires forall m :: AllShown(w, c, m) ==> AllShown(w', c, m)
    ensures HasCycle(w', c) && Sourced(w', c, w'.cycles[c])
  {
    if step.Evaluate? {
      AcceptedAreProposals(w.cycles[c].proposals, step.sorted);
    }
  }

  /** What the evaluator accepts shares no ticket. */
  lemma AcceptedTodoDisjoint(sorted: seq<E.MatchInp>)
    ensures TodoDisjoint(E.Accepted(sorted))
  {
    E.AcceptedDisjoint(sorted);
    var todo := E.Accepted(sorted);
    forall i, j | 0 <= i < j < |todo| ensures !ShareTicket(todo[i].m, todo[j].m) {
      assert !E.Collides(todo[i].m, todo[j].m);
      forall t | t in todo[i].m.tickets ensures t !in todo[j].m.tickets {
        assert E.TicketOf(t) in E.Resources(todo[i].m);
        assert E.TicketOf(t) !in E.Resources(todo[i].m) * E.Resources(todo[j].m);
      }
    }
  }

  lemma TodoApartSnoc(log: seq<Event>, e: Event, c: nat, todo: seq<E.MatchInp>)
    requires TodoApart(log, c, todo) && (e.Accept? ==> e.cycle != c)
    ensures TodoApart(log + [e], c, todo)
  {
  }

  lemma TodoApartMark(log: seq<Event>, c: nat, todo: seq<E.MatchInp>, at: int)
    requires TodoApart(log, c, todo) && todo != []
    ensures TodoApart(log + [Accept(c, todo[0].m, at)], c, todo[1..])
  {
    var rest := todo[1..];
    forall x | x in rest ensures x in todo && !ShareTicket(todo[0].m, x.m) {
      var j :| 0 <= j < |rest| && rest[j] == x;
      assert todo[j + 1] == x;
    }
  }

  lemma CycleDisjointStep(w: World, w': World, step: Step, p: nat)
    requires Scheduled(w) && CycleDisjoint(w) && Next(w, w', step, p)
    ensures CycleDisjoint(w')
  {
    if step.OfCycle? {
      LoggedCycles(w, w', step.c, step.ys);
      forall c | 0 <= c < |w'.cycles| && w'.cycles[c].marking.Marking?
        ensures TodoApart(w'.log, c, w'.cycles[c].marking.todo)
      {
        CycleTodoApart(w, w', step.c, step.ys, c);
      }
    } else {
      QuietCycleDisjoint(w, w', step, p);
    }
  }

  lemma QuietCycleDisjoint(w: World, w': World, step: Step, p: nat)
    requires CycleDisjoint(w) && Next(w, w', step, p) && !step.OfCycle?
    ensures CycleDisjoint(w')
  {
    if step.OfStore? {
      StoreCycleDisjoint(w, w', step.ss);
    } else {
      assert w'.log == w.log && w.cycles <= w'.cycles;
      assert forall c :: |w.cycles| <= c < |w'.cycles| ==> w'.cycles[c].marking.Unevaluated?;
    }
  }

  lemma StoreCycleDisjoint(w: World, w': World, step: StoreStep)
    requires CycleDisjoint(w) && StoreNext(w, w', step)
    ensures CycleDisjoint(w')
  {
    assert w'.cycles == w.cycles;
    forall c | 0 <= c < |w'.cycles| && w'.cycles[c].marking.Marking?
      ensures TodoApart(w'.log, c, w'.cycles[c].marking.todo)
    {
      if step.ReleaseTickets? {
        TodoApartSnoc(w.log, Release(step.ts), c, w.cycles[c].marking.todo);
      }
    }
  }

  lemma LoggedCycles(w: World, w': World, c: nat, step: CycleStep)
    requires CycleDisjoint(w) && HasCycle(w, c) && CycleNext(w, w', c, step)
    ensures forall i :: 0 <= i < |w'.log| && w'.log[i].Accept? ==>
              w'.log[i].cycle < |w'.cycles| && !w'.cycles[w'.log[i].cycle].marking.Unevaluated?
  {
  }

  lemma CycleTodoApart(w: World, w': World, c: nat, step: CycleStep, d: nat)
    requires Scheduled(w) && CycleDisjoint(w) && HasCycle(w, c) && CycleNext(w, w', c, step)
    requires d < |w'.cycles| && w'.cycles[d].marking.Marking?
    ensures TodoApart(w'.log, d, w'.cycles[d].marking.todo)
  {
    if step.Evaluate? {
      AcceptedTodoDisjoint(step.sorted);
    } else if step.Mark? {
      MarkingIsNewest(w, c);
      TodoApartMark(w.log, c, w.cycles[c].marking.todo, w.now);
    }
  }

  lemma NoDoubleSnoc(log: seq<Event>, e: Event, p: nat)
    requires NoDoubleAccept(log, p)
    requires e.Accept? ==> forall i, t ::
      0 <= i < |log| && log[i].Accept? && t in log[i].m.tickets && t in e.m.tickets
      ==> ReleasedBetween(log, t, i + 1, |log|) || e.at - log[i].at > p
    ensures NoDoubleAccept(log + [e], p)
  {
    var log' := log + [e];
    forall i, j, t | 0 <= i <= j <= |log| && ReleasedBetween(log, t, i, j) ensures ReleasedBetween(log', t, i, j) {
      var k :| i <= k < j && log[k].Release? && t in log[k].tickets;
      assert log'[k] == log[k];
    }
  }

  lemma NoDoubleAcceptStep(w: World, w': World, step: Step, p: nat)
    requires Inv(w, p) && Logs(w, w', step)
    ensures NoDoubleAccept(w'.log, p)
  {
    if w'.log != w.log {
      var e :| LogsOne(w, w', step, e);
      if e.Accept? {
        MarkedOnlyIfStale(w, step.c, p);
      }
      NoDoubleSnoc(w.log, e, p);
    }
  }

  /** The heart of the matter: a match about to be marked has no ticket that was accepted
      within p and not released since. */
  lemma MarkedOnlyIfStale(w: World, c: nat, p: nat)
    requires Inv(w, p) && HasCycle(w, c) && w.cycles[c].marking.Marking? && w.cycles[c].marking.todo != []
    ensures forall i, t ::
      0 <= i < |w.log| && w.log[i].Accept? && t in w.log[i].m.tickets && t in w.cycles[c].marking.todo[0].m.tickets
      ==> ReleasedBetween(w.log, t, i + 1, |w.log|) || w.now - w.log[i].at > p
  {
    MarkingIsNewest(w, c);
    var m := w.cycles[c].marking.todo[0].m;
    forall i, t |
        0 <= i < |w.log| && w.log[i].Accept? && t in w.log[i].m.tickets && t in m.tickets
        && !ReleasedBetween(w.log, t, i + 1, |w.log|)
      ensures w.now - w.log[i].at > p
    {
      assert w.log[i].cycle != c by {
        assert ShareTicket(w.log[i].m, m);
      }
      assert Shown(w, c, t) by {
        assert w.cycles[c].marking.todo[0] in w.cycles[c].marking.todo;
      }
      var q :| q in w.queries && w.queries[q].Answered? && w.queries[q].cycle == c && t in w.queries[q].view;
      var hist := w.queries[q].hist;
      assert QuerySound(w, w.queries[q], p);
      assert i < |hist|;
      assert forall k :: 0 <= k < |hist| ==> hist[k] == w.log[k];
      LastAcceptCovers(hist, t, i, w.now);
    }
  }

  lemma InvStep(w: World, w': World, step: Step, p: nat)
    requires Inv(w, p) && Next(w, w', step, p)
    ensures Inv(w', p)
  {
    ScheduledStep(w, w', step, p);
    TicketSetsStep(w, w', step, p);
    MarksKeptStep(w, w', step, p);
    MarksExactStep(w, w', step, p);
    QueriesSoundStep(w, w', step, p);
    ProposalsSourcedStep(w, w', step, p);
    CycleDisjointStep(w, w', step, p);
    StepLogs(w, w', step, p);
    NoDoubleAcceptStep(w, w', step, p);
  }

  lemma {:induction false} InvOfRun(run: seq<World>, steps: seq<Step>, p: nat, n: nat)
    requires IsRun(run, steps, p) && n < |run|
    ensures Inv(run[n], p)
  {
    if n == 0 {
    } else {
      InvOfRun(run, steps, p, n - 1);
      InvStep(run[n - 1], run[n], steps[n - 1], p);
    }
  }

  // ---------------------------------------------------------------- main results, over every run

  /** No ticket is in two accepted matches within pendingReleaseTimeout of each other,
      unless it was explicitly released in between. */
  lemma NoTicketMatchedTwice(run: seq<World>, steps: seq<Step>, p: nat, n: nat, i: nat, j: nat, t: TicketId)
    requires IsRun(run, steps, p) && n < |run|
    requires i < j < |run[n].log| && run[n].log[i].Accept? && run[n].log[j].Accept?
    requires t in run[n].log[i].m.tickets && t in run[n].log[j].m.tickets
    requires !ReleasedBetween(run[n].log, t, i + 1, j)
    ensures run[n].log[j].at - run[n].log[i].at > p
  {
    InvOfRun(run, steps, p, n);
  }

  /** The pending range hides a ticket that has not left the index exactly when its last acceptance is
      recent and was not released since; so what a query may be shown are exactly the tickets created,
      not deindexed, and free in that sense. */
  lemma HiddenIffRecentlyAccepted(run: seq<World>, steps: seq<Step>, p: nat, n: nat, t: TicketId)
    requires IsRun(run, steps, p) && n < |run|
    ensures var w, last := run[n], LastAccept(run[n].log, t);
            && (t !in w.retired ==> (t in HiddenAt(w, p) <==> last.Some? && w.now - p <= last.value))
            && (t in w.index - HiddenAt(w, p) <==> t in w.tickets && t !in w.retired && Stale(last, w.now, p))
  {
    InvOfRun(run, steps, p, n);
    var w := run[n];
    if LastAccept(w.log, t).Some? {
      LastAcceptBound(w.log, t, w.now);
    }
  }

  ghost function Running(w: World): set<nat> {
    set c: nat | c < |w.cycles| && !w.cycles[c].ended
  }

  /** Start tokens and running cycles always add up to one. */
  lemma OneTokenOrOneCycle(run: seq<World>, steps: seq<Step>, p: nat, n: nat)
    requires IsRun(run, steps, p) && n < |run|
    ensures run[n].token + |Running(run[n])| == 1
  {
    InvOfRun(run, steps, p, n);
    var w := run[n];
    if w.token == 1 {
      assert Running(w) == {};
    } else {
      assert Running(w) == {|w.cycles| - 1};
    }
  }

  /** A step keeps finished cycles finished and every registration in its cycle. */
  ghost predicate Keeps(w: World, w': World) {
    && |w.cycles| <= |w'.cycles|
    && (forall c :: 0 <= c < |w.cycles| && w.cycles[c].ended ==> w'.cycles[c].ended)
    && (forall k :: k in w.callers && !w.callers[k].Waiting? ==>
          k in w'.callers && !w'.callers[k].Waiting? && w'.callers[k].cycle == w.callers[k].cycle)
  }

  lemma CycleStepKeeps(w: World, w': World, c: nat, step: CycleStep)
    requires HasCycle(w, c) && CycleNext(w, w', c, step)
    ensures Keeps(w, w')
  {
  }

  lemma StepKeeps(w: World, w': World, step: Step, p: nat)
    requires Next(w, w', step, p)
    ensures Keeps(w, w')
  {
    if step.OfCycle? {
      CycleStepKeeps(w, w', step.c, step.ys);
    }
  }

  lemma KeepsAt(run: seq<World>, steps: seq<Step>, p: nat, n: nat)
    requires IsRun(run, steps, p) && n < |steps|
    ensures Keeps(run[n], run[n + 1]) && Logs(run[n], run[n + 1], steps[n])
  {
    StepKeeps(run[n], run[n + 1], steps[n], p);
    StepLogs(run[n], run[n + 1], steps[n], p);
  }

  /** When a caller of cycle c has its StartMmfs, every earlier cycle is over: its marks are made
      and its cleanup has finished, and no later step accepts a match on its behalf. */
  lemma EarlierCyclesAreOver(run: seq<World>, steps: seq<Step>, p: nat, n: nat, m: nat, k: nat, b: nat)
    requires IsRun(run, steps, p) && n <= m < |run|
    requires k in run[n].callers && run[n].callers[k].Started? && b < run[n].callers[k].cycle
    ensures b < |run[n].cycles| <= |run[m].cycles|
    ensures run[n].cycles[b].cleaned && run[n].cycles[b].marking.Marked?
    ensures run[n].log <= run[m].log
    ensures forall i :: |run[n].log| <= i < |run[m].log| && run[m].log[i].Accept? ==> run[m].log[i].cycle != b
    decreases m
  {
    EarlierHaveEnded(run, steps, p, n, k, b);
    if n < m {
      EarlierCyclesAreOver(run, steps, p, n, m - 1, k, b);
      EndedStaysEnded(run, steps, p, n, m - 1, b);
      KeepsAt(run, steps, p, m - 1);
    }
  }

  lemma EarlierHaveEnded(run: seq<World>, steps: seq<Step>, p: nat, n: nat, k: nat, b: nat)
    requires IsRun(run, steps, p) && n < |run|
    requires k in run[n].callers && run[n].callers[k].Started? && b < run[n].callers[k].cycle
    ensures b < |run[n].cycles| && run[n].cycles[b].ended && run[n].cycles[b].cleaned
    ensures run[n].cycles[b].marking.Marked?
  {
    InvOfRun(run, steps, p, n);
  }

  lemma EndedIsMarked(run: seq<World>, steps: seq<Step>, p: nat, n: nat, b: nat)
    requires IsRun(run, steps, p) && n < |run| && b < |run[n].cycles| && run[n].cycles[b].ended
    ensures run[n].cycles[b].marking.Marked?
  {
    InvOfRun(run, steps, p, n);
  }

  lemma {:induction false} EndedStaysEnded(run: seq<World>, steps: seq<Step>, p: nat, n: nat, m: nat, b: nat)
    requires IsRun(run, steps, p) && n <= m < |run|
    requires b < |run[n].cycles| && run[n].cycles[b].ended
    ensures b < |run[m].cycles| && run[m].cycles[b].ended && run[m].cycles[b].marking.Marked?
    decreases m
  {
    if n == m {
    } else {
      EndedStaysEnded(run, steps, p, n, m - 1, b);
      KeepsAt(run, steps, p, m - 1);
    }
    EndedIsMarked(run, steps, p, m, b);
  }

  /** A registration never moves to another cycle. */
  lemma {:induction false} RegisteredOnce(run: seq<World>, steps: seq<Step>, p: nat, n: nat, m: nat, k: nat)
    requires IsRun(run, steps, p) && n <= m < |run|
    requires k in run[n].callers && !run[n].callers[k].Waiting?
    ensures k in run[m].callers && !run[m].callers[k].Waiting? && run[m].callers[k].cycle == run[n].callers[k].cycle
    decreases m
  {
    if n == m {
    } else {
      RegisteredOnce(run, steps, p, n, m - 1, k);
      KeepsAt(run, steps, p, m - 1);
    }
  }
}
