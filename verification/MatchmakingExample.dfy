/** One whole cycle, from a created ticket to the return of the start token: the loop is not stuck at
    any stage, and a matched ticket is hidden when the next cycle may start. */
module MatchmakingExample {
  import opened Domain
  import E = DefaultEvaluator
  import opened Matchmaking

  const P: nat := 60

  const START: World := World(0, 1, [], map[], map[], {}, {}, {}, map[], [])

  const PROPOSAL: E.Match := E.Match("m", ["t"], None, E.Absent)
  const INPUT: E.MatchInp := E.MatchInp(PROPOSAL, NegInf)

  const OPEN: Cycle := Cycle(true, false, [], Unevaluated, false, false)

  ghost predicate Reachable(w: World) {
    exists run, steps :: IsRun(run, steps, P) && run[|run| - 1] == w
  }

  lemma Reach(w: World, w': World, step: Step)
    requires Reachable(w) && Next(w, w', step, P)
    ensures Reachable(w')
  {
    var run, steps :| IsRun(run, steps, P) && run[|run| - 1] == w;
    assert IsRun(run + [w'], steps + [step], P);
  }

  /** Caller 0 has started cycle 0 and is registered with it. */
  const JOINED: World :=
    START.(token := 0, cycles := [OPEN], callers := map[0 := Registered(0)], tickets := {"t"}, index := {"t"})

  lemma CallerJoins()
    ensures Reachable(JOINED)
  {
    assert Reachable(START) by {
      assert IsRun([START], [], P);
    }
    var w1 := START.(tickets := {"t"}, index := {"t"});
    Reach(START, w1, OfStore(CreateTicket("t")));
    var w2 := w1.(callers := map[0 := Waiting]);
    Reach(w1, w2, OfCaller(Arrive(0)));
    var w3 := w2.(token := 0, cycles := [OPEN]);
    Reach(w2, w3, OfCaller(StartCycle(0)));
    Reach(w3, JOINED, OfCaller(Register(0, 0)));
  }

  /** Its match function has been shown the ticket. */
  const ASKED: World := JOINED.(callers := map[0 := Started(0)], queries := map[0 := Answered(0, {"t"}, 0, [])])

  lemma MatchFunctionAsks()
    ensures Reachable(ASKED)
  {
    CallerJoins();
    var w1 := JOINED.(callers := map[0 := Started(0)]);
    Reach(JOINED, w1, OfCaller(StartMmfs(0)));
    var w2 := w1.(queries := map[0 := Begun(0)]);
    Reach(w1, w2, OfCaller(BeginQuery(0, 0)));
    var w3 := w1.(queries := map[0 := PendingRead(0, {}, 0, [])]);
    assert HiddenAt(w2, P) == {};
    Reach(w2, w3, OfCaller(ReadPending(0)));
    Reach(w3, ASKED, OfCaller(ReadIndex(0, {"t"})));
  }

  const PROPOSED: Cycle := OPEN.(proposals := [PROPOSAL])

  lemma ProposalIsSent()
    ensures Reachable(ASKED.(cycles := [PROPOSED.(registering := false, cut := true)]))
  {
    MatchFunctionAsks();
    forall t | t in PROPOSAL.tickets ensures Shown(ASKED, 0, t) {
      assert t == "t" && ASKED.queries[0] == Answered(0, {"t"}, 0, []);
    }
    assert [] + [PROPOSAL] == [PROPOSAL];
    var w1 := ASKED.(cycles := [PROPOSED]);
    Reach(ASKED, w1, OfCycle(0, Propose(0, PROPOSAL)));
    var w2 := ASKED.(cycles := [PROPOSED.(registering := false)]);
    Reach(w1, w2, OfCycle(0, CloseRegistration));
    Reach(w2, ASKED.(cycles := [PROPOSED.(registering := false, cut := true)]), OfCycle(0, Cutoff));
  }

  /** A single proposal without criteria is accepted. */
  lemma SingleIsAccepted()
    ensures E.IsSortOf([INPUT], E.Eligible([PROPOSAL])) && E.Accepted([INPUT]) == [INPUT]
  {
    assert [PROPOSAL][..0] == [];
    assert E.Eligible([PROPOSAL]) == [INPUT];
    assert E.KeptAt([INPUT], 0);
    assert E.Survivors([INPUT]) == {0};
    assert E.Select([INPUT], {0}, 1) == E.Select([INPUT], {0}, 0) + [INPUT];
  }

  const EVALUATED: Cycle := PROPOSED.(registering := false, cut := true, marking := Marking([]))

  const MARKED: World := ASKED.(cycles := [EVALUATED], pending := map["t" := 0], log := [Accept(0, PROPOSAL, 0)])

  lemma MatchIsMarked()
    ensures Reachable(MARKED)
  {
    ProposalIsSent();
    SingleIsAccepted();
    var w0 := ASKED.(cycles := [PROPOSED.(registering := false, cut := true)]);
    var w1 := ASKED.(cycles := [EVALUATED.(marking := Marking([INPUT]))]);
    Reach(w0, w1, OfCycle(0, Evaluate([INPUT])));
    assert [INPUT][1..] == [];
    assert w1.pending + (map t | t in PROPOSAL.tickets :: w1.now) == MARKED.pending;
    Reach(w1, MARKED, OfCycle(0, Mark));
  }

  /** The cycle is over, its token is back, its match is logged, and its ticket is hidden. */
  lemma CycleCompletes() returns (w: World)
    ensures Reachable(w) && w.token == 1
    ensures w.cycles == [EVALUATED.(marking := Marked, cleaned := true, ended := true)]
    ensures w.log == [Accept(0, PROPOSAL, 0), Release({})] && "t" in w.index && HiddenAt(w, P) == {"t"}
  {
    MatchIsMarked();
    var w1 := MARKED.(cycles := [EVALUATED.(marking := Marked)]);
    Reach(MARKED, w1, OfCycle(0, MarkingDone));
    var w2 := w1.(cycles := [EVALUATED.(marking := Marked, cleaned := true)], log := w1.log + [Release({})]);
    assert w1.pending - {} == w1.pending;
    Reach(w1, w2, OfCycle(0, Cleanup({})));
    w := w2.(token := 1, cycles := [EVALUATED.(marking := Marked, cleaned := true, ended := true)]);
    Reach(w2, w, OfCycle(0, EndCycle));
  }

  /** A cycle whose evaluator fails comes to its end too, and accepts nothing. */
  lemma FailedCycleCompletes() returns (w: World)
    ensures Reachable(w) && w.token == 1 && w.log == [Release({})] && w.pending == map[]
    ensures w.cycles == [OPEN.(registering := false, marking := Marked, cleaned := true, ended := true)]
  {
    CallerJoins();
    var w1 := JOINED.(cycles := [OPEN.(registering := false)]);
    Reach(JOINED, w1, OfCycle(0, CloseRegistration));
    var w2 := w1.(cycles := [OPEN.(registering := false, marking := Marked)]);
    Reach(w1, w2, OfCycle(0, EvaluatorFails));
    var w3 := w2.(cycles := [OPEN.(registering := false, marking := Marked, cleaned := true)], log := [Release({})]);
    assert w2.pending - {} == w2.pending && [] + [Release({})] == [Release({})];
    Reach(w2, w3, OfCycle(0, Cleanup({})));
    w := w3.(token := 1, cycles := [OPEN.(registering := false, marking := Marked, cleaned := true, ended := true)]);
    Reach(w3, w, OfCycle(0, EndCycle));
  }
}
