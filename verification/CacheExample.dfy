/** One request served from start to end: the protocol is not stuck at any stage. */
module CacheExample {
  import opened CacheProtocol

  ghost predicate Reachable(s: State) {
    exists run, steps :: IsRun(run, steps) && run[|run| - 1] == s
  }

  lemma Reach(s: State, s': State, step: Step)
    requires Reachable(s) && Next(s, s', step)
    ensures Reachable(s')
  {
    var run, steps :| IsRun(run, steps) && run[|run| - 1] == s;
    assert IsRun(run + [s'], steps + [step]);
  }

  /** Request 0 has started runRequest 0, which is updating the cache for it. */
  const UPDATING: State := State(0, map[0 := Updating([0], 1)], map[0 := Handed(0)], 0, {}, 1)

  lemma RequestIsGathered()
    ensures Reachable(UPDATING)
  {
    assert Reachable(START) by {
      assert IsRun([START], []);
    }
    var s1 := START.(requests := map[0 := Sending]);
    Reach(START, s1, Arrive(0));
    var s2 := s1.(token := 0, runners := map[0 := Gathering([])]);
    Reach(s1, s2, StartRunner(0, 0));
    var s3 := s2.(runners := map[0 := Gathering([0])], requests := map[0 := Handed(0)]);
    assert [] + [0] == [0];
    Reach(s2, s3, Hand(0, 0));
    Reach(s3, UPDATING, BeginUpdate(0));
  }

  /** Request 0 reads the result of update 1. */
  const READING: State := State(0, map[0 := Granting([], 1, false)], map[0 := Reading(0, 1)], 1, {}, 1)

  lemma RequestReads()
    ensures Reachable(READING)
  {
    RequestIsGathered();
    var s1 := UPDATING.(runners := map[0 := Granting([0], 1, false)]);
    Reach(UPDATING, s1, EndUpdate(0));
    var s2 := s1.(runners := map[0 := Granting([0], 1, true)], wg := 1);
    Reach(s1, s2, AddWg(0));
    assert s2.runners[0].reqs[1..] == [];
    Reach(s2, READING, Grant(0));
  }

  /** The request has returned and the start token is back. */
  lemma RequestReturns() returns (s: State)
    ensures Reachable(s) && s == State(1, map[], map[0 := Returned], 0, {}, 1)
  {
    RequestReads();
    var s1 := READING.(requests := map[0 := Returned], wg := 0);
    Reach(READING, s1, FinishRead(0));
    var s2 := s1.(runners := map[0 := Exiting]);
    Reach(s1, s2, WgZero(0));
    s := s2.(runners := map[], token := 1);
    Reach(s2, s, ReturnToken(0));
  }
}
