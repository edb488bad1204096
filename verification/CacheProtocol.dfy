/** The query cache's request protocol: concurrent requests are gathered by one runRequest,
    which refreshes the cache and then lets the gathered requests read it.  Channel
    rendezvous, WaitGroup operations and context cancellations are atomic steps and
    interleave freely. */
module CacheProtocol {

  /** A call of request(). `since`: how many updates had begun when it was handed to a runRequest.
      `seen`: the number of the update whose result it reads. */
  datatype Request =
    | Sending
    | Handed(since: nat)
    | Reading(since: nat, seen: nat)
    | Returned

  /** A call of runRequest(), with the requests it has gathered and not yet dealt with. */
  datatype Runner =
    | Gathering(reqs: seq<nat>)
    | Updating(reqs: seq<nat>, u: nat)
    | Granting(reqs: seq<nat>, u: nat, added: bool)
    | Exiting

  /** token: values in startRunRequest. wg: the WaitGroup's counter. done: cancelled contexts.
      updates: how many cache updates have begun. */
  datatype State = State(
    token: nat, runners: map<nat, Runner>, requests: map<nat, Request>, wg: int, done: set<nat>, updates: nat)

  const START: State := State(1, map[], map[], 0, {}, 0)

  datatype Step =
    | Arrive(q: nat)
    | Cancel(q: nat)
    | GiveUp(q: nat)
    | StartRunner(q: nat, r: nat)
    | Hand(q: nat, r: nat)
    | BeginUpdate(r: nat)
    | EndUpdate(r: nat)
    | AddWg(r: nat)
    | Grant(r: nat)
    | Skip(r: nat)
    | StopWaiting(q: nat)
    | FinishRead(q: nat)
    | WgZero(r: nat)
    | ReturnToken(r: nat)

  ghost function SetRunner(s: State, r: nat, x: Runner): State {
    s.(runners := s.runners[r := x])
  }

  ghost function SetRequest(s: State, q: nat, x: Request): State {
    s.(requests := s.requests[q := x])
  }

  /** Steps of a request. */
  ghost predicate RequestStep(s: State, s': State, step: Step) {
    match step
    case Arrive(q) => q !in s.requests && s' == SetRequest(s, q, Sending)
    case Cancel(q) => s' == s.(done := s.done + {q})
    case GiveUp(q) => q in s.requests && s.requests[q] == Sending && q in s.done && s' == SetRequest(s, q, Returned)
    case StartRunner(q, r) =>
      && q in s.requests && s.requests[q] == Sending && s.token > 0 && r !in s.runners
      && s' == SetRunner(s, r, Gathering([])).(token := s.token - 1)
    case StopWaiting(q) =>
      && q in s.requests && s.requests[q].Handed? && q in s.done
      && s' == SetRequest(s, q, Returned)
    case FinishRead(q) =>
      && q in s.requests && s.requests[q].Reading?
      && s' == SetRequest(s, q, Returned).(wg := s.wg - 1)
    case _ => false
  }

  /** Steps of a runRequest, some of them a rendezvous with a request. */
  ghost predicate RunnerStep(s: State, s': State, step: Step) {
    match step
    case Hand(q, r) =>
      && q in s.requests && s.requests[q] == Sending && r in s.runners && s.runners[r].Gathering?
      && s' == SetRequest(SetRunner(s, r, Gathering(s.runners[r].reqs + [q])), q, Handed(s.updates))
    case BeginUpdate(r) =>
      && r in s.runners && s.runners[r].Gathering? && s.runners[r].reqs != []
      && s' == SetRunner(s, r, Updating(s.runners[r].reqs, s.updates + 1)).(updates := s.updates + 1)
    case EndUpdate(r) =>
      && r in s.runners && s.runners[r].Updating?
      && s' == SetRunner(s, r, Granting(s.runners[r].reqs, s.runners[r].u, false))
    case AddWg(r) =>
      && r in s.runners && s.runners[r].Granting? && s.runners[r].reqs != [] && !s.runners[r].added
      && s' == SetRunner(s, r, s.runners[r].(added := true)).(wg := s.wg + 1)
    case Grant(r) =>
      && r in s.runners && s.runners[r].Granting? && s.runners[r].reqs != [] && s.runners[r].added
      && var g := s.runners[r];
         && g.reqs[0] in s.requests && s.requests[g.reqs[0]].Handed?
         && s' == SetRequest(SetRunner(s, r, Granting(g.reqs[1..], g.u, false)), g.reqs[0],
                             Reading(s.requests[g.reqs[0]].since, g.u))
    case Skip(r) =>
      && r in s.runners && s.runners[r].Granting? && s.runners[r].reqs != [] && s.runners[r].added
      && s.runners[r].reqs[0] in s.done
      && s' == SetRunner(s, r, Granting(s.runners[r].reqs[1..], s.runners[r].u, false)).(wg := s.wg - 1)
    case WgZero(r) =>
      && r in s.runners && s.runners[r].Granting? && s.runners[r].reqs == [] && s.wg == 0
      && s' == SetRunner(s, r, Exiting)
    case ReturnToken(r) =>
      && r in s.runners && s.runners[r].Exiting?
      && s' == s.(runners := s.runners - {r}, token := s.token + 1)
    case _ => false
  }

  ghost predicate Next(s: State, s': State, step: Step) {
    RequestStep(s, s', step) || RunnerStep(s, s', step)
  }

  ghost predicate IsRun(run: seq<State>, steps: seq<Step>) {
    && |run| == |steps| + 1
    && run[0] == START
    && forall i :: 0 <= i < |steps| ==> Next(run[i], run[i + 1], steps[i])
  }

  // ---------------------------------------------------------------- invariants

  ghost function Readers(requests: map<nat, Request>): set<nat> {
    set q | q in requests && requests[q].Reading?
  }

  /** The grant in progress: its WaitGroup increment is made, its rendezvous is not. */
  ghost predicate Adding(s: State) {
    exists r :: r in s.runners && s.runners[r].Granting? && s.runners[r].added
  }

  ghost predicate OneRunner(s: State) {
    s.token + |s.runners| == 1
  }

  ghost predicate WgCounts(s: State) {
    && s.wg == |Readers(s.requests)| + (if Adding(s) then 1 else 0)
    && (forall r :: r in s.runners && s.runners[r].Granting? && s.runners[r].added ==> s.runners[r].reqs != [])
  }

  /** Readers exist only while their runRequest is handing out grants or waiting for them. */
  ghost predicate ReadersOfRunner(s: State) {
    forall q :: q in s.requests && s.requests[q].Reading? ==>
      && s.requests[q].since < s.requests[q].seen
      && (exists r :: r in s.runners && s.runners[r].Granting? && s.runners[r].u == s.requests[q].seen)
  }

  /** Gathered requests were handed over before the update they wait for. */
  ghost predicate Timely(requests: map<nat, Request>, reqs: seq<nat>, limit: nat) {
    forall q :: q in reqs ==>
      q in requests && requests[q] != Sending && (requests[q].Handed? ==> requests[q].since < limit)
  }

  ghost predicate GatheredInTime(s: State) {
    forall r :: r in s.runners && !s.runners[r].Exiting? ==>
      if s.runners[r].Gathering? then Timely(s.requests, s.runners[r].reqs, s.updates + 1)
      else Timely(s.requests, s.runners[r].reqs, s.runners[r].u)
  }

  ghost predicate Inv(s: State) {
    OneRunner(s) && WgCounts(s) && ReadersOfRunner(s) && GatheredInTime(s)
  }

  // ---------------------------------------------------------------- every step keeps the invariants

  lemma SubsetSize(a: set<nat>, b: set<nat>)
    requires a <= b
    ensures |a| <= |b|
  {
    assert b == a + (b - a);
  }

  lemma SameRunner(s: State, a: nat, b: nat)
    requires OneRunner(s) && a in s.runners && b in s.runners
    ensures a == b
  {
    assert |s.runners.Keys| == |s.runners|;
    if a != b {
      SubsetSize({a, b}, s.runners.Keys);
    }
  }

  /** With a token in the channel there is no runRequest. */
  lemma NoRunner(s: State, r: nat)
    requires OneRunner(s) && s.token > 0
    ensures r !in s.runners
  {
    assert |s.runners.Keys| == |s.runners|;
  }

  lemma OneRunnerStep(s: State, s': State, step: Step)
    requires OneRunner(s) && Next(s, s', step)
    ensures OneRunner(s')
  {
    if step.StartRunner? && RequestStep(s, s', step) {
      assert s'.runners.Keys == s.runners.Keys + {step.r};
      assert |s'.runners| == |s'.runners.Keys|;
    } else if RunnerStep(s, s', step) {
      if step.ReturnToken? {
        assert s'.runners.Keys == s.runners.Keys - {step.r};
        assert |s'.runners| == |s'.runners.Keys| && |s.runners| == |s.runners.Keys|;
      } else {
        assert s'.runners.Keys == s.runners.Keys;
        assert |s'.runners| == |s'.runners.Keys| && |s.runners| == |s.runners.Keys|;
      }
    }
  }

  lemma GatheredRequestStep(s: State, s': State, step: Step)
    requires OneRunner(s) && GatheredInTime(s) && RequestStep(s, s', step)
    ensures GatheredInTime(s')
  {
    forall r | r in s'.runners && !s'.runners[r].Exiting? ensures
      if s'.runners[r].Gathering? then Timely(s'.requests, s'.runners[r].reqs, s'.updates + 1)
      else Timely(s'.requests, s'.runners[r].reqs, s'.runners[r].u)
    {
      assert r in s.runners || s'.runners[r].reqs == [];
    }
  }

  lemma GatheredRunnerStep(s: State, s': State, step: Step)
    requires OneRunner(s) && GatheredInTime(s) && RunnerStep(s, s', step)
    ensures GatheredInTime(s')
  {
    forall r | r in s'.runners && !s'.runners[r].Exiting? ensures
      if s'.runners[r].Gathering? then Timely(s'.requests, s'.runners[r].reqs, s'.updates + 1)
      else Timely(s'.requests, s'.runners[r].reqs, s'.runners[r].u)
    {
      SameRunner(s, r, step.r);
      assert !s.runners[r].Exiting?;
    }
  }

  lemma ReadersRequestStep(s: State, s': State, step: Step)
    requires OneRunner(s) && ReadersOfRunner(s) && RequestStep(s, s', step)
    ensures ReadersOfRunner(s')
  {
    forall q | q in s'.requests && s'.requests[q].Reading? ensures
      && s'.requests[q].since < s'.requests[q].seen
      && exists r :: r in s'.runners && s'.runners[r].Granting? && s'.runners[r].u == s'.requests[q].seen
    {
      assert q in s.requests && s.requests[q] == s'.requests[q];
      var r :| r in s.runners && s.runners[r].Granting? && s.runners[r].u == s.requests[q].seen;
      assert r in s'.runners && s'.runners[r] == s.runners[r];
    }
  }

  /** While anything reads, the one runRequest is past its update. */
  lemma ReaderMeansGranting(s: State, q: nat, r: nat)
    requires OneRunner(s) && ReadersOfRunner(s) && q in s.requests && s.requests[q].Reading? && r in s.runners
    ensures s.runners[r].Granting? && s.runners[r].u == s.requests[q].seen
  {
    var x :| x in s.runners && s.runners[x].Granting? && s.runners[x].u == s.requests[q].seen;
    SameRunner(s, x, r);
  }

  lemma ReadersRunnerStep(s: State, s': State, step: Step)
    requires Inv(s) && RunnerStep(s, s', step)
    ensures ReadersOfRunner(s')
  {
    if step.WgZero? {
      NoReadersAtZero(s);
    } else {
      forall q | q in s'.requests && s'.requests[q].Reading? ensures
        && s'.requests[q].since < s'.requests[q].seen
        && exists r :: r in s'.runners && s'.runners[r].Granting? && s'.runners[r].u == s'.requests[q].seen
      {
        if q in s.requests && s.requests[q].Reading? {
          ReaderMeansGranting(s, q, step.r);
        }
        assert step.r in s'.runners && s'.runners[step.r].Granting?;
      }
    }
  }

  lemma NoReadersAtZero(s: State)
    requires WgCounts(s) && s.wg == 0
    ensures forall q :: q in s.requests ==> !s.requests[q].Reading?
  {
    assert Readers(s.requests) == {};
    forall q | q in s.requests ensures !s.requests[q].Reading? {
      assert q !in Readers(s.requests);
    }
  }

  lemma WgRequestStep(s: State, s': State, step: Step)
    requires OneRunner(s) && WgCounts(s) && RequestStep(s, s', step)
    ensures WgCounts(s')
  {
    assert Adding(s') == Adding(s) by {
      if step.StartRunner? {
        forall r ensures r !in s.runners { NoRunner(s, r); }
      }
    }
    if step.FinishRead? {
      assert Readers(s'.requests) == Readers(s.requests) - {step.q};
    } else {
      assert Readers(s'.requests) == Readers(s.requests);
    }
  }

  lemma ReadersUpdated(requests: map<nat, Request>, q: nat, v: Request)
    requires q in requests && !requests[q].Reading?
    ensures |Readers(requests[q := v])| == |Readers(requests)| + if v.Reading? then 1 else 0
  {
    assert q !in Readers(requests);
    if v.Reading? {
      assert Readers(requests[q := v]) == Readers(requests) + {q};
    } else {
      assert Readers(requests[q := v]) == Readers(requests);
    }
  }

  lemma ReadersAfterRunnerStep(s: State, s': State, step: Step)
    requires RunnerStep(s, s', step)
    ensures |Readers(s'.requests)| == |Readers(s.requests)| + if step.Grant? then 1 else 0
  {
    if step.Grant? {
      var q := s.runners[step.r].reqs[0];
      ReadersUpdated(s.requests, q, s'.requests[q]);
    } else if step.Hand? {
      ReadersUpdated(s.requests, step.q, s'.requests[step.q]);
    } else {
      assert s'.requests == s.requests;
    }
  }

  lemma WgRunnerStep(s: State, s': State, step: Step)
    requires OneRunner(s) && WgCounts(s) && RunnerStep(s, s', step)
    ensures WgCounts(s')
  {
    ReadersAfterRunnerStep(s, s', step);
    forall r | r in s.runners ensures r == step.r { SameRunner(s, r, step.r); }
    if step.r in s'.runners {
      assert Adding(s') == (s'.runners[step.r].Granting? && s'.runners[step.r].added);
    }
    assert Adding(s) == (s.runners[step.r].Granting? && s.runners[step.r].added);
  }

  lemma InvStep(s: State, s': State, step: Step)
    requires Inv(s) && Next(s, s', step)
    ensures Inv(s')
  {
    OneRunnerStep(s, s', step);
    if RequestStep(s, s', step) {
      GatheredRequestStep(s, s', step);
      ReadersRequestStep(s, s', step);
      WgRequestStep(s, s', step);
    } else {
      GatheredRunnerStep(s, s', step);
      ReadersRunnerStep(s, s', step);
      WgRunnerStep(s, s', step);
    }
  }

  lemma {:induction false} InvOfRun(run: seq<State>, steps: seq<Step>, n: nat)
    requires IsRun(run, steps) && n < |run|
    ensures Inv(run[n])
  {
    if n > 0 {
      InvOfRun(run, steps, n - 1);
      InvStep(run[n - 1], run[n], steps[n - 1]);
    } else {
      assert Readers(START.requests) == {};
    }
  }

  // ---------------------------------------------------------------- main results, over every run

  /** There is one start token or one runRequest, and the WaitGroup counts exactly the granted
      readers that have not finished, plus the grant in progress. */
  lemma TokenAndWaitGroup(run: seq<State>, steps: seq<Step>, n: nat)
    requires IsRun(run, steps) && n < |run|
    ensures run[n].token + |run[n].runners| == 1
    ensures run[n].wg == |Readers(run[n].requests)| + (if Adding(run[n]) then 1 else 0)
  {
    InvOfRun(run, steps, n);
  }

  /** No request reads the cache while an update is writing it. */
  lemma NoReadDuringUpdate(run: seq<State>, steps: seq<Step>, n: nat, q: nat, r: nat)
    requires IsRun(run, steps) && n < |run|
    requires q in run[n].requests && run[n].requests[q].Reading? && r in run[n].runners
    ensures !run[n].runners[r].Updating?
  {
    InvOfRun(run, steps, n);
    ReaderMeansGranting(run[n], q, r);
  }

  /** A reader sees the newest update, and that update began after the request was handed over. */
  lemma ReadsLaterUpdate(run: seq<State>, steps: seq<Step>, n: nat, q: nat)
    requires IsRun(run, steps) && n < |run| && q in run[n].requests && run[n].requests[q].Reading?
    ensures run[n].requests[q].since < run[n].requests[q].seen == run[n].updates
  {
    InvOfRun(run, steps, n);
    NewestUpdate(run, steps, n);
  }

  lemma {:induction false} NewestUpdate(run: seq<State>, steps: seq<Step>, n: nat)
    requires IsRun(run, steps) && n < |run|
    ensures forall r :: r in run[n].runners && (run[n].runners[r].Updating? || run[n].runners[r].Granting?) ==>
              run[n].runners[r].u == run[n].updates
  {
    if n == 0 {
    } else {
      NewestUpdate(run, steps, n - 1);
      InvOfRun(run, steps, n - 1);
      assert Next(run[n - 1], run[n], steps[n - 1]);
      forall r | r in run[n].runners && (run[n].runners[r].Updating? || run[n].runners[r].Granting?)
        ensures run[n].runners[r].u == run[n].updates
      {
        if RunnerStep(run[n - 1], run[n], steps[n - 1]) {
          SameRunner(run[n - 1], r, steps[n - 1].r);
        }
      }
    }
  }
}
