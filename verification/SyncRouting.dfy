/** Where a synchronizer cycle sends an accepted id, also when callers reuse match ids. */
module SyncRouting {
  import opened Domain
  import E = DefaultEvaluator
  import opened SyncPipeline

  /** The position of the last proposal with the id. */
  ghost function LastWith(log: seq<Sent>, id: MatchId): (l: Option<nat>)
    ensures l.None? <==> forall i :: 0 <= i < |log| ==> log[i].m.id != id
    ensures l.Some? ==> l.value < |log| && log[l.value].m.id == id
    ensures l.Some? ==> forall i :: l.value < i < |log| ==> log[i].m.id != id
  {
    if log == [] then None
    else if log[|log| - 1].m.id == id then Some(|log| - 1)
    else LastWith(log[..|log| - 1], id)
  }

  /** The proposals fanInFanOut has taken in. */
  ghost function FannedIn(f: Front): seq<Sent> {
    if |f.m2| <= |f.log| then f.log[..|f.log| - |f.m2|] else []
  }

  // ---------------------------------------------------------------- the route map

  /** The route map holds exactly the fanned-in ids, each with the call of its latest proposal. */
  ghost predicate RoutesLatest(f: Front) {
    && |f.m2| <= |f.log| && f.log[|f.log| - |f.m2|..] == f.m2
    && forall id :: LatestFor(f.route, FannedIn(f), id)
  }

  ghost predicate LatestFor(route: map<MatchId, Call>, fanned: seq<Sent>, id: MatchId) {
    var l := LastWith(fanned, id);
    if l.None? then id !in route else id in route && route[id] == fanned[l.value].call
  }

  lemma FanInLatest(route: map<MatchId, Call>, fanned: seq<Sent>, x: Sent, id: MatchId)
    requires LatestFor(route, fanned, id)
    ensures LatestFor(route[x.m.id := x.call], fanned + [x], id)
  {
    assert (fanned + [x])[..|fanned|] == fanned;
  }

  lemma RoutesStep(f: Front, f': Front, step: FrontStep)
    requires RoutesLatest(f) && FrontNext(f, f', true, step)
    ensures RoutesLatest(f')
  {
    if step.FanIn? {
      var x := f.m2[0];
      assert x == f.log[|f.log| - |f.m2|];
      assert FannedIn(f') == FannedIn(f) + [x];
      forall id ensures LatestFor(f'.route, FannedIn(f'), id) {
        FanInLatest(f.route, FannedIn(f), x, id);
      }
    } else {
      assert FannedIn(f') == FannedIn(f) && f'.route == f.route;
    }
  }

  // ---------------------------------------------------------------- what the evaluator was sent

  /** The evaluator was sent a beginning of the fanned-in proposals, no id twice. */
  ghost predicate SentFirst(s: Pipe) {
    && |s.c.sent| <= |FannedIn(s.f)|
    && (forall i :: 0 <= i < |s.c.sent| ==> s.c.sent[i] == FannedIn(s.f)[i].m)
    && (forall i, j :: 0 <= i < j < |s.c.sent| ==> s.c.sent[i].id != s.c.sent[j].id)
    && KnownAreSent(s.c)
  }

  ghost predicate KnownAreSent(c: Client) {
    forall id :: id in c.known <==> exists i :: 0 <= i < |c.sent| && c.sent[i].id == id
  }

  lemma SendKeepsKnown(c: Client, m: E.Match)
    requires KnownAreSent(c)
    ensures KnownAreSent(c.(known := c.known[m.id := true], sent := c.sent + [m]))
  {
    var sent := c.sent + [m];
    assert sent[|c.sent|] == m;
    forall id | id in c.known ensures exists i :: 0 <= i < |sent| && sent[i].id == id {
      var i :| 0 <= i < |c.sent| && c.sent[i].id == id;
      assert sent[i].id == id;
    }
  }

  lemma FannedInGrows(f: Front, f': Front, step: FrontStep)
    requires RoutesLatest(f) && FrontNext(f, f', true, step)
    ensures FannedIn(f) <= FannedIn(f')
  {
  }

  /** The next proposal the client takes is the next fanned-in one. */
  lemma NextToSend(s: Pipe)
    requires InOrder(s) && RoutesLatest(s.f) && s.fanOpen && s.c.sendLive && s.f.m4 != [] && SentFirst(s)
    ensures |s.c.sent| < |FannedIn(s.f)| && FannedIn(s.f)[|s.c.sent|].m == s.f.m4[0]
  {
    var k := |s.c.sent|;
    var all := s.c.sent + s.f.m4 + s.f.m3 + Matches(s.f.m2);
    assert all[k] == s.f.m4[0];
    assert Matches(s.f.log)[k] == s.f.log[k].m;
    assert |all| == |s.f.log|;
  }

  lemma SentStep(s: Pipe, s': Pipe, step: ClientStep)
    requires InOrder(s) && RoutesLatest(s.f) && s.fanOpen && SentFirst(s) && ClientNext(s, s', step)
    ensures SentFirst(s')
  {
    if step.Send? {
      NextToSend(s);
      assert FannedIn(s'.f) == FannedIn(s.f);
      SendKeepsKnown(s.c, s.f.m4[0]);
    }
  }

  /** While the fan is open. */
  ghost predicate Tracked(s: Pipe) {
    s.fanOpen ==> RoutesLatest(s.f) && SentFirst(s)
  }

  lemma TrackedStep(s: Pipe, s': Pipe, step: Step)
    requires InOrder(s) && Tracked(s) && Next(s, s', step)
    ensures Tracked(s')
  {
    if s.fanOpen {
      match step
      case OfFront(fs) =>
        RoutesStep(s.f, s'.f, fs);
        FannedInGrows(s.f, s'.f, fs);
      case OfClient(cs) =>
        SentStep(s, s', cs);
        assert s'.f == s.f.(m4 := s'.f.m4);
      case OfBack(bs) =>
        assert s'.f == s.f && s'.c == s.c;
    }
  }

  lemma {:induction false} TrackedOfRun(run: seq<Pipe>, steps: seq<Step>, n: nat)
    requires IsRun(run, steps) && n < |run|
    ensures Tracked(run[n])
  {
    if n == 0 {
    } else {
      TrackedOfRun(run, steps, n - 1);
      InvOfRun(run, steps, n - 1);
      TrackedStep(run[n - 1], run[n], steps[n - 1]);
    }
  }

  // ---------------------------------------------------------------- main results

  /** While the fan is open an id is routed exactly when a proposal with it was fanned in, and then to
      the call of the latest such proposal. */
  lemma RouteIsLatest(run: seq<Pipe>, steps: seq<Step>, n: nat, id: MatchId)
    requires IsRun(run, steps) && n < |run| && run[n].fanOpen
    ensures var l := LastWith(FannedIn(run[n].f), id);
            && (id in run[n].f.route <==> l.Some?)
            && (l.Some? ==> run[n].f.route[id] == FannedIn(run[n].f)[l.value].call)
  {
    TrackedOfRun(run, steps, n);
    assert LatestFor(run[n].f.route, FannedIn(run[n].f), id);
  }

  /**
   * The proposal behind an answer is the one fanned-in proposal with its id that the evaluator was
   * sent, which is the first with that id. The answer is sent to the call of the last one, so it
   * reaches the call whose proposal was evaluated exactly when the last proposal with that id fanned
   * in so far is that call's too.
   */
  lemma AnsweredIffNotOvertaken(run: seq<Pipe>, steps: seq<Step>, n: nat) returns (e: nat, l: nat)
    requires IsRun(run, steps) && n < |steps| && steps[n] == OfBack(FanOut)
    ensures run[n].b.m6 != []
    ensures var fanned, id := FannedIn(run[n].f), run[n].b.m6[0];
            && e <= l < |fanned| && e < |run[n].c.sent| && fanned[e].m == run[n].c.sent[e]
            && fanned[e].m.id == id && (forall i :: 0 <= i < e ==> fanned[i].m.id != id)
            && fanned[l].m.id == id && (forall i :: l < i < |fanned| ==> fanned[i].m.id != id)
            && run[n + 1].b.m7 == run[n].b.m7 + [Routed(fanned[l].call, id)]
            && (run[n + 1].b.m7 == run[n].b.m7 + [Routed(fanned[e].call, id)] <==> fanned[l].call == fanned[e].call)
  {
    assert Next(run[n], run[n + 1], steps[n]);
    TrackedOfRun(run, steps, n);
    var s := run[n];
    var id := s.b.m6[0];
    AnswerIsKnown(run, steps, n);
    RouteIsLatest(run, steps, n, id);
    e :| 0 <= e < |s.c.sent| && s.c.sent[e].id == id;
    l := LastWith(FannedIn(s.f), id).value;
    assert Routed(FannedIn(s.f)[l].call, id) == run[n + 1].b.m7[|s.b.m7|];
  }

  lemma AnswerIsKnown(run: seq<Pipe>, steps: seq<Step>, n: nat)
    requires IsRun(run, steps) && n < |run| && run[n].b.m6 != []
    ensures run[n].b.m6[0] in run[n].c.known && run[n].b.m6[0] in run[n].f.route
  {
    InvOfRun(run, steps, n);
    var b := run[n].b;
    assert run[n].c.accepted[|b.m7|] == b.m6[0];
  }
}
