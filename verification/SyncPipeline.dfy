/** One synchronizer cycle's channel pipeline, stage by stage.  A channel together with the
    items its goroutines hold is a FIFO queue; every send, receive, store call and evaluator
    message is an atomic step, and steps of different goroutines interleave freely. */
module SyncPipeline {
  import opened Domain
  import E = DefaultEvaluator

  type Call = nat

  datatype Sent = Sent(call: Call, m: E.Match)

  datatype Routed = Routed(call: Call, id: MatchId)

  /** From the callers to the evaluator client: cutoffSender, the fan-in half of fanInFanOut,
      and cacheMatchIDToTicketIDs.  `log` is the history of proposals that passed the cutoff. */
  datatype Front = Front(
    cut: bool, m2: seq<Sent>, route: map<MatchId, Call>, m3: seq<E.Match>,
    tix: map<MatchId, seq<TicketId>>, m4: seq<E.Match>, log: seq<Sent>)

  /** The evaluator client: its match-id map, its two goroutines, and what it sent and accepted. */
  datatype Client = Client(
    known: map<MatchId, bool>, sendLive: bool, recvLive: bool, sent: seq<E.Match>, accepted: seq<MatchId>)

  /** addMatchesToPendingRelease: waiting for a batch, in the store call, or forwarding the batch. */
  datatype Hand = Idle | Calling(batch: seq<MatchId>, ids: set<TicketId>) | Forwarding(rest: seq<MatchId>)

  /** From the evaluator client back to the callers. `covered` and `marked` are the tickets in a
      returned and in a successful store call; `lostTickets` and `lostRoutes` count the runs of
      the two "unknown id" error branches. */
  datatype Back = Back(
    m5: seq<MatchId>, m5Closed: bool, hand: Hand, m6: seq<MatchId>, m6Closed: bool,
    m7: seq<Routed>, delivered: map<Call, nat>, covered: set<TicketId>, marked: set<TicketId>,
    lostTickets: nat, lostRoutes: nat)

  /** fanOpen: fanInFanOut is still selecting on both its inputs. */
  datatype Pipe = Pipe(f: Front, c: Client, b: Back, fanOpen: bool)

  const EMPTY: Pipe := Pipe(
    Front(false, [], map[], [], map[], [], []),
    Client(map[], true, true, [], []),
    Back([], false, Idle, [], false, [], map[], {}, {}, 0, 0),
    true)

  datatype FrontStep = Submit(call: Call, m: E.Match) | Cutoff | FanIn | Drain | CacheTickets
  datatype ClientStep = Send | SendStops | Recv(id: MatchId) | RecvStops
  datatype BackStep =
    | CloseM5
    | TakeBatch(n: nat)
    | StoreReturns(ok: bool)
    | Forward
    | BatchDone
    | CloseM6
    | FanOut
    | FanStops
    | Deliver(call: Call)
  datatype Step = OfFront(fs: FrontStep) | OfClient(cs: ClientStep) | OfBack(bs: BackStep)

  /** The tickets recorded for the ids of a batch, skipping ids with no record. */
  function BatchTickets(tix: map<MatchId, seq<TicketId>>, batch: seq<MatchId>): set<TicketId> {
    set id, t | id in batch && id in tix && t in tix[id] :: t
  }

  function Unrecorded(tix: map<MatchId, seq<TicketId>>, batch: seq<MatchId>): nat {
    if batch == [] then 0
    else Unrecorded(tix, batch[..|batch| - 1]) + (if batch[|batch| - 1] in tix then 0 else 1)
  }

  /** What was sent on one call's channel, in order. */
  ghost function For(m7: seq<Routed>, call: Call): seq<MatchId> {
    if m7 == [] then []
    else For(m7[..|m7| - 1], call) + (if m7[|m7| - 1].call == call then [m7[|m7| - 1].id] else [])
  }

  ghost function DeliveredTo(b: Back, call: Call): nat {
    if call in b.delivered then b.delivered[call] else 0
  }

  ghost predicate FrontNext(f: Front, f': Front, fanOpen: bool, step: FrontStep) {
    match step
    // Proposals sent after the cutoff are ignored.
    case Submit(call, m) =>
      f' == if f.cut then f else f.(m2 := f.m2 + [Sent(call, m)], log := f.log + [Sent(call, m)])
    case Cutoff => f' == f.(cut := true)
    case FanIn =>
      && fanOpen && f.m2 != []
      && f' == f.(m2 := f.m2[1..], route := f.route[f.m2[0].m.id := f.m2[0].call], m3 := f.m3 + [f.m2[0].m])
    case Drain => !fanOpen && f.m2 != [] && f' == f.(m2 := f.m2[1..])
    case CacheTickets =>
      && f.m3 != []
      && f' == f.(m3 := f.m3[1..], tix := f.tix[f.m3[0].id := f.m3[0].tickets], m4 := f.m4 + [f.m3[0]])
  }

  /** The client takes from m4 and appends to m5. */
  ghost predicate ClientNext(s: Pipe, s': Pipe, step: ClientStep) {
    match step
    // A second proposal with a known id fails the evaluator call.
    case Send =>
      && s.c.sendLive && s.f.m4 != []
      && s' == s.(f := s.f.(m4 := s.f.m4[1..]),
                  c := if s.f.m4[0].id in s.c.known then s.c.(sendLive := false)
                       else s.c.(known := s.c.known[s.f.m4[0].id := true], sent := s.c.sent + [s.f.m4[0]]))
    case SendStops => s' == s.(c := s.c.(sendLive := false))
    // The evaluator may answer anything: unknown and repeated ids fail the call.
    case Recv(id) =>
      && s.c.recvLive
      && s' == if id !in s.c.known || !s.c.known[id] then s.(c := s.c.(recvLive := false))
               else s.(c := s.c.(known := s.c.known[id := false], accepted := s.c.accepted + [id]),
                       b := s.b.(m5 := s.b.m5 + [id]))
    case RecvStops => s' == s.(c := s.c.(recvLive := false))
  }

  ghost predicate BackNext(s: Pipe, s': Pipe, step: BackStep) {
    var b := s.b;
    match step
    case CloseM5 => !s.c.sendLive && !s.c.recvLive && s' == s.(b := b.(m5Closed := true))
    // bufferStringChannel hands over any non-empty run of what has arrived.
    case TakeBatch(n) =>
      && b.hand.Idle? && 1 <= n <= |b.m5|
      && s' == s.(b := b.(m5 := b.m5[n..], hand := Calling(b.m5[..n], BatchTickets(s.f.tix, b.m5[..n])),
                          lostTickets := b.lostTickets + Unrecorded(s.f.tix, b.m5[..n])))
    // The batch is forwarded whether or not the store call succeeded.
    case StoreReturns(ok) =>
      && b.hand.Calling?
      && s' == s.(b := b.(hand := Forwarding(b.hand.batch), covered := b.covered + b.hand.ids,
                          marked := if ok then b.marked + b.hand.ids else b.marked))
    case Forward =>
      && b.hand.Forwarding? && b.hand.rest != []
      && s' == s.(b := b.(hand := Forwarding(b.hand.rest[1..]), m6 := b.m6 + [b.hand.rest[0]]))
    case BatchDone => b.hand == Forwarding([]) && s' == s.(b := b.(hand := Idle))
    case CloseM6 => b.m5Closed && b.m5 == [] && b.hand.Idle? && s' == s.(b := b.(m6Closed := true))
    case FanOut =>
      && s.fanOpen && b.m6 != []
      && var id := b.m6[0];
         s' == s.(b := if id in s.f.route then b.(m6 := b.m6[1..], m7 := b.m7 + [Routed(s.f.route[id], id)])
                       else b.(m6 := b.m6[1..], lostRoutes := b.lostRoutes + 1))
    case FanStops => s.fanOpen && b.m6Closed && b.m6 == [] && s' == s.(fanOpen := false)
    case Deliver(call) =>
      && DeliveredTo(b, call) < |For(b.m7, call)|
      && s' == s.(b := b.(delivered := b.delivered[call := DeliveredTo(b, call) + 1]))
  }

  ghost predicate Next(s: Pipe, s': Pipe, step: Step) {
    match step
    case OfFront(fs) => FrontNext(s.f, s'.f, s.fanOpen, fs) && s' == s.(f := s'.f)
    case OfClient(cs) => ClientNext(s, s', cs)
    case OfBack(bs) => BackNext(s, s', bs)
  }

  ghost predicate IsRun(run: seq<Pipe>, steps: seq<Step>) {
    && |run| == |steps| + 1
    && run[0] == EMPTY
    && forall i {:trigger steps[i]} :: 0 <= i < |steps| ==> Next(run[i], run[i + 1], steps[i])
  }

  // ---------------------------------------------------------------- invariants

  ghost function RoutedIds(m7: seq<Routed>): seq<MatchId> {
    seq(|m7|, i requires 0 <= i < |m7| => m7[i].id)
  }

  ghost function Matches(sent: seq<Sent>): seq<E.Match> {
    seq(|sent|, i requires 0 <= i < |sent| => sent[i].m)
  }

  ghost function HandIds(hand: Hand): seq<MatchId> {
    match hand
    case Idle => []
    case Calling(batch, _) => batch
    case Forwarding(rest) => rest
  }

  ghost predicate NoRepeats(ids: seq<MatchId>) {
    forall i, j :: 0 <= i < j < |ids| ==> ids[i] != ids[j]
  }

  /** The client accepts an id at most once, and only one that it sent. */
  ghost predicate AcceptsOnce(c: Client) {
    && NoRepeats(c.accepted)
    && forall id :: id in c.accepted <==> id in c.known && !c.known[id]
  }

  /** Downstream of the evaluator nothing is lost, repeated or reordered. */
  ghost predicate Conserved(accepted: seq<MatchId>, b: Back) {
    && RoutedIds(b.m7) + b.m6 + HandIds(b.hand) + b.m5 == accepted
    && b.lostTickets == 0 && b.lostRoutes == 0
  }

  /** Each stage has recorded an id before the next stage can see it. */
  ghost predicate Recorded(f: Front, known: map<MatchId, bool>) {
    && (forall m :: m in f.m3 ==> m.id in f.route)
    && (forall m :: m in f.m4 ==> m.id in f.tix)
    && (forall id :: id in known ==> id in f.tix)
    && (forall id :: id in f.tix ==> id in f.route)
  }

  ghost predicate ProposedBy(log: seq<Sent>, call: Call, id: MatchId) {
    exists i :: 0 <= i < |log| && log[i].call == call && log[i].m.id == id
  }

  ghost predicate ProposedWith(log: seq<Sent>, id: MatchId, tickets: seq<TicketId>) {
    exists i :: 0 <= i < |log| && log[i].m.id == id && log[i].m.tickets == tickets
  }

  /** Every record goes back to a proposal that was passed on. */
  ghost predicate Traced(f: Front) {
    && (forall x :: x in f.m2 ==> x in f.log)
    && (forall m :: m in f.m3 ==> ProposedWith(f.log, m.id, m.tickets))
    && (forall id :: id in f.route ==> ProposedBy(f.log, f.route[id], id))
    && (forall id :: id in f.tix ==> ProposedWith(f.log, id, f.tix[id]))
  }

  /** Everything sent to a call is an id that call proposed. */
  ghost predicate RoutedHome(log: seq<Sent>, m7: seq<Routed>) {
    forall r :: r in m7 ==> ProposedBy(log, r.call, r.id)
  }

  ghost predicate DistinctIds(log: seq<Sent>) {
    forall i, j :: 0 <= i < j < |log| ==> log[i].m.id != log[j].m.id
  }

  /** Until an error stops it, the evaluator sees every passed proposal, in order. */
  ghost predicate InOrder(s: Pipe) {
    s.fanOpen && s.c.sendLive ==> s.c.sent + s.f.m4 + s.f.m3 + Matches(s.f.m2) == Matches(s.f.log)
  }

  ghost predicate Covers(tickets: set<TicketId>, tix: map<MatchId, seq<TicketId>>, id: MatchId) {
    id in tix && forall t :: t in tix[id] ==> t in tickets
  }

  ghost predicate AllCovered(tickets: set<TicketId>, tix: map<MatchId, seq<TicketId>>, ids: seq<MatchId>) {
    forall id :: id in ids ==> Covers(tickets, tix, id)
  }

  /** Past its store call, a batch has all its tickets covered by a returned call. */
  ghost predicate Covered(tix: map<MatchId, seq<TicketId>>, b: Back) {
    && AllCovered(b.covered, tix, RoutedIds(b.m7))
    && AllCovered(b.covered, tix, b.m6)
    && (b.hand.Calling? ==> AllCovered(b.hand.ids, tix, b.hand.batch))
    && (b.hand.Forwarding? ==> AllCovered(b.covered, tix, b.hand.rest))
  }

  ghost predicate Inv(s: Pipe) {
    && AcceptsOnce(s.c) && Conserved(s.c.accepted, s.b) && Recorded(s.f, s.c.known)
    && Traced(s.f) && RoutedHome(s.f.log, s.b.m7) && InOrder(s)
    && (DistinctIds(s.f.log) ==> Covered(s.f.tix, s.b))
  }

  // ---------------------------------------------------------------- steps of the front half

  lemma ProposalsPersist(log: seq<Sent>, log': seq<Sent>)
    requires log <= log'
    ensures forall call, id :: ProposedBy(log, call, id) ==> ProposedBy(log', call, id)
    ensures forall id, ts :: ProposedWith(log, id, ts) ==> ProposedWith(log', id, ts)
  {
    forall call, id | ProposedBy(log, call, id) ensures ProposedBy(log', call, id) {
      var i :| 0 <= i < |log| && log[i].call == call && log[i].m.id == id;
      assert log'[i] == log[i];
    }
    forall id, ts | ProposedWith(log, id, ts) ensures ProposedWith(log', id, ts) {
      var i :| 0 <= i < |log| && log[i].m.id == id && log[i].m.tickets == ts;
      assert log'[i] == log[i];
    }
  }

  lemma FrontKeepsTraced(f: Front, f': Front, fanOpen: bool, step: FrontStep)
    requires Traced(f) && FrontNext(f, f', fanOpen, step)
    ensures Traced(f') && f.log <= f'.log
  {
    ProposalsPersist(f.log, f'.log);
    if step.FanIn? {
      assert f.m2[0] in f.log;
    }
  }

  lemma FrontKeepsRecorded(f: Front, f': Front, fanOpen: bool, step: FrontStep, known: map<MatchId, bool>)
    requires Recorded(f, known) && FrontNext(f, f', fanOpen, step)
    ensures Recorded(f', known)
  {
  }

  lemma FrontKeepsOrder(s: Pipe, s': Pipe, step: FrontStep)
    requires InOrder(s) && Next(s, s', OfFront(step))
    ensures InOrder(s')
  {
    var f, f' := s.f, s'.f;
    match step {
      case Submit(call, m) =>
        if !f.cut {
          assert Matches(f'.log) == Matches(f.log) + [m];
          assert Matches(f'.m2) == Matches(f.m2) + [m];
        }
      case FanIn =>
        assert Matches(f.m2) == [f.m2[0].m] + Matches(f.m2[1..]);
      case CacheTickets =>
        assert f.m3 == [f.m3[0]] + f.m3[1..];
      case _ =>
    }
  }

  /** With distinct ids, recording a match's tickets never changes what an id already maps to. */
  lemma RecordsAreStable(f: Front, f': Front, fanOpen: bool, step: FrontStep)
    requires Traced(f) && DistinctIds(f.log) && FrontNext(f, f', fanOpen, step)
    ensures forall id :: id in f.tix ==> id in f'.tix && f'.tix[id] == f.tix[id]
  {
    if step.CacheTickets? {
      var m := f.m3[0];
      if m.id in f.tix {
        assert ProposedWith(f.log, m.id, m.tickets) && ProposedWith(f.log, m.id, f.tix[m.id]);
      }
    }
  }

  lemma StableRecordsKeepCover(tix: map<MatchId, seq<TicketId>>, tix': map<MatchId, seq<TicketId>>, b: Back)
    requires Covered(tix, b) && forall id :: id in tix ==> id in tix' && tix'[id] == tix[id]
    ensures Covered(tix', b)
  {
  }

  lemma FrontStepKeepsInv(s: Pipe, s': Pipe, step: FrontStep)
    requires Inv(s) && Next(s, s', OfFront(step))
    ensures Inv(s')
  {
    FrontKeepsTraced(s.f, s'.f, s.fanOpen, step);
    FrontKeepsRecorded(s.f, s'.f, s.fanOpen, step, s.c.known);
    FrontKeepsOrder(s, s', step);
    ProposalsPersist(s.f.log, s'.f.log);
    if DistinctIds(s'.f.log) {
      assert DistinctIds(s.f.log);
      RecordsAreStable(s.f, s'.f, s.fanOpen, step);
      StableRecordsKeepCover(s.f.tix, s'.f.tix, s.b);
    }
  }

  // ---------------------------------------------------------------- steps of the evaluator client

  lemma ClientKeepsAccepts(s: Pipe, s': Pipe, step: ClientStep)
    requires AcceptsOnce(s.c) && Conserved(s.c.accepted, s.b) && ClientNext(s, s', step)
    ensures AcceptsOnce(s'.c) && Conserved(s'.c.accepted, s'.b)
  {
    if step.Recv? && s'.b != s.b {
      var before := RoutedIds(s.b.m7) + s.b.m6 + HandIds(s.b.hand);
      assert before + (s.b.m5 + [step.id]) == before + s.b.m5 + [step.id];
    }
  }

  lemma ClientKeepsOrder(s: Pipe, s': Pipe, step: ClientStep)
    requires InOrder(s) && ClientNext(s, s', step)
    ensures InOrder(s')
  {
    if step.Send? {
      assert s.f.m4 == [s.f.m4[0]] + s.f.m4[1..];
    }
  }

  lemma ClientKeepsRecorded(s: Pipe, s': Pipe, step: ClientStep)
    requires Recorded(s.f, s.c.known) && Traced(s.f) && ClientNext(s, s', step)
    ensures Recorded(s'.f, s'.c.known) && Traced(s'.f)
  {
  }

  lemma ClientStepKeepsInv(s: Pipe, s': Pipe, step: ClientStep)
    requires Inv(s) && Next(s, s', OfClient(step))
    ensures Inv(s')
  {
    ClientKeepsAccepts(s, s', step);
    ClientKeepsOrder(s, s', step);
    ClientKeepsRecorded(s, s', step);
    assert s'.b == s.b.(m5 := s'.b.m5) && s'.f == s.f.(m4 := s'.f.m4);
  }

  // ---------------------------------------------------------------- steps of the back half

  lemma {:induction false} AllRecorded(tix: map<MatchId, seq<TicketId>>, batch: seq<MatchId>)
    requires forall id :: id in batch ==> id in tix
    ensures Unrecorded(tix, batch) == 0
  {
    if batch == [] {
    } else {
      AllRecorded(tix, batch[..|batch| - 1]);
    }
  }

  /** An id on its way back has been recorded by both maps. */
  ghost predicate RecordedIn(f: Front, ids: seq<MatchId>) {
    forall id :: id in ids ==> id in f.tix && id in f.route
  }

  lemma BatchConserved(accepted: seq<MatchId>, b: Back, n: nat, tix: map<MatchId, seq<TicketId>>)
    requires Conserved(accepted, b) && b.hand.Idle? && n <= |b.m5| && forall id :: id in accepted ==> id in tix
    ensures Conserved(accepted, b.(m5 := b.m5[n..], hand := Calling(b.m5[..n], BatchTickets(tix, b.m5[..n])),
                                   lostTickets := b.lostTickets + Unrecorded(tix, b.m5[..n])))
  {
    assert b.m5 == b.m5[..n] + b.m5[n..];
    assert forall id :: id in b.m5[..n] ==> id in accepted;
    AllRecorded(tix, b.m5[..n]);
  }

  lemma ForwardConserved(accepted: seq<MatchId>, b: Back)
    requires Conserved(accepted, b) && b.hand.Forwarding? && b.hand.rest != []
    ensures Conserved(accepted, b.(hand := Forwarding(b.hand.rest[1..]), m6 := b.m6 + [b.hand.rest[0]]))
  {
    assert b.hand.rest == [b.hand.rest[0]] + b.hand.rest[1..];
  }

  lemma FanOutConserved(accepted: seq<MatchId>, b: Back, call: Call)
    requires Conserved(accepted, b) && b.m6 != []
    ensures b.m6[0] in accepted
    ensures Conserved(accepted, b.(m6 := b.m6[1..], m7 := b.m7 + [Routed(call, b.m6[0])]))
  {
    assert b.m6 == [b.m6[0]] + b.m6[1..];
    assert RoutedIds(b.m7 + [Routed(call, b.m6[0])]) == RoutedIds(b.m7) + [b.m6[0]];
    assert b.m6[0] in RoutedIds(b.m7) + b.m6 + HandIds(b.hand) + b.m5;
  }

  lemma BackKeepsConserved(s: Pipe, s': Pipe, step: BackStep)
    requires Conserved(s.c.accepted, s.b) && RecordedIn(s.f, s.c.accepted) && BackNext(s, s', step)
    ensures Conserved(s'.c.accepted, s'.b)
  {
    match step {
      case TakeBatch(n) => BatchConserved(s.c.accepted, s.b, n, s.f.tix);
      case Forward => ForwardConserved(s.c.accepted, s.b);
      case FanOut => FanOutConserved(s.c.accepted, s.b, if s.b.m6[0] in s.f.route then s.f.route[s.b.m6[0]] else 0);
      case _ =>
    }
  }

  lemma BackKeepsCovered(s: Pipe, s': Pipe, step: BackStep)
    requires Inv(s) && Covered(s.f.tix, s.b) && Next(s, s', OfBack(step))
    ensures Covered(s'.f.tix, s'.b)
  {
    var b := s.b;
    match step {
      case TakeBatch(n) =>
        forall id | id in b.m5[..n] ensures Covers(BatchTickets(s.f.tix, b.m5[..n]), s.f.tix, id) {
          assert id in s.c.accepted;
        }
      case FanOut =>
        assert b.m6[0] in s.c.accepted;
        assert RoutedIds(s'.b.m7) == RoutedIds(b.m7) + [b.m6[0]];
      case _ =>
    }
  }

  lemma BackStepKeepsInv(s: Pipe, s': Pipe, step: BackStep)
    requires Inv(s) && Next(s, s', OfBack(step))
    ensures Inv(s')
  {
    assert RecordedIn(s.f, s.c.accepted);
    BackKeepsConserved(s, s', step);
    if DistinctIds(s.f.log) {
      BackKeepsCovered(s, s', step);
    }
  }

  lemma InvStep(s: Pipe, s': Pipe, step: Step)
    requires Inv(s) && Next(s, s', step)
    ensures Inv(s')
  {
    match step
    case OfFront(fs) => FrontStepKeepsInv(s, s', fs);
    case OfClient(cs) => ClientStepKeepsInv(s, s', cs);
    case OfBack(bs) => BackStepKeepsInv(s, s', bs);
  }

  lemma {:induction false} InvOfRun(run: seq<Pipe>, steps: seq<Step>, n: nat)
    requires IsRun(run, steps) && n < |run|
    ensures Inv(run[n])
  {
    if n == 0 {
    } else {
      InvOfRun(run, steps, n - 1);
      InvStep(run[n - 1], run[n], steps[n - 1]);
    }
  }

  // ---------------------------------------------------------------- main results, over every run

  /** Where the i-th id sent to a call sits among all sends. */
  lemma {:induction false} SendPosition(m7: seq<Routed>, call: Call, i: nat) returns (k: nat)
    requires i < |For(m7, call)|
    ensures k < |m7| && m7[k] == Routed(call, For(m7, call)[i]) && |For(m7[..k], call)| == i
  {
    var n := |m7| - 1;
    var before := For(m7[..n], call);
    if i < |before| {
      k := SendPosition(m7[..n], call, i);
      assert m7[..n][..k] == m7[..k];
    } else {
      k := n;
    }
  }

  lemma ForGrows(m7: seq<Routed>, r: Routed, call: Call)
    ensures |For(m7 + [r], call)| >= |For(m7, call)|
  {
    assert (m7 + [r])[..|m7|] == m7;
  }

  lemma DeliveredBackStep(s: Pipe, s': Pipe, step: BackStep, call: Call)
    requires BackNext(s, s', step) && DeliveredTo(s.b, call) <= |For(s.b.m7, call)|
    ensures DeliveredTo(s'.b, call) <= |For(s'.b.m7, call)|
  {
    if step.FanOut? && |s'.b.m7| > |s.b.m7| {
      ForGrows(s.b.m7, s'.b.m7[|s.b.m7|], call);
    }
  }

  lemma DeliveredStep(s: Pipe, s': Pipe, step: Step, call: Call)
    requires Next(s, s', step) && DeliveredTo(s.b, call) <= |For(s.b.m7, call)|
    ensures DeliveredTo(s'.b, call) <= |For(s'.b.m7, call)|
  {
    if step.OfBack? {
      DeliveredBackStep(s, s', step.bs, call);
    } else {
      assert s'.b.m7 == s.b.m7 && s'.b.delivered == s.b.delivered;
    }
  }

  lemma {:induction false} DeliveredBound(run: seq<Pipe>, steps: seq<Step>, n: nat, call: Call)
    requires IsRun(run, steps) && n < |run|
    ensures DeliveredTo(run[n].b, call) <= |For(run[n].b.m7, call)|
  {
    if n == 0 {
    } else {
      DeliveredBound(run, steps, n - 1, call);
      DeliveredStep(run[n - 1], run[n], steps[n - 1], call);
    }
  }

  /** An id delivered to a call is one that call proposed; with distinct ids it is the only
      proposer, and a pending-release call covering all the match's tickets has returned. */
  lemma DeliveredToItsProposer(run: seq<Pipe>, steps: seq<Step>, n: nat, call: Call, i: nat)
    requires IsRun(run, steps) && n < |run| && i < DeliveredTo(run[n].b, call)
    ensures i < |For(run[n].b.m7, call)|
    ensures ProposedBy(run[n].f.log, call, For(run[n].b.m7, call)[i])
    ensures DistinctIds(run[n].f.log) ==> forall x :: x in run[n].f.log && x.m.id == For(run[n].b.m7, call)[i] ==>
              x.call == call && forall t :: t in x.m.tickets ==> t in run[n].b.covered
  {
    InvOfRun(run, steps, n);
    DeliveredBound(run, steps, n, call);
    var f, b := run[n].f, run[n].b;
    var k := SendPosition(b.m7, call, i);
    var id := For(b.m7, call)[i];
    assert b.m7[k] in b.m7;
    if DistinctIds(f.log) {
      assert RoutedIds(b.m7)[k] == id;
      assert id in RoutedIds(b.m7);
      forall x | x in f.log && x.m.id == id ensures x.call == call && forall t :: t in x.m.tickets ==> t in b.covered {
        assert ProposedWith(f.log, id, f.tix[id]);
      }
    }
  }

  /** No id is delivered twice, to the same call or to two calls. */
  lemma DeliveredAtMostOnce(run: seq<Pipe>, steps: seq<Step>, n: nat, call: Call, i: nat, call': Call, i': nat)
    requires IsRun(run, steps) && n < |run|
    requires i < DeliveredTo(run[n].b, call) && i' < DeliveredTo(run[n].b, call') && (call, i) != (call', i')
    ensures i < |For(run[n].b.m7, call)| && i' < |For(run[n].b.m7, call')|
    ensures For(run[n].b.m7, call)[i] != For(run[n].b.m7, call')[i']
  {
    InvOfRun(run, steps, n);
    DeliveredBound(run, steps, n, call);
    DeliveredBound(run, steps, n, call');
    var b := run[n].b;
    var k := SendPosition(b.m7, call, i);
    var k' := SendPosition(b.m7, call', i');
    var accepted := run[n].c.accepted;
    assert accepted[k] == RoutedIds(b.m7)[k] && accepted[k'] == RoutedIds(b.m7)[k'];
  }

  /** Neither "unknown id" branch ever runs, and the evaluator is sent the proposals in order. */
  lemma UnknownIdBranchesUnreachable(run: seq<Pipe>, steps: seq<Step>, n: nat)
    requires IsRun(run, steps) && n < |run|
    ensures run[n].b.lostTickets == 0 && run[n].b.lostRoutes == 0
    ensures run[n].fanOpen && run[n].c.sendLive ==> run[n].c.sent <= Matches(run[n].f.log)
    ensures RoutedIds(run[n].b.m7) <= run[n].c.accepted
  {
    InvOfRun(run, steps, n);
    var b, s := run[n].b, run[n];
    assert run[n].c.accepted[..|b.m7|] == RoutedIds(b.m7);
    if s.fanOpen && s.c.sendLive {
      assert Matches(s.f.log)[..|s.c.sent|] == s.c.sent;
    }
  }

  /** What a closed channel, or a stage that has stopped, says about the stages before it. */
  ghost predicate ClosedInTurn(s: Pipe) {
    && (s.b.m5Closed ==> !s.c.sendLive && !s.c.recvLive)
    && (s.b.m6Closed ==> s.b.m5Closed && s.b.m5 == [] && s.b.hand.Idle?)
    && (!s.fanOpen ==> s.b.m6Closed && s.b.m6 == [])
  }

  lemma ClosedInTurnStep(s: Pipe, s': Pipe, step: Step)
    requires ClosedInTurn(s) && Next(s, s', step)
    ensures ClosedInTurn(s')
  {
  }

  lemma {:induction false} ClosedInTurnOfRun(run: seq<Pipe>, steps: seq<Step>, n: nat)
    requires IsRun(run, steps) && n < |run|
    ensures ClosedInTurn(run[n])
  {
    if n == 0 {
    } else {
      ClosedInTurnOfRun(run, steps, n - 1);
      ClosedInTurnStep(run[n - 1], run[n], steps[n - 1]);
    }
  }

  /** Nothing accepted is lost: when fanInFanOut has stopped, every accepted id was routed, in order. */
  lemma NothingAcceptedIsLost(run: seq<Pipe>, steps: seq<Step>, n: nat)
    requires IsRun(run, steps) && n < |run| && !run[n].fanOpen
    ensures RoutedIds(run[n].b.m7) == run[n].c.accepted
  {
    InvOfRun(run, steps, n);
    ClosedInTurnOfRun(run, steps, n);
  }

  /** What the callers sent before the first cutoff, in order. */
  ghost function SentBeforeCutoff(steps: seq<Step>, n: nat): seq<Sent>
    requires n <= |steps|
  {
    if n == 0 then []
    else
      var before, step := SentBeforeCutoff(steps, n - 1), steps[n - 1];
      if step.OfFront? && step.fs.Submit? && !CutBy(steps, n - 1) then before + [Sent(step.fs.call, step.fs.m)]
      else before
  }

  ghost predicate CutBy(steps: seq<Step>, n: nat)
    requires n <= |steps|
  {
    n > 0 && (steps[n - 1] == OfFront(Cutoff) || CutBy(steps, n - 1))
  }

  lemma LogStep(s: Pipe, s': Pipe, step: Step)
    requires Next(s, s', step)
    ensures s'.f.log == s.f.log +
              if step.OfFront? && step.fs.Submit? && !s.f.cut then [Sent(step.fs.call, step.fs.m)] else []
    ensures s'.f.cut <==> s.f.cut || step == OfFront(Cutoff)
  {
  }

  /** A cycle handles exactly the proposals sent before its cutoff, in order. */
  lemma {:induction false} LogIsSentBeforeCutoff(run: seq<Pipe>, steps: seq<Step>, n: nat)
    requires IsRun(run, steps) && n < |run|
    ensures run[n].f.log == SentBeforeCutoff(steps, n)
    ensures run[n].f.cut <==> CutBy(steps, n)
  {
    if n == 0 {
    } else {
      LogIsSentBeforeCutoff(run, steps, n - 1);
      LogStep(run[n - 1], run[n], steps[n - 1]);
    }
  }

  /** When no store call fails, covered tickets are marked tickets. */
  lemma {:induction false} CoveredIsMarked(run: seq<Pipe>, steps: seq<Step>, n: nat)
    requires IsRun(run, steps) && n < |run| && forall i :: 0 <= i < n ==> steps[i] != OfBack(StoreReturns(false))
    ensures run[n].b.covered == run[n].b.marked
  {
    if n == 0 {
    } else {
      CoveredIsMarked(run, steps, n - 1);
      assert Next(run[n - 1], run[n], steps[n - 1]);
    }
  }

  // ---------------------------------------------------------------- two limits of the guarantee

  const SOLO: E.Match := E.Match("m", ["t"], None, E.Absent)

  const WITH_SOLO: Front := Front(false, [], map["m" := 0], [], map["m" := ["t"]], [], [Sent(0, SOLO)])

  /** Call 0 proposed SOLO and the evaluator has accepted it. */
  const SOLO_ACCEPTED: Pipe := Pipe(
    WITH_SOLO, Client(map["m" := false], true, true, [SOLO], ["m"]), EMPTY.b.(m5 := ["m"]), true)

  ghost predicate Reachable(s: Pipe) {
    exists run, steps :: IsRun(run, steps) && run[|run| - 1] == s
  }

  lemma ReachableStep(s: Pipe, s': Pipe, step: Step)
    requires Reachable(s) && Next(s, s', step)
    ensures Reachable(s')
  {
    var run, steps :| IsRun(run, steps) && run[|run| - 1] == s;
    assert IsRun(run + [s'], steps + [step]);
  }

  lemma SoloPassesFront() returns (s: Pipe)
    ensures Reachable(s) && s == EMPTY.(f := WITH_SOLO.(m4 := [SOLO]))
  {
    assert Reachable(EMPTY) by {
      assert IsRun([EMPTY], []);
    }
    var x := Sent(0, SOLO);
    var s1 := EMPTY.(f := EMPTY.f.(m2 := [x], log := [x]));
    ReachableStep(EMPTY, s1, OfFront(Submit(0, SOLO)));
    var s2 := s1.(f := s1.f.(m2 := [], route := map["m" := 0], m3 := [SOLO]));
    ReachableStep(s1, s2, OfFront(FanIn));
    s := EMPTY.(f := WITH_SOLO.(m4 := [SOLO]));
    ReachableStep(s2, s, OfFront(CacheTickets));
  }

  lemma SoloIsAccepted()
    ensures Reachable(SOLO_ACCEPTED)
  {
    var s := SoloPassesFront();
    var s1 := s.(f := WITH_SOLO, c := s.c.(known := map["m" := true], sent := [SOLO]));
    ReachableStep(s, s1, OfClient(Send));
    ReachableStep(s1, SOLO_ACCEPTED, OfClient(Recv("m")));
  }

  /** From a state with just "m" accepted, the store call may fail or succeed and "m" is sent on. */
  lemma SoloIsRouted(s: Pipe, ok: bool) returns (s': Pipe)
    requires Reachable(s) && s.c == SOLO_ACCEPTED.c && s.b == SOLO_ACCEPTED.b && s.fanOpen
    requires s.f.tix == WITH_SOLO.tix && "m" in s.f.route
    ensures Reachable(s') && s'.f == s.f && s'.c == s.c
    ensures s'.b.m7 == [Routed(s.f.route["m"], "m")] && s'.b.delivered == map[]
    ensures "t" in s'.b.marked <==> ok
  {
    var ids := BatchTickets(s.f.tix, ["m"]);
    assert "t" in ids by {
      var id := "m";
      assert s.f.tix[id] == ["t"];
      assert id in ["m"] && id in s.f.tix && ["t"][0] in s.f.tix[id];
    }
    assert s.b.m5[..1] == ["m"] && s.b.m5[1..] == [];
    AllRecorded(s.f.tix, ["m"]);
    var s1 := s.(b := s.b.(m5 := [], hand := Calling(["m"], ids)));
    ReachableStep(s, s1, OfBack(TakeBatch(1)));
    var s2 := s1.(b := s1.b.(hand := Forwarding(["m"]), covered := ids, marked := if ok then ids else {}));
    ReachableStep(s1, s2, OfBack(StoreReturns(ok)));
    var s3 := s2.(b := s2.b.(hand := Forwarding([]), m6 := ["m"]));
    ReachableStep(s2, s3, OfBack(Forward));
    s' := s3.(b := s3.b.(m6 := [], m7 := [Routed(s.f.route["m"], "m")]));
    ReachableStep(s3, s', OfBack(FanOut));
  }

  /** The code forwards a batch even when its store call failed: a match is delivered although
      its ticket was never marked pending. */
  lemma FailedMarkIsStillDelivered() returns (s: Pipe)
    ensures Reachable(s) && DistinctIds(s.f.log)
    ensures DeliveredTo(s.b, 0) == 1 && For(s.b.m7, 0) == ["m"]
    ensures Sent(0, SOLO) in s.f.log && "t" in SOLO.tickets && "t" !in s.b.marked
  {
    SoloIsAccepted();
    var s1 := SoloIsRouted(SOLO_ACCEPTED, false);
    assert s1.b.m7[..0] == [];
    s := s1.(b := s1.b.(delivered := map[0 := 1]));
    ReachableStep(s1, s, OfBack(Deliver(0)));
  }

  /** Without distinct ids routing breaks: call 0's proposal is the only one the evaluator saw, and
      call 1, which reused the id later, is sent the answer. */
  lemma ReusedIdIsMisrouted() returns (s: Pipe)
    ensures Reachable(s) && s.f.log == [Sent(0, SOLO), Sent(1, SOLO)]
    ensures s.c.sent == [SOLO] && s.b.m7 == [Routed(1, "m")]
  {
    SoloIsAccepted();
    var x, y := Sent(0, SOLO), Sent(1, SOLO);
    var s1 := SOLO_ACCEPTED.(f := WITH_SOLO.(m2 := [y], log := [x, y]));
    ReachableStep(SOLO_ACCEPTED, s1, OfFront(Submit(1, SOLO)));
    var s2 := s1.(f := s1.f.(m2 := [], route := map["m" := 1], m3 := [SOLO]));
    ReachableStep(s1, s2, OfFront(FanIn));
    s := SoloIsRouted(s2, true);
  }
}
