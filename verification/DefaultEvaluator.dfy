/** The default evaluator: sort proposals by score, then keep each proposal that
    shares no ticket and no backfill with a proposal kept before it. */
module DefaultEvaluator {
  import opened Domain
  import P = GreedyPacking

  /** A proposal with no criteria scores minus infinity. */
  type Score = Double

  datatype Criteria = Absent | Malformed | Scored(score: Score)

  datatype Match = Match(id: MatchId, tickets: seq<TicketId>, backfill: Option<BackfillId>, criteria: Criteria)

  datatype MatchInp = MatchInp(m: Match, score: Score)

  // ---------------------------------------------------------------- collisions

  datatype Resource = TicketOf(t: TicketId) | BackfillOf(b: BackfillId)

  predicate HasBackfill(m: Match) {
    m.backfill.Some? && m.backfill.value != ""
  }

  /** What a match occupies: its tickets, and its backfill when that has an id. */
  function Resources(m: Match): set<Resource> {
    (set t | t in m.tickets :: TicketOf(t)) + (if HasBackfill(m) then {BackfillOf(m.backfill.value)} else {})
  }

  predicate Collides(a: Match, b: Match) {
    Resources(a) * Resources(b) != {}
  }

  predicate CollidesWithAny(kept: seq<MatchInp>, m: Match) {
    exists i :: 0 <= i < |kept| && Collides(kept[i].m, m)
  }

  ghost predicate PairwiseDisjoint(ms: seq<MatchInp>) {
    forall i, j :: 0 <= i < j < |ms| ==> !Collides(ms[i].m, ms[j].m)
  }

  // ---------------------------------------------------------------- reading the proposals

  /** Proposals with malformed criteria are rejected; absent criteria score lowest. */
  function Eligible(proposals: seq<Match>): seq<MatchInp> {
    if proposals == [] then []
    else
      var last := proposals[|proposals| - 1];
      Eligible(proposals[..|proposals| - 1]) +
      match last.criteria {
        case Absent => [MatchInp(last, NegInf)]
        case Malformed => []
        case Scored(s) => [MatchInp(last, s)]
      }
  }

  method Collect(proposals: seq<Match>) returns (matches: seq<MatchInp>)
    ensures matches == Eligible(proposals)
  {
    matches := [];
    for i := 0 to |proposals|
      invariant matches == Eligible(proposals[..i])
    {
      var m := proposals[i];
      assert proposals[..i + 1][..i] == proposals[..i];
      match m.criteria {
        case Absent => matches := matches + [MatchInp(m, NegInf)];
        case Malformed =>
        case Scored(s) => matches := matches + [MatchInp(m, s)];
      }
    }
    assert proposals[..|proposals|] == proposals;
  }

  /** The collected inputs are the well-formed proposals, each with the score its criteria give or, without
      criteria, the lowest. */
  lemma {:induction false} EligibleMembers(proposals: seq<Match>, x: MatchInp)
    ensures x in Eligible(proposals) <==>
            x.m in proposals && (x.m.criteria == Scored(x.score) || (x.m.criteria.Absent? && x.score.NegInf?))
  {
    if proposals == [] {
      assert Eligible(proposals) == [];
    } else {
      var front, last := proposals[..|proposals| - 1], proposals[|proposals| - 1];
      EligibleMembers(front, x);
      assert proposals == front + [last];
    }
  }

  // ---------------------------------------------------------------- sorting

  ghost predicate SortedByScore(ms: seq<MatchInp>) {
    forall i, j :: 0 <= i < j < |ms| ==> AtLeast(ms[i].score, ms[j].score)
  }

  /** Any result the unstable sort may return. */
  ghost predicate IsSortOf(sorted: seq<MatchInp>, ms: seq<MatchInp>) {
    SortedByScore(sorted) && multiset(sorted) == multiset(ms)
  }

  /** Some sorted order always exists, so what is proved of every order is proved of something. */
  lemma {:induction false} SortExists(ms: seq<MatchInp>) returns (sorted: seq<MatchInp>)
    ensures IsSortOf(sorted, ms)
  {
    if ms == [] {
      sorted := [];
    } else {
      var rest := SortExists(ms[1..]);
      var x := ms[0];
      var at := InsertionPoint(rest, x.score);
      sorted := rest[..at] + [x] + rest[at..];
      assert rest == rest[..at] + rest[at..] && ms == [x] + ms[1..];
    }
  }

  lemma InsertionPoint(ms: seq<MatchInp>, s: Score) returns (at: nat)
    requires SortedByScore(ms)
    ensures at <= |ms|
    ensures forall i :: 0 <= i < at ==> AtLeast(ms[i].score, s)
    ensures forall i :: at <= i < |ms| ==> AtLeast(s, ms[i].score)
  {
    at := 0;
    while at < |ms| && AtLeast(ms[at].score, s)
      invariant at <= |ms| && forall i :: 0 <= i < at ==> AtLeast(ms[i].score, s)
    {
      at := at + 1;
    }
  }

  // ---------------------------------------------------------------- the decollider

  ghost function Extend(kept: seq<MatchInp>, m: MatchInp): seq<MatchInp> {
    if CollidesWithAny(kept, m.m) then kept else kept + [m]
  }

  /** The proposal at position i survives exactly when it collides with no survivor before it. */
  ghost predicate KeptAt(ms: seq<MatchInp>, i: nat)
    requires i < |ms|
  {
    forall j :: 0 <= j < i && KeptAt(ms, j) ==> !Collides(ms[j].m, ms[i].m)
  }

  ghost function Survivors(ms: seq<MatchInp>): set<nat> {
    set i: nat | i < |ms| && KeptAt(ms, i)
  }

  /** The chosen proposals among the first n, in order. */
  ghost function Select(ms: seq<MatchInp>, chosen: set<nat>, n: nat): seq<MatchInp>
    requires n <= |ms|
  {
    if n == 0 then []
    else if n - 1 in chosen then Select(ms, chosen, n - 1) + [ms[n - 1]]
    else Select(ms, chosen, n - 1)
  }

  /** The matches the evaluator accepts out of a sorted list. */
  ghost function Accepted(ms: seq<MatchInp>): seq<MatchInp> {
    Select(ms, Survivors(ms), |ms|)
  }

  ghost function Ids(ms: seq<MatchInp>): seq<MatchId> {
    seq(|ms|, i requires 0 <= i < |ms| => ms[i].m.id)
  }

  datatype CollidingMatch = CollidingMatch(id: MatchId, score: Score)

  class Decollider {
    var resultIDs: seq<MatchId>
    var ticketsUsed: map<TicketId, CollidingMatch>
    var backfillsUsed: map<BackfillId, CollidingMatch>
    ghost var kept: seq<MatchInp>

    /** Every used entry names a kept match that occupies it, and nothing else is used. */
    ghost predicate Valid()
      reads this
    {
      resultIDs == Ids(kept) && TicketsTracked(kept, ticketsUsed) && BackfillsTracked(kept, backfillsUsed)
    }

    static ghost predicate TicketsTracked(kept: seq<MatchInp>, used: map<TicketId, CollidingMatch>) {
      && (forall i, t :: 0 <= i < |kept| && t in kept[i].m.tickets ==> t in used)
      && (forall t :: t in used ==> Names(kept, TicketOf(t), used[t]))
    }

    static ghost predicate BackfillsTracked(kept: seq<MatchInp>, used: map<BackfillId, CollidingMatch>) {
      && (forall i :: 0 <= i < |kept| && HasBackfill(kept[i].m) ==> kept[i].m.backfill.value in used)
      && (forall b :: b in used ==> Names(kept, BackfillOf(b), used[b]))
    }

    static ghost predicate Names(kept: seq<MatchInp>, r: Resource, cm: CollidingMatch) {
      exists i :: 0 <= i < |kept| && r in Resources(kept[i].m) && cm == CollidingMatch(kept[i].m.id, kept[i].score)
    }

    constructor ()
      ensures Valid() && kept == []
    {
      resultIDs, ticketsUsed, backfillsUsed, kept := [], map[], map[], [];
    }

    /** Keeps the match exactly when it collides with nothing kept so far. */
    method MaybeAdd(m: MatchInp)
      requires Valid()
      modifies this
      ensures Valid()
      ensures kept == Extend(old(kept), m)
    {
      var clash := FindClash(m.m);
      if !clash {
        Keep(m);
      }
    }

    /** The two checks that make `maybeAdd` skip a match. */
    method FindClash(m: Match) returns (clash: bool)
      requires Valid()
      ensures clash <==> CollidesWithAny(kept, m)
    {
      if HasBackfill(m) && m.backfill.value in backfillsUsed {
        NamedCollides(BackfillOf(m.backfill.value), backfillsUsed[m.backfill.value], m);
        return true;
      }
      for i := 0 to |m.tickets|
        invariant forall j :: 0 <= j < i ==> m.tickets[j] !in ticketsUsed
      {
        if m.tickets[i] in ticketsUsed {
          NamedCollides(TicketOf(m.tickets[i]), ticketsUsed[m.tickets[i]], m);
          return true;
        }
      }
      assert forall i :: 0 <= i < |kept| ==> Resources(kept[i].m) !! Resources(m);
      return false;
    }

    /** Marks everything the match occupies as used. */
    method Keep(m: MatchInp)
      requires Valid()
      modifies this
      ensures Valid() && kept == old(kept) + [m]
    {
      var cm := CollidingMatch(m.m.id, m.score);
      ghost var tickets0 := ticketsUsed;
      BackfillTrackedAfterAdd(kept, m, backfillsUsed);
      if HasBackfill(m.m) {
        backfillsUsed := backfillsUsed[m.m.backfill.value := cm];
      }
      for i := 0 to |m.m.tickets|
        invariant kept == old(kept) && resultIDs == Ids(kept) && BackfillsTracked(kept + [m], backfillsUsed)
        invariant Marked(tickets0, m.m.tickets[..i], cm, ticketsUsed)
      {
        MarkOne(tickets0, m.m.tickets, i, cm, ticketsUsed);
        ticketsUsed := ticketsUsed[m.m.tickets[i] := cm];
      }
      assert m.m.tickets[..|m.m.tickets|] == m.m.tickets;
      TrackedAfterMarking(kept, m, tickets0, ticketsUsed);
      resultIDs := resultIDs + [m.m.id];
      kept := kept + [m];
    }

    /** used is before with every one of the tickets now naming cm. */
    static ghost predicate Marked(
        before: map<TicketId, CollidingMatch>, tickets: seq<TicketId>, cm: CollidingMatch,
        used: map<TicketId, CollidingMatch>)
    {
      && (forall t :: t in used <==> t in before || t in tickets)
      && (forall t :: t in used ==> used[t] == if t in tickets then cm else before[t])
    }

    static lemma MarkOne(
        before: map<TicketId, CollidingMatch>, tickets: seq<TicketId>, i: nat, cm: CollidingMatch,
        used: map<TicketId, CollidingMatch>)
      requires i < |tickets| && Marked(before, tickets[..i], cm, used)
      ensures Marked(before, tickets[..i + 1], cm, used[tickets[i] := cm])
    {
      assert tickets[..i + 1] == tickets[..i] + [tickets[i]];
    }

    static lemma BackfillTrackedAfterAdd(was: seq<MatchInp>, m: MatchInp, before: map<BackfillId, CollidingMatch>)
      requires BackfillsTracked(was, before)
      ensures HasBackfill(m.m) ==>
                BackfillsTracked(was + [m], before[m.m.backfill.value := CollidingMatch(m.m.id, m.score)])
      ensures !HasBackfill(m.m) ==> BackfillsTracked(was + [m], before)
    {
      NamesAfterAdd(was, m);
    }

    static lemma TrackedAfterMarking(
        was: seq<MatchInp>, m: MatchInp, before: map<TicketId, CollidingMatch>,
        used: map<TicketId, CollidingMatch>)
      requires TicketsTracked(was, before) && Marked(before, m.m.tickets, CollidingMatch(m.m.id, m.score), used)
      ensures TicketsTracked(was + [m], used)
    {
      NamesAfterAdd(was, m);
    }

    static lemma NamesAfterAdd(was: seq<MatchInp>, m: MatchInp)
      ensures forall r, c :: Names(was, r, c) ==> Names(was + [m], r, c)
      ensures forall r :: r in Resources(m.m) ==> Names(was + [m], r, CollidingMatch(m.m.id, m.score))
    {
      var now := was + [m];
      assert now[|was|] == m;
      assert forall i :: 0 <= i < |was| ==> now[i] == was[i];
    }

    lemma NamedCollides(r: Resource, cm: CollidingMatch, m: Match)
      requires Names(kept, r, cm) && r in Resources(m)
      ensures CollidesWithAny(kept, m)
    {
      var i :| 0 <= i < |kept| && r in Resources(kept[i].m);
      assert r in Resources(kept[i].m) * Resources(m);
    }
  }

  /** The evaluator: `sorted` is whatever order sort.Sort left the eligible proposals in. */
  method Evaluate(proposals: seq<Match>, sorted: seq<MatchInp>) returns (ids: seq<MatchId>)
    requires IsSortOf(sorted, Eligible(proposals))
    ensures ids == Ids(Accepted(sorted))
  {
    var d := new Decollider();
    for i := 0 to |sorted|
      invariant d.Valid() && d.kept == Select(sorted, Survivors(sorted), i)
    {
      d.MaybeAdd(sorted[i]);
      SelectStep(sorted, i);
    }
    ids := d.resultIDs;
  }

  // ---------------------------------------------------------------- what is accepted

  lemma {:induction false} SelectMembers(ms: seq<MatchInp>, chosen: set<nat>, n: nat)
    requires n <= |ms|
    ensures forall x :: x in Select(ms, chosen, n) <==> exists i :: 0 <= i < n && i in chosen && ms[i] == x
  {
    if n == 0 {
    } else {
      SelectMembers(ms, chosen, n - 1);
    }
  }

  /** One pass of the decollider's loop extends the survivors by one proposal. */
  lemma SelectStep(ms: seq<MatchInp>, n: nat)
    requires n < |ms|
    ensures Select(ms, Survivors(ms), n + 1) == Extend(Select(ms, Survivors(ms), n), ms[n])
  {
    var kept := Select(ms, Survivors(ms), n);
    SelectMembers(ms, Survivors(ms), n);
    if !KeptAt(ms, n) {
      var j :| 0 <= j < n && KeptAt(ms, j) && Collides(ms[j].m, ms[n].m);
      assert j in Survivors(ms);
      assert ms[j] in kept;
    } else {
      forall i | 0 <= i < |kept| ensures !Collides(kept[i].m, ms[n].m) {
        assert kept[i] in kept;
      }
    }
  }

  lemma {:induction false} SelectDisjoint(ms: seq<MatchInp>, n: nat)
    requires n <= |ms|
    ensures PairwiseDisjoint(Select(ms, Survivors(ms), n))
  {
    if n == 0 {
    } else {
      SelectDisjoint(ms, n - 1);
      SelectStep(ms, n - 1);
    }
  }

  /** Accepted matches are proposals, and share no ticket and no non-empty backfill id. */
  lemma AcceptedDisjoint(ms: seq<MatchInp>)
    ensures PairwiseDisjoint(Accepted(ms))
    ensures forall x :: x in Accepted(ms) ==> x in ms
  {
    SelectDisjoint(ms, |ms|);
    SelectMembers(ms, Survivors(ms), |ms|);
  }

  /** Every rejected proposal collides with an accepted one of at least its score. */
  lemma RejectedIsDominated(ms: seq<MatchInp>, o: nat) returns (a: nat)
    requires SortedByScore(ms) && o < |ms| && !KeptAt(ms, o)
    ensures a < o && KeptAt(ms, a)
    ensures Collides(ms[a].m, ms[o].m) && AtLeast(ms[a].score, ms[o].score)
  {
    a :| 0 <= a < o && KeptAt(ms, a) && Collides(ms[a].m, ms[o].m);
  }

  /** Two matches share a ticket, or a backfill with an id. */
  ghost predicate Share(a: Match, b: Match) {
    || (exists t :: t in a.tickets && t in b.tickets)
    || (a.backfill.Some? && b.backfill.Some? && a.backfill.value == b.backfill.value != "")
  }

  /** Colliding is sharing. */
  lemma CollidesIsShare(a: Match, b: Match)
    ensures Collides(a, b) <==> Share(a, b)
  {
    if Collides(a, b) {
      var r :| r in Resources(a) * Resources(b);
      if r.TicketOf? {
        assert r.t in a.tickets && r.t in b.tickets;
      }
    }
    if t :| t in a.tickets && t in b.tickets {
      assert TicketOf(t) in Resources(a) * Resources(b);
    } else if Share(a, b) {
      assert BackfillOf(a.backfill.value) in Resources(a) * Resources(b);
    }
  }

  /** No two accepted matches have a ticket in common, or a backfill id other than the empty one. */
  lemma AcceptedShareNothing(ms: seq<MatchInp>, i: nat, j: nat)
    requires i < j < |Accepted(ms)|
    ensures forall t :: t in Accepted(ms)[i].m.tickets ==> t !in Accepted(ms)[j].m.tickets
    ensures var a, b := Accepted(ms)[i].m.backfill, Accepted(ms)[j].m.backfill;
            a.Some? && b.Some? && a.value == b.value ==> a.value == ""
  {
    AcceptedDisjoint(ms);
    CollidesIsShare(Accepted(ms)[i].m, Accepted(ms)[j].m);
  }

  /** Every proposal that is not accepted shares a ticket, or a non-empty backfill id, with an accepted
      proposal of at least its score. */
  lemma RejectedSharesWithBetter(ms: seq<MatchInp>, o: nat) returns (x: MatchInp)
    requires SortedByScore(ms) && o < |ms| && ms[o] !in Accepted(ms)
    ensures x in Accepted(ms) && AtLeast(x.score, ms[o].score)
    ensures || (exists t :: t in x.m.tickets && t in ms[o].m.tickets)
            || (x.m.backfill.Some? && ms[o].m.backfill == x.m.backfill && x.m.backfill.value != "")
  {
    SelectMembers(ms, Survivors(ms), |ms|);
    assert !KeptAt(ms, o);
    var a := RejectedIsDominated(ms, o);
    assert a in Survivors(ms);
    x := ms[a];
    CollidesIsShare(x.m, ms[o].m);
  }

  // ---------------------------------------------------------------- approximation bound

  ghost predicate NonNegative(ms: seq<MatchInp>) {
    forall i :: 0 <= i < |ms| ==> ms[i].score.Finite? && ms[i].score.r >= 0.0
  }

  ghost function Worth(x: MatchInp): real {
    if x.score.Finite? then x.score.r else 0.0
  }

  ghost function ScoreSum(ms: seq<MatchInp>): real {
    if ms == [] then 0.0 else ScoreSum(ms[..|ms| - 1]) + Worth(ms[|ms| - 1])
  }

  /** Positions of pairwise non-colliding proposals. */
  ghost predicate CollisionFree(ms: seq<MatchInp>, chosen: set<nat>) {
    && (forall i :: i in chosen ==> i < |ms|)
    && (forall i, j :: i in chosen && j in chosen && i != j ==> !Collides(ms[i].m, ms[j].m))
  }

  ghost predicate AtMostEach(ms: seq<MatchInp>, k: nat) {
    forall i :: 0 <= i < |ms| ==> |Resources(ms[i].m)| <= k
  }

  /** The proposals seen as items to pack: what each occupies and what it is worth. */
  ghost predicate ItemsOf(items: seq<P.Item<Resource>>, ms: seq<MatchInp>) {
    && |items| == |ms|
    && forall i :: 0 <= i < |ms| ==> items[i].uses == Resources(ms[i].m) && items[i].worth == Worth(ms[i])
  }

  lemma {:induction false} KeptAgrees(items: seq<P.Item<Resource>>, ms: seq<MatchInp>, i: nat)
    requires ItemsOf(items, ms) && i < |ms|
    ensures KeptAt(ms, i) == P.KeptAt(items, i)
  {
    forall j | 0 <= j < i ensures KeptAt(ms, j) == P.KeptAt(items, j) {
      KeptAgrees(items, ms, j);
    }
    assert forall j :: 0 <= j < i ==> Collides(ms[j].m, ms[i].m) == P.Clash(items[j], items[i]);
  }

  lemma ScoreSumSnoc(ms: seq<MatchInp>, x: MatchInp)
    ensures ScoreSum(ms + [x]) == ScoreSum(ms) + Worth(x)
  {
    assert (ms + [x])[..|ms|] == ms && (ms + [x])[|ms|] == x;
  }

  lemma {:induction false} SelectTotal(items: seq<P.Item<Resource>>, ms: seq<MatchInp>, chosen: set<nat>, n: nat)
    requires ItemsOf(items, ms) && n <= |ms|
    ensures ScoreSum(Select(ms, chosen, n)) == P.Total(items, chosen, n)
  {
    if n == 0 {
    } else {
      SelectTotal(items, ms, chosen, n - 1);
      if n - 1 in chosen {
        ScoreSumSnoc(Select(ms, chosen, n - 1), ms[n - 1]);
      }
    }
  }

  lemma SurvivorsAgree(items: seq<P.Item<Resource>>, ms: seq<MatchInp>)
    requires ItemsOf(items, ms)
    ensures Survivors(ms) == P.Kept(items)
  {
    forall i: nat | i < |ms| ensures KeptAt(ms, i) == P.KeptAt(items, i) {
      KeptAgrees(items, ms, i);
    }
  }

  lemma PackingItems(sorted: seq<MatchInp>, chosen: set<nat>, k: nat) returns (items: seq<P.Item<Resource>>)
    requires SortedByScore(sorted) && NonNegative(sorted) && CollisionFree(sorted, chosen) && AtMostEach(sorted, k)
    ensures ItemsOf(items, sorted) && P.Descending(items) && P.ClashFree(items, chosen)
    ensures forall i :: 0 <= i < |items| ==> |items[i].uses| <= k
  {
    items := seq(|sorted|, i requires 0 <= i < |sorted| => P.Item(Resources(sorted[i].m), Worth(sorted[i])));
  }

  /** With non-negative scores and at most k tickets-plus-backfill per proposal, no
      collision-free choice of proposals is worth more than k times what is accepted,
      whichever order the sort produced. */
  lemma AcceptedWithinFactor(sorted: seq<MatchInp>, chosen: set<nat>, k: nat) returns (other: real, accepted: real)
    requires SortedByScore(sorted) && NonNegative(sorted)
    requires CollisionFree(sorted, chosen) && AtMostEach(sorted, k) && k >= 1
    ensures other == ScoreSum(Select(sorted, chosen, |sorted|)) && accepted == ScoreSum(Accepted(sorted))
    ensures other <= k as real * accepted
  {
    AcceptedWithinTimes(sorted, chosen, k);
    other, accepted := ScoreSum(Select(sorted, chosen, |sorted|)), ScoreSum(Accepted(sorted));
    P.WithinProduct(other, k, accepted);
  }

  lemma AcceptedWithinTimes(sorted: seq<MatchInp>, chosen: set<nat>, k: nat)
    requires SortedByScore(sorted) && NonNegative(sorted)
    requires CollisionFree(sorted, chosen) && AtMostEach(sorted, k) && k >= 1
    ensures ScoreSum(Select(sorted, chosen, |sorted|)) <= P.Times(k, ScoreSum(Accepted(sorted)))
  {
    var items := PackingItems(sorted, chosen, k);
    PackingBound(items, sorted, chosen, k);
  }

  lemma PackingBound(items: seq<P.Item<Resource>>, ms: seq<MatchInp>, chosen: set<nat>, k: nat)
    requires ItemsOf(items, ms) && P.Descending(items) && P.ClashFree(items, chosen)
    requires k >= 1 && forall i :: 0 <= i < |items| ==> |items[i].uses| <= k
    ensures ScoreSum(Select(ms, chosen, |ms|)) <= P.Times(k, ScoreSum(Accepted(ms)))
  {
    P.KeptWithinTimes(items, chosen, k);
    SurvivorsAgree(items, ms);
    SelectTotal(items, ms, Survivors(ms), |ms|);
    SelectTotal(items, ms, chosen, |ms|);
  }
}
