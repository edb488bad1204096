/** The stateful match function of the backfill scenario: fill the open slots of the pool's
    backfills first, then open new, not yet full matches for the remaining tickets. */
module BackfillMmf {
  import opened Domain

  const INT32_MAX: int := 0x7fff_ffff
  const TWO_32: int := 0x1_0000_0000

  /** Conversion of an int to int32: the one 32-bit number that differs by a multiple of 2^32. */
  function Int32(x: int): (y: int)
    ensures -INT32_MAX - 1 <= y <= INT32_MAX
    ensures -INT32_MAX - 1 <= x <= INT32_MAX <==> y == x
    decreases if x < 0 then -x - 1 else x
  {
    if x > INT32_MAX then Int32(x - TWO_32)
    else if x < -INT32_MAX - 1 then Int32(x + TWO_32)
    else x
  }

  /** The conversion drops a multiple of 2^32: it keeps the low 32 bits. */
  lemma {:induction false} Int32Wraps(x: int)
    ensures (x - Int32(x)) % TWO_32 == 0
    decreases if x < 0 then -x - 1 else x
  {
    if x > INT32_MAX {
      Int32Wraps(x - TWO_32);
    } else if x < -INT32_MAX - 1 {
      Int32Wraps(x + TWO_32);
    }
  }

  /** The number of open slots an extension stands for. */
  ghost function OpenOf(slots: Option<int>, byDefault: int): int {
    if slots.None? then byDefault else slots.value
  }

  /** A backfill, as far as its "open-slots" extension: None when the extension is absent. */
  class Backfill {
    var slots: Option<int>

    constructor ()
      ensures slots == None
    {
      slots := None;
    }

    /** getOpenSlots */
    function Open(byDefault: int): (n: int)
      reads this
      ensures n == OpenOf(slots, byDefault)
    {
      if slots.Some? then slots.value else byDefault
    }

    /** The extension holds a 32-bit number. */
    predicate Valid()
      reads this
    {
      slots.Some? ==> -INT32_MAX - 1 <= slots.value <= INT32_MAX
    }

    /** setOpenSlots */
    method SetOpen(val: int)
      modifies this
      ensures slots == Some(Int32(val))
    {
      slots := Some(Int32(val));
    }
  }

  /** allocate: the match needs a new game server. */
  datatype Match = Match(tickets: seq<TicketId>, backfill: Backfill, allocate: bool)

  // ---------------------------------------------------------------- bookkeeping

  /** The tickets of the matches, in order. */
  ghost function AllTickets(matches: seq<Match>): seq<TicketId> {
    if matches == [] then [] else AllTickets(matches[..|matches| - 1]) + matches[|matches| - 1].tickets
  }

  /** How many tickets the matches put into a backfill. */
  ghost function Used(matches: seq<Match>, b: Backfill): nat {
    if matches == [] then 0
    else
      var last := matches[|matches| - 1];
      Used(matches[..|matches| - 1], b) + if last.backfill == b then |last.tickets| else 0
  }

  /** How many tickets the first of the matches on a backfill puts into it. */
  ghost function FirstUse(matches: seq<Match>, b: Backfill): nat {
    if matches == [] then 0
    else
      var front, last := matches[..|matches| - 1], matches[|matches| - 1];
      if Used(front, b) > 0 then FirstUse(front, b) else if last.backfill == b then |last.tickets| else 0
  }

  lemma UsedAppend(ms: seq<Match>, m: Match, b: Backfill)
    ensures Used(ms + [m], b) == Used(ms, b) + if m.backfill == b then |m.tickets| else 0
    ensures FirstUse(ms + [m], b) ==
            if Used(ms, b) > 0 then FirstUse(ms, b) else if m.backfill == b then |m.tickets| else 0
  {
    assert (ms + [m])[..|ms|] == ms;
  }

  lemma {:induction false} UnusedIfAbsent(ms: seq<Match>, b: Backfill)
    requires forall i :: 0 <= i < |ms| ==> ms[i].backfill != b
    ensures Used(ms, b) == 0
  {
    if ms == [] {
    } else {
      UnusedIfAbsent(ms[..|ms| - 1], b);
    }
  }

  /** What the first match leaves of a default number of slots fits in 32 bits. */
  ghost predicate Fits(first: nat, before: Option<int>, ticketsPerMatch: int) {
    before.Some? || ticketsPerMatch - first <= INT32_MAX
  }

  /**
   * The books of one backfill: unused, it is as before. Used, what was used and what is still open
   * add up to what was open before exactly when what the first match left fits in 32 bits, and then no
   * slot is overdrawn.
   */
  ghost predicate BooksOf(now: Option<int>, used: nat, first: nat, before: Option<int>, ticketsPerMatch: int) {
    && (now.Some? ==> -INT32_MAX - 1 <= now.value <= INT32_MAX)
    && (used == 0 ==> now == before)
    && (used > 0 ==> now.Some?)
    && (used > 0 ==> (used + now.value == OpenOf(before, ticketsPerMatch) <==> Fits(first, before, ticketsPerMatch)))
    && (used > 0 && Fits(first, before, ticketsPerMatch) ==> now.value >= 0)
  }

  ghost predicate Balanced(matches: seq<Match>, before: map<Backfill, Option<int>>, ticketsPerMatch: int)
    reads before.Keys
  {
    forall b {:trigger Used(matches, b)} :: b in before ==>
      BooksOf(b.slots, Used(matches, b), FirstUse(matches, b), before[b], ticketsPerMatch)
  }

  /** A match on a backfill created here: its tickets, and the slots left for others. */
  ghost predicate OpensNew(m: Match, ticketsPerMatch: int, maxTickets: int)
    reads m.backfill
  {
    m.allocate && 1 <= |m.tickets| <= maxTickets && m.backfill.slots == Some(Int32(ticketsPerMatch - |m.tickets|))
  }

  /** Every match takes some tickets and either fills a given backfill or has a new one of its own. */
  ghost predicate Shaped(matches: seq<Match>, given: set<Backfill>) {
    && (forall i :: 0 <= i < |matches| ==> matches[i].tickets != [])
    && (forall i :: 0 <= i < |matches| ==> (matches[i].allocate <==> matches[i].backfill !in given))
    && (forall i, j :: 0 <= i < j < |matches| && matches[i].allocate ==> matches[i].backfill != matches[j].backfill)
  }

  ghost predicate WellMade(matches: seq<Match>, given: set<Backfill>, ticketsPerMatch: int, maxTickets: int)
    reads set m | m in matches :: m.backfill
  {
    && Shaped(matches, given)
    && (forall i :: 0 <= i < |matches| && matches[i].allocate ==> OpensNew(matches[i], ticketsPerMatch, maxTickets))
  }

  lemma ShapedAppend(matches: seq<Match>, m: Match, given: set<Backfill>)
    requires Shaped(matches, given) && m.tickets != [] && (m.allocate <==> m.backfill !in given)
    requires m.allocate ==> forall i :: 0 <= i < |matches| ==> matches[i].backfill != m.backfill
    ensures Shaped(matches + [m], given)
  {
  }

  // ---------------------------------------------------------------- the match function

  /** Puts l tickets into one backfill. */
  method FillOne(b: Backfill, l: nat, m: Match, done: seq<Match>,
                 ticketsPerMatch: int, maxTickets: int, ghost before: map<Backfill, Option<int>>)
    requires b in before && 0 < l <= b.Open(ticketsPerMatch) && m.backfill == b && !m.allocate && |m.tickets| == l
    requires Balanced(done, before, ticketsPerMatch) && WellMade(done, before.Keys, ticketsPerMatch, maxTickets)
    modifies b
    ensures b.slots == Some(Int32(old(b.Open(ticketsPerMatch)) - l))
    ensures Balanced(done + [m], before, ticketsPerMatch)
    ensures WellMade(done + [m], before.Keys, ticketsPerMatch, maxTickets)
  {
    var open := b.Open(ticketsPerMatch);
    assert BooksOf(b.slots, Used(done, b), FirstUse(done, b), before[b], ticketsPerMatch);
    b.SetOpen(open - l);
    ShapedAppend(done, m, before.Keys);
    forall c | c in before
      ensures BooksOf(c.slots, Used(done + [m], c), FirstUse(done + [m], c), before[c], ticketsPerMatch)
    {
      UsedAppend(done, m, c);
      assert c != b ==> BooksOf(c.slots, Used(done, c), FirstUse(done, c), before[c], ticketsPerMatch);
    }
  }

  /** One pass of the first loop: fill one backfill, as far as it has open slots and there are tickets. */
  method FillNext(b: Backfill, rest: seq<TicketId>, done: seq<Match>, ghost base: nat,
                  ticketsPerMatch: int, maxTickets: int, ghost before: map<Backfill, Option<int>>)
    returns (matches: seq<Match>, rest': seq<TicketId>)
    requires b in before && rest != [] && base <= |done|
    requires Balanced(done, before, ticketsPerMatch) && WellMade(done, before.Keys, ticketsPerMatch, maxTickets)
    modifies b
    ensures done <= matches && AllTickets(matches[base..]) + rest' == AllTickets(done[base..]) + rest
    ensures Balanced(matches, before, ticketsPerMatch) && WellMade(matches, before.Keys, ticketsPerMatch, maxTickets)
    ensures rest' != [] ==> b.Open(ticketsPerMatch) <= 0
    ensures old(b.Open(ticketsPerMatch)) <= 0 ==> b.slots == old(b.slots)
    ensures forall i :: |done| <= i < |matches| ==> !matches[i].allocate
  {
    var l := |rest|;
    var openSlots := b.Open(ticketsPerMatch);
    if openSlots <= 0 {
      return done, rest;
    }
    if l > openSlots {
      l := openSlots;
    }
    var m := Match(rest[..l], b, false);
    HandedOut(base, done, m, rest);
    FillOne(b, l, m, done, ticketsPerMatch, maxTickets, before);
    return done + [m], rest[l..];
  }

  /** The first loop: fill the pool's backfills, in order, until tickets run out. */
  method FillBackfills(backfills: seq<Backfill>, tickets: seq<TicketId>, done: seq<Match>,
                       ticketsPerMatch: int, maxTickets: int, ghost before: map<Backfill, Option<int>>)
    returns (matches: seq<Match>, rest: seq<TicketId>)
    requires forall b :: b in backfills ==> b in before
    requires Balanced(done, before, ticketsPerMatch) && WellMade(done, before.Keys, ticketsPerMatch, maxTickets)
    modifies set b | b in backfills
    ensures done <= matches && AllTickets(matches[|done|..]) + rest == tickets
    ensures Balanced(matches, before, ticketsPerMatch) && WellMade(matches, before.Keys, ticketsPerMatch, maxTickets)
    ensures rest != [] ==> forall b :: b in backfills ==> b.Open(ticketsPerMatch) <= 0
    ensures forall b :: b in backfills && old(b.Open(ticketsPerMatch)) <= 0 ==> b.slots == old(b.slots)
    ensures forall i :: |done| <= i < |matches| ==> !matches[i].allocate
  {
    matches, rest := done, tickets;
    for i := 0 to |backfills|
      invariant done <= matches && AllTickets(matches[|done|..]) + rest == tickets
      invariant Balanced(matches, before, ticketsPerMatch)
      invariant WellMade(matches, before.Keys, ticketsPerMatch, maxTickets)
      invariant rest != [] ==> forall j :: 0 <= j < i ==> backfills[j].Open(ticketsPerMatch) <= 0
      invariant forall b :: b in backfills && old(b.Open(ticketsPerMatch)) <= 0 ==> b.slots == old(b.slots)
      invariant forall k :: |done| <= k < |matches| ==> !matches[k].allocate
    {
      if |rest| == 0 {
        break;
      }
      matches, rest := FillNext(backfills[i], rest, matches, |done|, ticketsPerMatch, maxTickets, before);
    }
  }

  /** A new match takes its tickets off the front of the rest. */
  lemma HandedOut(base: nat, matches: seq<Match>, m: Match, rest: seq<TicketId>)
    requires base <= |matches| && m.tickets <= rest
    ensures AllTickets((matches + [m])[base..]) + rest[|m.tickets|..] == AllTickets(matches[base..]) + rest
  {
    var added := (matches + [m])[base..];
    assert added == matches[base..] + [m];
    assert added[..|added| - 1] == matches[base..];
    assert rest == m.tickets + rest[|m.tickets|..];
  }

  /** A match of l tickets on a new backfill. */
  method OpenOne(tickets: seq<TicketId>, l: nat, ghost done: seq<Match>,
                 ticketsPerMatch: int, ghost maxTickets: int, ghost before: map<Backfill, Option<int>>)
    returns (m: Match)
    requires 0 < l <= |tickets| && l <= maxTickets
    requires Balanced(done, before, ticketsPerMatch) && WellMade(done, before.Keys, ticketsPerMatch, maxTickets)
    ensures m.tickets == tickets[..l] && m.allocate && fresh(m.backfill)
    ensures Balanced(done + [m], before, ticketsPerMatch)
    ensures WellMade(done + [m], before.Keys, ticketsPerMatch, maxTickets)
  {
    var b := new Backfill();
    b.SetOpen(ticketsPerMatch - l);
    m := Match(tickets[..l], b, true);
    ShapedAppend(done, m, before.Keys);
    BalancedAfterNew(done, m, before, ticketsPerMatch);
  }

  /** The second loop: open new matches of at most maxTickets tickets each. */
  method OpenMatches(tickets: seq<TicketId>, done: seq<Match>, ghost base: nat,
                     ticketsPerMatch: int, maxTickets: int, ghost before: map<Backfill, Option<int>>)
    returns (matches: seq<Match>)
    requires maxTickets >= 1 && base <= |done|
    requires Balanced(done, before, ticketsPerMatch) && WellMade(done, before.Keys, ticketsPerMatch, maxTickets)
    ensures done <= matches && AllTickets(matches[base..]) == AllTickets(done[base..]) + tickets
    ensures Balanced(matches, before, ticketsPerMatch) && WellMade(matches, before.Keys, ticketsPerMatch, maxTickets)
    ensures forall i :: |done| <= i < |matches| ==> matches[i].allocate && fresh(matches[i].backfill)
    ensures tickets == [] ==> matches == done
    ensures forall i :: |done| <= i < |matches| - 1 ==> |matches[i].tickets| == maxTickets
  {
    matches := done;
    var rest := tickets;
    while true
      invariant done <= matches && AllTickets(matches[base..]) + rest == AllTickets(done[base..]) + tickets
      invariant Balanced(matches, before, ticketsPerMatch)
      invariant WellMade(matches, before.Keys, ticketsPerMatch, maxTickets)
      invariant forall i :: |done| <= i < |matches| ==> matches[i].allocate && fresh(matches[i].backfill)
      invariant tickets == [] ==> matches == done && rest == []
      invariant AtMaximum(matches, |done|, rest == [], maxTickets)
      decreases |rest|
    {
      var l := |rest|;
      if l == 0 {
        break;
      }
      if l > maxTickets {
        l := maxTickets;
      }
      var m := OpenOne(rest, l, matches, ticketsPerMatch, maxTickets, before);
      HandedOut(base, matches, m, rest);
      AtMaximumAppend(matches, m, |done|, rest, maxTickets);
      matches := matches + [m];
      rest := rest[l..];
    }
  }

  /** Every match from a position on, or every one but the last, has as many tickets as a new match may have. */
  ghost predicate AtMaximum(matches: seq<Match>, lo: nat, butLast: bool, maxTickets: int) {
    forall i :: lo <= i < |matches| && (butLast ==> i < |matches| - 1) ==> |matches[i].tickets| == maxTickets
  }

  lemma AtMaximumAppend(matches: seq<Match>, m: Match, lo: nat, rest: seq<TicketId>, maxTickets: int)
    requires AtMaximum(matches, lo, false, maxTickets) && |m.tickets| <= |rest| && |m.tickets| <= maxTickets
    requires |m.tickets| == |rest| || |m.tickets| == maxTickets
    ensures AtMaximum(matches + [m], lo, rest[|m.tickets|..] == [], maxTickets)
  {
  }

  lemma BalancedAfterNew(matches: seq<Match>, m: Match, before: map<Backfill, Option<int>>, ticketsPerMatch: int)
    requires Balanced(matches, before, ticketsPerMatch) && m.backfill !in before
    ensures Balanced(matches + [m], before, ticketsPerMatch)
  {
    forall b | b in before
      ensures BooksOf(b.slots, Used(matches + [m], b), FirstUse(matches + [m], b), before[b], ticketsPerMatch)
    {
      UsedAppend(matches, m, b);
      assert BooksOf(b.slots, Used(matches, b), FirstUse(matches, b), before[b], ticketsPerMatch);
    }
  }

  /** Every backfill of every pool. Two pools may hold the same one. */
  ghost function Given(poolBackfills: map<string, seq<Backfill>>): set<Backfill> {
    set pool, b | pool in poolBackfills && b in poolBackfills[pool] :: b
  }

  /** The pools that have both backfills and tickets listed for them, and at least one ticket. */
  ghost predicate HasWork(pool: string, poolTickets: map<string, seq<TicketId>>) {
    pool in poolTickets && poolTickets[pool] != []
  }

  /** The k-th run of matches hands out exactly the tickets of the k-th pool, in order. */
  ghost predicate Segment(
      matches: seq<Match>, order: seq<string>, cuts: seq<nat>, poolTickets: map<string, seq<TicketId>>, k: nat)
    requires k < |order| && |cuts| == |order| + 1
  {
    && cuts[k] <= cuts[k + 1] <= |matches|
    && order[k] in poolTickets && AllTickets(matches[cuts[k]..cuts[k + 1]]) == poolTickets[order[k]]
  }

  /** cuts splits the matches into one run per pool of `order`, in which no pool appears twice. */
  ghost predicate Segmented(
      matches: seq<Match>, order: seq<string>, cuts: seq<nat>, poolTickets: map<string, seq<TicketId>>)
  {
    && |cuts| == |order| + 1 && cuts[0] == 0 && cuts[|order|] == |matches|
    && (forall k, l :: 0 <= k < l < |order| ==> order[k] != order[l])
    && (forall k :: 0 <= k < |order| ==> Segment(matches, order, cuts, poolTickets, k))
  }

  lemma SegmentedStep(
      done: seq<Match>, matches: seq<Match>, order: seq<string>, cuts: seq<nat>, pool: string,
      poolTickets: map<string, seq<TicketId>>)
    requires Segmented(done, order, cuts, poolTickets) && pool !in order && pool in poolTickets
    requires done <= matches && AllTickets(matches[|done|..]) == poolTickets[pool]
    ensures Segmented(matches, order + [pool], cuts + [|matches|], poolTickets)
  {
    var order', cuts' := order + [pool], cuts + [|matches|];
    assert matches[|done|..|matches|] == matches[|done|..];
    forall k | 0 <= k < |order'|
      ensures Segment(matches, order', cuts', poolTickets, k)
    {
      if k < |order| {
        assert Segment(done, order, cuts, poolTickets, k);
        assert matches[cuts[k]..cuts[k + 1]] == done[cuts[k]..cuts[k + 1]];
      }
    }
  }

  /** The backfills with no open slot. */
  ghost function Full(given: set<Backfill>, ticketsPerMatch: int): set<Backfill>
    reads given
  {
    set b | b in given && b.Open(ticketsPerMatch) <= 0
  }

  /** A run of matches opens a new one only when all of the pool's backfills are full, and each new one
      but the last with as many tickets as it may have. */
  ghost predicate FilledFirst(
      matches: seq<Match>, lo: nat, hi: nat, backfills: seq<Backfill>, full: set<Backfill>, maxTickets: int)
  {
    && ((exists i :: lo <= i < hi && i < |matches| && matches[i].allocate) ==> forall b :: b in backfills ==> b in full)
    && (forall i :: lo <= i < hi - 1 && i < |matches| && matches[i].allocate ==> |matches[i].tickets| == maxTickets)
  }

  ghost predicate AllFilledFirst(
      matches: seq<Match>, order: seq<string>, cuts: seq<nat>, poolBackfills: map<string, seq<Backfill>>,
      full: set<Backfill>, maxTickets: int)
  {
    |cuts| == |order| + 1 &&
    forall k :: 0 <= k < |order| ==>
      order[k] in poolBackfills && FilledFirst(matches, cuts[k], cuts[k + 1], poolBackfills[order[k]], full, maxTickets)
  }

  lemma AllFilledFirstStep(done: seq<Match>, matches: seq<Match>, order: seq<string>, cuts: seq<nat>, pool: string,
                           poolBackfills: map<string, seq<Backfill>>, full: set<Backfill>, full': set<Backfill>,
                           poolTickets: map<string, seq<TicketId>>, maxTickets: int)
    requires AllFilledFirst(done, order, cuts, poolBackfills, full, maxTickets)
    requires Segmented(done, order, cuts, poolTickets)
    requires done <= matches && full <= full' && pool in poolBackfills
    requires FilledFirst(matches, |done|, |matches|, poolBackfills[pool], full', maxTickets)
    ensures AllFilledFirst(matches, order + [pool], cuts + [|matches|], poolBackfills, full', maxTickets)
  {
    var order', cuts' := order + [pool], cuts + [|matches|];
    forall k | 0 <= k < |order'|
      ensures order'[k] in poolBackfills
      ensures FilledFirst(matches, cuts'[k], cuts'[k + 1], poolBackfills[order'[k]], full', maxTickets)
    {
      if k < |order| {
        assert FilledFirst(done, cuts[k], cuts[k + 1], poolBackfills[order[k]], full, maxTickets);
        assert Segment(done, order, cuts, poolTickets, k);
      }
    }
  }

  /** One pool: first its backfills, then new matches. */
  method ProcessPool(backfills: seq<Backfill>, tickets: seq<TicketId>, done: seq<Match>,
                     ticketsPerMatch: int, maxTickets: int, ghost before: map<Backfill, Option<int>>)
    returns (matches: seq<Match>)
    requires maxTickets >= 1 && forall b :: b in backfills ==> b in before
    requires Balanced(done, before, ticketsPerMatch) && WellMade(done, before.Keys, ticketsPerMatch, maxTickets)
    modifies set b | b in backfills
    ensures done <= matches && AllTickets(matches[|done|..]) == tickets
    ensures Balanced(matches, before, ticketsPerMatch) && WellMade(matches, before.Keys, ticketsPerMatch, maxTickets)
    ensures forall b :: b in backfills && old(b.Open(ticketsPerMatch)) <= 0 ==> b.slots == old(b.slots)
    ensures FilledFirst(matches, |done|, |matches|, backfills, Full(before.Keys, ticketsPerMatch), maxTickets)
  {
    var filled, rest := FillBackfills(backfills, tickets, done, ticketsPerMatch, maxTickets, before);
    matches := OpenMatches(rest, filled, |done|, ticketsPerMatch, maxTickets, before);
  }

  /**
   * Conservation of tickets: the matches split into one run per pool with work, in which the
   * pool's tickets are handed out in order, each exactly once, to new matches only when the pool's
   * backfills are full.  Conservation of slots: BooksOf for every given backfill, OpensNew for a new one.
   */
  method StatefulMmf(
      poolBackfills: map<string, seq<Backfill>>, poolTickets: map<string, seq<TicketId>>, ticketsPerMatch: int,
      maxTickets: int)
    returns (matches: seq<Match>, ghost order: seq<string>, ghost cuts: seq<nat>)
    requires maxTickets >= 1
    requires forall b :: b in Given(poolBackfills) ==> b.Valid()
    modifies Given(poolBackfills)
    ensures Segmented(matches, order, cuts, poolTickets)
    ensures forall pool :: pool in order <==> pool in poolBackfills && HasWork(pool, poolTickets)
    ensures AllFilledFirst(matches, order, cuts, poolBackfills, Full(Given(poolBackfills), ticketsPerMatch), maxTickets)
    ensures WellMade(matches, Given(poolBackfills), ticketsPerMatch, maxTickets)
    ensures forall b :: b in Given(poolBackfills) ==>
              BooksOf(b.slots, Used(matches, b), FirstUse(matches, b), old(b.slots), ticketsPerMatch)
  {
    ghost var before: map<Backfill, Option<int>> := map b | b in Given(poolBackfills) :: b.slots;
    assert before.Keys == Given(poolBackfills);
    matches, order, cuts := [], [], [0];
    var todo := poolBackfills.Keys;
    while todo != {}
      invariant todo <= poolBackfills.Keys
      invariant Segmented(matches, order, cuts, poolTickets)
      invariant forall pool :: pool in order <==> pool in poolBackfills && pool !in todo && HasWork(pool, poolTickets)
      invariant AllFilledFirst(matches, order, cuts, poolBackfills, Full(before.Keys, ticketsPerMatch), maxTickets)
      invariant Balanced(matches, before, ticketsPerMatch)
      invariant WellMade(matches, before.Keys, ticketsPerMatch, maxTickets)
      decreases |todo|
    {
      var pool :| pool in todo;
      todo := todo - {pool};
      if pool !in poolTickets || poolTickets[pool] == [] {
        continue;
      }
      ghost var done, full := matches, Full(before.Keys, ticketsPerMatch);
      assert forall b :: b in poolBackfills[pool] ==> b in before;
      matches := ProcessPool(poolBackfills[pool], poolTickets[pool], matches, ticketsPerMatch, maxTickets, before);
      ghost var full' := Full(before.Keys, ticketsPerMatch);
      AllFilledFirstStep(done, matches, order, cuts, pool, poolBackfills, full, full', poolTickets, maxTickets);
      SegmentedStep(done, matches, order, cuts, pool, poolTickets);
      order, cuts := order + [pool], cuts + [|matches|];
    }
    forall b | b in Given(poolBackfills)
      ensures BooksOf(b.slots, Used(matches, b), FirstUse(matches, b), old(b.slots), ticketsPerMatch)
    {
      assert b in before;
    }
  }

  // ---------------------------------------------------------------- when the numbers are right

  lemma {:induction false} UsedOnce(ms: seq<Match>, i: nat)
    requires i < |ms| && forall j :: 0 <= j < |ms| && j != i ==> ms[j].backfill != ms[i].backfill
    ensures Used(ms, ms[i].backfill) == |ms[i].tickets|
  {
    var n := |ms| - 1;
    if i == n {
      UnusedIfAbsent(ms[..n], ms[i].backfill);
    } else {
      UsedOnce(ms[..n], i);
    }
  }

  /** A new backfill's used and open slots add up to a full match, and none is negative, exactly when
      its match does not overfill the game and what is left fits in 32 bits. */
  lemma NewBackfillsAddUp(matches: seq<Match>, given: set<Backfill>, ticketsPerMatch: int, maxTickets: int, i: nat)
    requires WellMade(matches, given, ticketsPerMatch, maxTickets) && i < |matches| && matches[i].allocate
    ensures var b, used := matches[i].backfill, |matches[i].tickets|;
            && Used(matches, b) == used
            && (used + b.Open(ticketsPerMatch) == ticketsPerMatch && b.Open(ticketsPerMatch) >= 0
                <==> used <= ticketsPerMatch <= used + INT32_MAX)
  {
    UsedOnce(matches, i);
    assert OpensNew(matches[i], ticketsPerMatch, maxTickets);
  }
}
