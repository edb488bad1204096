/** The team shooter scenario: profiles shard the players by region, mode and skill, and the
    match function slides a window over the tickets of one shard sorted by skill. */
module TeamShooter {
  import opened Domain
  import opened PoolFilter

  const SKILL_ARG := "skill"
  const MODE_ARG := "mode"

  datatype Ticket = Ticket(id: TicketId, fields: SearchFields)

  datatype Scenario = Scenario(
    regions: seq<string>, modes: seq<string>, playersPerGame: int, skillBoundaries: seq<Double>,
    maxSkillDifference: real)

  /** Adding a finite number to a float. */
  function Plus(d: Double, x: real): Double {
    if d.Finite? then Finite(d.r + x) else d
  }

  /** hi - lo < bound in float arithmetic, where inf - inf is not a number and compares false. */
  predicate DifferenceBelow(hi: Double, lo: Double, bound: real) {
    if hi.Finite? && lo.Finite? then hi.r - lo.r < bound
    else hi != lo && (hi.NegInf? || lo.PosInf?)
  }

  /** Absent from the map, an argument reads as zero. */
  function Skill(t: Ticket): Double {
    if SKILL_ARG in t.fields.doubles then t.fields.doubles[SKILL_ARG] else Finite(0.0)
  }

  function EntityOf(t: Ticket): Entity {
    Entity(Some(t.fields), None)
  }

  // ---------------------------------------------------------------- profiles

  /** The pool of one profile: the i-th skill range, widened by half the maximum difference on each side. */
  function Shard(s: Scenario, region: string, mode: string, i: nat): Pool
    requires i + 1 < |s.skillBoundaries|
  {
    Pool([DoubleRange(SKILL_ARG,
                      Plus(s.skillBoundaries[i], -(s.maxSkillDifference / 2.0)),
                      Plus(s.skillBoundaries[i + 1], s.maxSkillDifference / 2.0), NoBound)],
         [StringEquals(MODE_ARG, mode)], [region], None, None)
  }

  /** How many pairs of neighbouring boundaries there are. */
  function Ranges(s: Scenario): nat {
    if s.skillBoundaries == [] then 0 else |s.skillBoundaries| - 1
  }

  ghost function Row(s: Scenario, region: string, mode: string, n: nat): seq<Pool>
    requires n <= Ranges(s)
  {
    seq(n, i requires 0 <= i < n => Shard(s, region, mode, i))
  }

  ghost function Block(s: Scenario, region: string, m: nat): seq<Pool>
    requires m <= |s.modes|
  {
    if m == 0 then [] else Block(s, region, m - 1) + Row(s, region, s.modes[m - 1], Ranges(s))
  }

  ghost function Shards(s: Scenario, r: nat): seq<Pool>
    requires r <= |s.regions|
  {
    if r == 0 then [] else Shards(s, r - 1) + Block(s, s.regions[r - 1], |s.modes|)
  }

  /** One profile, with one pool, for every region, mode and pair of neighbouring boundaries. */
  method Profiles(s: Scenario) returns (pools: seq<Pool>)
    ensures pools == Shards(s, |s.regions|)
  {
    pools := [];
    for r := 0 to |s.regions|
      invariant pools == Shards(s, r)
    {
      ghost var before := pools;
      for m := 0 to |s.modes|
        invariant pools == before + Block(s, s.regions[r], m)
      {
        ghost var before' := pools;
        var i := 0;
        while i + 1 < |s.skillBoundaries|
          invariant 0 <= i <= Ranges(s)
          invariant pools == before' + Row(s, s.regions[r], s.modes[m], i)
        {
          pools := pools + [Shard(s, s.regions[r], s.modes[m], i)];
          i := i + 1;
        }
      }
    }
  }

  lemma {:induction false} BlockHolds(s: Scenario, region: string, m: nat, pool: Pool)
    requires m <= |s.modes|
    ensures pool in Block(s, region, m) <==>
        exists b, i :: 0 <= b < m && 0 <= i < Ranges(s) && pool == Shard(s, region, s.modes[b], i)
  {
    if m == 0 {
    } else {
      BlockHolds(s, region, m - 1, pool);
      var row := Row(s, region, s.modes[m - 1], Ranges(s));
      if pool in row {
        var i :| 0 <= i < |row| && pool == row[i];
        assert pool == Shard(s, region, s.modes[m - 1], i);
      }
      forall b, i | 0 <= b < m && 0 <= i < Ranges(s) && pool == Shard(s, region, s.modes[b], i)
        ensures pool in Block(s, region, m)
      {
        assert b == m - 1 ==> row[i] == pool;
      }
    }
  }

  /** A pool is listed exactly when it is some region's, some mode's and some range's. */
  lemma {:induction false} ShardsHold(s: Scenario, r: nat, pool: Pool)
    requires r <= |s.regions|
    ensures pool in Shards(s, r) <==>
            exists a, b, i ::
              0 <= a < r && 0 <= b < |s.modes| && 0 <= i < Ranges(s) && pool == Shard(s, s.regions[a], s.modes[b], i)
  {
    if r == 0 {
    } else {
      ShardsHold(s, r - 1, pool);
      BlockHolds(s, s.regions[r - 1], |s.modes|, pool);
    }
  }

  /** The skill lies in the i-th range, widened by half the maximum difference on each side. */
  ghost predicate InWidenedRange(s: Scenario, i: nat, skill: Double)
    requires i + 1 < |s.skillBoundaries|
  {
    var lo, hi, margin := s.skillBoundaries[i], s.skillBoundaries[i + 1], s.maxSkillDifference / 2.0;
    && (lo.Finite? ==> skill.PosInf? || (skill.Finite? && skill.r >= lo.r - margin))
    && (lo.PosInf? ==> skill.PosInf?)
    && (hi.Finite? ==> skill.NegInf? || (skill.Finite? && skill.r <= hi.r + margin))
    && (hi.NegInf? ==> skill.NegInf?)
  }

  /** A profile's pool admits exactly the tickets of its region and mode with a skill in its widened range. */
  lemma ShardAdmitsExactly(s: Scenario, region: string, mode: string, i: nat, t: Ticket)
    requires i + 1 < |s.skillBoundaries|
    ensures NewPoolFilter(Shard(s, region, mode, i)).Some?
    ensures In(NewPoolFilter(Shard(s, region, mode, i)).value, EntityOf(t)) <==>
            && region in t.fields.tags
            && MODE_ARG in t.fields.strings && t.fields.strings[MODE_ARG] == mode
            && SKILL_ARG in t.fields.doubles && InWidenedRange(s, i, t.fields.doubles[SKILL_ARG])
  {
    InMeans(Shard(s, region, mode, i), EntityOf(t));
    var pool := Shard(s, region, mode, i);
    assert pool.doubles[0] in pool.doubles && pool.strings[0] in pool.strings && pool.tags[0] in pool.tags;
  }

  // ---------------------------------------------------------------- the match function

  ghost predicate SortedBySkill(q: seq<Ticket>) {
    forall i, j :: 0 <= i < j < |q| ==> AtLeast(Skill(q[j]), Skill(q[i]))
  }

  /** Whatever order sort.Slice leaves the tickets in. */
  ghost predicate IsSortOf(q: seq<Ticket>, tickets: seq<Ticket>) {
    multiset(q) == multiset(tickets) && SortedBySkill(q)
  }

  /** The window of n tickets at i is proposed. */
  predicate Close(q: seq<Ticket>, i: nat, n: nat, bound: real)
    requires 0 < n && i + n <= |q|
  {
    DifferenceBelow(Skill(q[i + n - 1]), Skill(q[i]), bound)
  }

  /** The close windows among those starting before k, in order. */
  ghost function Windows(q: seq<Ticket>, n: nat, bound: real, k: nat): seq<seq<Ticket>>
    requires 0 < n && (k > 0 ==> k - 1 + n <= |q|)
  {
    if k == 0 then []
    else Windows(q, n, bound, k - 1) + if Close(q, k - 1, n, bound) then [q[k - 1..k - 1 + n]] else []
  }

  /** How many windows of n tickets there are. */
  function Starts(q: seq<Ticket>, n: nat): nat {
    if n <= |q| then |q| - n + 1 else 0
  }

  /** `sorted` is the order the sort left the pool's tickets in. The result lists the matches' tickets. */
  method MatchFunction(s: Scenario, tickets: seq<Ticket>, sorted: seq<Ticket>) returns (matches: seq<seq<Ticket>>)
    requires s.playersPerGame >= 1
    requires IsSortOf(sorted, tickets)
    ensures matches == Windows(sorted, s.playersPerGame, s.maxSkillDifference, Starts(sorted, s.playersPerGame))
  {
    var n := s.playersPerGame;
    matches := [];
    var i := 0;
    while i + n <= |sorted|
      invariant 0 <= i <= Starts(sorted, n)
      invariant matches == Windows(sorted, n, s.maxSkillDifference, i)
    {
      var mt := sorted[i..i + n];
      if DifferenceBelow(Skill(mt[|mt| - 1]), Skill(mt[0]), s.maxSkillDifference) {
        matches := matches + [mt];
      }
      i := i + 1;
    }
  }

  /** w is the close window at i. */
  ghost predicate WindowAt(q: seq<Ticket>, n: nat, bound: real, i: nat, w: seq<Ticket>) {
    0 < n && i + n <= |q| && w == q[i..i + n] && Close(q, i, n, bound)
  }

  lemma {:induction false} WindowsHold(q: seq<Ticket>, n: nat, bound: real, k: nat, w: seq<Ticket>)
    requires 0 < n && (k > 0 ==> k - 1 + n <= |q|)
    ensures w in Windows(q, n, bound, k) <==> exists i: nat :: i < k && WindowAt(q, n, bound, i, w)
  {
    if k == 0 {
    } else {
      WindowsHold(q, n, bound, k - 1, w);
      assert w in Windows(q, n, bound, k) <==> w in Windows(q, n, bound, k - 1) || WindowAt(q, n, bound, k - 1, w);
    }
  }

  /** Every two tickets of the group differ in skill by less than the bound. */
  ghost predicate SpreadBelow(group: seq<Ticket>, bound: real) {
    forall a, b :: a in group && b in group ==> DifferenceBelow(Skill(a), Skill(b), bound)
  }

  /** In a sorted list a window's ends bound every difference inside it. */
  lemma WindowIsFair(q: seq<Ticket>, i: nat, n: nat, bound: real)
    requires SortedBySkill(q) && 0 < n && i + n <= |q| && Close(q, i, n, bound)
    ensures |q[i..i + n]| == n && SpreadBelow(q[i..i + n], bound)
  {
    var w := q[i..i + n];
    forall a, b | a in w && b in w
      ensures DifferenceBelow(Skill(a), Skill(b), bound)
    {
      var x :| i <= x < i + n && q[x] == a;
      var y :| i <= y < i + n && q[y] == b;
      assert AtLeast(Skill(q[i + n - 1]), Skill(a)) && AtLeast(Skill(a), Skill(q[i]));
      assert AtLeast(Skill(q[i + n - 1]), Skill(b)) && AtLeast(Skill(b), Skill(q[i]));
    }
  }

  // ---------------------------------------------------------------- completeness

  /** An infinite skill is not even close to itself. */
  lemma SpreadIsFinite(group: seq<Ticket>, bound: real)
    requires SpreadBelow(group, bound)
    ensures forall t :: t in group ==> Skill(t).Finite?
  {
    forall t | t in group
      ensures Skill(t).Finite?
    {
      assert DifferenceBelow(Skill(t), Skill(t), bound);
    }
  }

  /** The group's lowest and highest skills, both finite. */
  ghost predicate Extremes(group: seq<Ticket>, lo: real, hi: real) {
    && (forall t :: t in group ==> Skill(t).Finite? && lo <= Skill(t).r <= hi)
    && (exists a, b :: a in group && b in group && Skill(a) == Finite(lo) && Skill(b) == Finite(hi))
  }

  lemma {:induction false} ExtremesExist(group: seq<Ticket>) returns (lo: real, hi: real)
    requires group != [] && forall t :: t in group ==> Skill(t).Finite?
    ensures Extremes(group, lo, hi)
  {
    var x := group[|group| - 1];
    if |group| == 1 {
      lo, hi := Skill(x).r, Skill(x).r;
      assert x in group;
    } else {
      var rest := group[..|group| - 1];
      lo, hi := ExtremesExist(rest);
      var a, b :| a in rest && b in rest && Skill(a) == Finite(lo) && Skill(b) == Finite(hi);
      assert a in group && b in group && x in group;
      if Skill(x).r < lo { lo := Skill(x).r; }
      if Skill(x).r > hi { hi := Skill(x).r; }
    }
  }

  /** Somewhere between the two infinite ends, two neighbouring boundaries enclose any given skill. */
  lemma {:induction false} Enclosed(bs: seq<Double>, x: real) returns (i: nat)
    requires |bs| >= 2 && AtLeast(Finite(x), bs[0]) && bs[|bs| - 1] == PosInf
    ensures i + 1 < |bs| && AtLeast(Finite(x), bs[i]) && AtLeast(bs[i + 1], Finite(x))
  {
    if AtLeast(bs[1], Finite(x)) {
      i := 0;
    } else {
      i := Enclosed(bs[1..], x);
      i := i + 1;
    }
  }

  /** All of the group pass the filter of one pool. */
  ghost predicate AllIn(pool: Pool, group: seq<Ticket>) {
    NewPoolFilter(pool).Some? && forall t :: t in group ==> In(NewPoolFilter(pool).value, EntityOf(t))
  }

  lemma SkillInShard(s: Scenario, region: string, mode: string, i: nat, t: Ticket, lo: real, hi: real)
    requires i + 1 < |s.skillBoundaries|
    requires hi - lo < s.maxSkillDifference
    requires AtLeast(Finite((lo + hi) / 2.0), s.skillBoundaries[i])
    requires AtLeast(s.skillBoundaries[i + 1], Finite((lo + hi) / 2.0))
    requires SKILL_ARG in t.fields.doubles && Skill(t).Finite? && lo <= Skill(t).r <= hi
    requires region in t.fields.tags && MODE_ARG in t.fields.strings && t.fields.strings[MODE_ARG] == mode
    ensures In(NewPoolFilter(Shard(s, region, mode, i)).value, EntityOf(t))
  {
    InMeans(Shard(s, region, mode, i), EntityOf(t));
  }

  /** Two tickets whose skills, zero where absent, are finite numbers less than the bound apart. */
  ghost predicate CloseInSkill(a: Ticket, b: Ticket, bound: real) {
    var x := if SKILL_ARG in a.fields.doubles then a.fields.doubles[SKILL_ARG] else Finite(0.0);
    var y := if SKILL_ARG in b.fields.doubles then b.fields.doubles[SKILL_ARG] else Finite(0.0);
    x.Finite? && y.Finite? && -bound < x.r - y.r < bound
  }

  /** A group that could play together: same region, same mode, skills closer than the maximum. */
  ghost predicate CouldPlay(s: Scenario, group: seq<Ticket>, region: string, mode: string) {
    && |group| == s.playersPerGame >= 1 && region in s.regions && mode in s.modes
    && (forall t :: t in group ==> region in t.fields.tags)
    && (forall t :: t in group ==> MODE_ARG in t.fields.strings && t.fields.strings[MODE_ARG] == mode)
    && (forall t :: t in group ==> SKILL_ARG in t.fields.doubles)
    && (forall a, b :: a in group && b in group ==> CloseInSkill(a, b, s.maxSkillDifference))
  }

  ghost predicate BoundariesCoverAll(s: Scenario) {
    |s.skillBoundaries| >= 2 && s.skillBoundaries[0] == NegInf && s.skillBoundaries[|s.skillBoundaries| - 1] == PosInf
  }

  lemma PlayersAreSpreadBelow(s: Scenario, group: seq<Ticket>, region: string, mode: string)
    requires CouldPlay(s, group, region, mode)
    ensures SpreadBelow(group, s.maxSkillDifference)
  {
    forall a, b | a in group && b in group ensures DifferenceBelow(Skill(a), Skill(b), s.maxSkillDifference) {
      assert CloseInSkill(a, b, s.maxSkillDifference);
    }
  }

  /** Sharding never separates them: some profile's pool admits all of the group. */
  lemma SomeProfileAdmitsAll(s: Scenario, group: seq<Ticket>, region: string, mode: string) returns (i: nat)
    requires BoundariesCoverAll(s) && CouldPlay(s, group, region, mode)
    ensures i + 1 < |s.skillBoundaries| && AllIn(Shard(s, region, mode, i), group)
  {
    PlayersAreSpreadBelow(s, group, region, mode);
    SpreadIsFinite(group, s.maxSkillDifference);
    var lo, hi := ExtremesExist(group);
    i := Enclosed(s.skillBoundaries, (lo + hi) / 2.0);
    forall t | t in group
      ensures In(NewPoolFilter(Shard(s, region, mode, i)).value, EntityOf(t))
    {
      SkillInShard(s, region, mode, i, t, lo, hi);
    }
  }

  /** Where, in a sorted list, the skills from x up begin. */
  lemma {:induction false} Cut(q: seq<Ticket>, x: real, strict: bool) returns (k: nat)
    requires SortedBySkill(q)
    ensures k <= |q|
    ensures forall i :: 0 <= i < k ==> !Reaches(q[i], x, strict)
    ensures forall i :: k <= i < |q| ==> Reaches(q[i], x, strict)
  {
    if q == [] || !Reaches(q[|q| - 1], x, strict) {
      k := |q|;
    } else {
      k := Cut(q[..|q| - 1], x, strict);
    }
  }

  /** skill > x when strict, skill >= x otherwise. */
  ghost predicate Reaches(t: Ticket, x: real, strict: bool) {
    if strict then !AtLeast(Finite(x), Skill(t)) else AtLeast(Skill(t), Finite(x))
  }

  lemma {:induction false} FitsInSlice(q: seq<Ticket>, group: seq<Ticket>, i: nat, j: nat)
    requires i <= j <= |q| && multiset(group) <= multiset(q)
    requires forall t :: t in group ==> t !in q[..i] && t !in q[j..]
    ensures |group| <= j - i
  {
    var mid := q[i..j];
    assert q == q[..i] + mid + q[j..];
    forall t
      ensures multiset(group)[t] <= multiset(mid)[t]
    {
      if t in multiset(group) {
        assert t in group;
        assert multiset(q)[t] == multiset(q[..i])[t] + multiset(mid)[t] + multiset(q[j..])[t];
      }
    }
    assert multiset(group) <= multiset(mid);
    assert multiset(mid) == multiset(group) + (multiset(mid) - multiset(group));
    assert |multiset(mid)| == |mid| && |multiset(group)| == |group|;
  }

  /** The window always finds something: if the pool holds the group, some window is close enough. */
  lemma SomeWindowIsClose(s: Scenario, group: seq<Ticket>, q: seq<Ticket>, lo: real, hi: real) returns (i: nat)
    requires SortedBySkill(q) && multiset(group) <= multiset(q) && |group| == s.playersPerGame >= 1
    requires Extremes(group, lo, hi) && hi - lo < s.maxSkillDifference
    ensures i + s.playersPerGame <= |q| && Close(q, i, s.playersPerGame, s.maxSkillDifference)
  {
    i := Cut(q, lo, false);
    var j := Cut(q, hi, true);
    assert forall t :: t in group ==> Reaches(t, lo, false) && !Reaches(t, hi, true);
    var a :| a in group;
    assert a in multiset(q);
    var x :| 0 <= x < |q| && q[x] == a;
    assert i <= x < j;
    assert forall t :: t in q[..i] ==> !Reaches(t, lo, false);
    assert forall t :: t in q[j..] ==> Reaches(t, hi, true);
    FitsInSlice(q, group, i, j);
    var last := i + s.playersPerGame - 1;
    assert Reaches(q[i], lo, false) && !Reaches(q[last], hi, true);
    assert AtLeast(Skill(q[last]), Skill(q[i]));
  }

  /**
   * Completeness: any playersPerGame tickets that share a region and a mode and are spread less
   * than the maximum are all admitted by one of the scenario's profiles; and on any pool that
   * holds them, in whatever order the sort leaves it, the match function makes a proposal.
   */
  lemma NobodyIsStranded(s: Scenario, group: seq<Ticket>, region: string, mode: string)
    requires BoundariesCoverAll(s) && CouldPlay(s, group, region, mode)
    ensures exists pool :: pool in Shards(s, |s.regions|) && AllIn(pool, group)
    ensures forall q :: SortedBySkill(q) && multiset(group) <= multiset(q) ==>
              Windows(q, s.playersPerGame, s.maxSkillDifference, Starts(q, s.playersPerGame)) != []
  {
    var i := SomeProfileAdmitsAll(s, group, region, mode);
    PlayersAreSpreadBelow(s, group, region, mode);
    ShardsHold(s, |s.regions|, Shard(s, region, mode, i));
    forall q | SortedBySkill(q) && multiset(group) <= multiset(q)
      ensures Windows(q, s.playersPerGame, s.maxSkillDifference, Starts(q, s.playersPerGame)) != []
    {
      GroupYieldsWindow(s, group, q);
    }
  }

  lemma GroupYieldsWindow(s: Scenario, group: seq<Ticket>, q: seq<Ticket>)
    requires |group| == s.playersPerGame >= 1 && SpreadBelow(group, s.maxSkillDifference)
    requires SortedBySkill(q) && multiset(group) <= multiset(q)
    ensures Windows(q, s.playersPerGame, s.maxSkillDifference, Starts(q, s.playersPerGame)) != []
  {
    SpreadIsFinite(group, s.maxSkillDifference);
    var lo, hi := ExtremesExist(group);
    var k := SomeWindowIsClose(s, group, q, lo, hi);
    var w := q[k..k + s.playersPerGame];
    assert WindowAt(q, s.playersPerGame, s.maxSkillDifference, k, w);
    WindowsHold(q, s.playersPerGame, s.maxSkillDifference, Starts(q, s.playersPerGame), w);
  }

  lemma SpreadIsClose(group: seq<Ticket>, bound: real)
    requires SpreadBelow(group, bound)
    ensures forall a, b :: a in group && b in group ==> CloseInSkill(a, b, bound)
  {
    SpreadIsFinite(group, bound);
    forall a, b | a in group && b in group ensures CloseInSkill(a, b, bound) {
      assert DifferenceBelow(Skill(a), Skill(b), bound);
      assert DifferenceBelow(Skill(b), Skill(a), bound);
    }
  }

  lemma SliceIsPart(q: seq<Ticket>, i: nat, n: nat)
    requires i + n <= |q|
    ensures multiset(q[i..i + n]) <= multiset(q)
  {
    assert q == q[..i] + q[i..i + n] + q[i + n..];
  }

  /** Soundness: every proposal is playersPerGame tickets of the pool, spread less than the maximum. */
  lemma EveryProposalIsFair(s: Scenario, q: seq<Ticket>, w: seq<Ticket>)
    requires s.playersPerGame >= 1 && SortedBySkill(q)
    requires w in Windows(q, s.playersPerGame, s.maxSkillDifference, Starts(q, s.playersPerGame))
    ensures |w| == s.playersPerGame && multiset(w) <= multiset(q)
    ensures forall a, b :: a in w && b in w ==> CloseInSkill(a, b, s.maxSkillDifference)
  {
    var n := s.playersPerGame;
    WindowsHold(q, n, s.maxSkillDifference, Starts(q, n), w);
    var i: nat :| i < Starts(q, n) && WindowAt(q, n, s.maxSkillDifference, i, w);
    WindowIsFair(q, i, n, s.maxSkillDifference);
    SliceIsPart(q, i, n);
    SpreadIsClose(w, s.maxSkillDifference);
  }
}
