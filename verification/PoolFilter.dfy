/** Pools: which tickets and backfills a pool selects. */
module PoolFilter {
  import opened Domain

  /** A protobuf timestamp. */
  datatype Timestamp = Timestamp(seconds: int, nanos: int)

  datatype SearchFields = SearchFields(doubles: map<string, Double>, strings: map<string, string>, tags: seq<string>)

  /** Unlisted: an enum value this version of the protocol does not name. */
  datatype Exclude = NoBound | MinBound | MaxBound | BothBounds | Unlisted

  datatype DoubleRange = DoubleRange(arg: string, min: Double, max: Double, exclude: Exclude)
  datatype StringEquals = StringEquals(arg: string, value: string)

  datatype Pool = Pool(
    doubles: seq<DoubleRange>, strings: seq<StringEquals>, tags: seq<string>,
    createdBefore: Option<Timestamp>, createdAfter: Option<Timestamp>)

  /** What a filter reads of a ticket or a backfill. */
  datatype Entity = Entity(fields: Option<SearchFields>, createTime: Option<Timestamp>)

  // ---------------------------------------------------------------- time

  const NANOS: int := 1_000_000_000

  /** Go's zero time, 0001-01-01T00:00:00Z, in nanoseconds since 1970. It is also the earliest valid timestamp. */
  const ZERO_TIME: int := -62_135_596_800 * NANOS

  /** The first second that is too late: 10000-01-01T00:00:00Z. */
  const END_OF_TIME: int := 253_402_300_800 * NANOS

  /** The nanosecond a timestamp denotes, when it is valid. */
  function Instant(ts: Timestamp): (t: Option<int>)
    ensures t.Some? ==> ZERO_TIME <= t.value < END_OF_TIME
  {
    var t := ts.seconds * NANOS + ts.nanos;
    if 0 <= ts.nanos < NANOS && ZERO_TIME <= ts.seconds * NANOS && ts.seconds * NANOS < END_OF_TIME then Some(t)
    else None
  }

  /** Valid timestamps are those from the year 1 to the year 9999 with nanoseconds below a second, and
      their instants are in the order of seconds, then nanoseconds. */
  lemma InstantOrder(a: Timestamp, b: Timestamp)
    ensures Instant(a).Some? <==> -62_135_596_800 <= a.seconds < 253_402_300_800 && 0 <= a.nanos < 1_000_000_000
    ensures Instant(a).Some? && Instant(b).Some? ==>
              (Instant(a).value < Instant(b).value <==>
               a.seconds < b.seconds || (a.seconds == b.seconds && a.nanos < b.nanos))
    ensures Instant(a).Some? && Instant(b).Some? ==>
              Instant(b).value - Instant(a).value == 1_000_000_000 * (b.seconds - a.seconds) + (b.nanos - a.nanos)
  {
  }

  // ---------------------------------------------------------------- the filter, as the code runs it

  datatype PoolFilter = PoolFilter(
    doubles: seq<DoubleRange>, strings: seq<StringEquals>, tags: seq<string>, createdBefore: int, createdAfter: int)

  /** None: the request is rejected as an invalid argument. */
  function NewPoolFilter(pool: Pool): Option<PoolFilter> {
    var cb := if pool.createdBefore.None? then Some(ZERO_TIME) else Instant(pool.createdBefore.value);
    var ca := if pool.createdAfter.None? then Some(ZERO_TIME) else Instant(pool.createdAfter.value);
    if cb.None? || ca.None? then None
    else Some(PoolFilter(pool.doubles, pool.strings, pool.tags, cb.value, ca.value))
  }

  /** v > w */
  predicate Above(v: Double, w: Double) {
    !AtLeast(w, v)
  }

  predicate TimeIn(pf: PoolFilter, created: Option<Timestamp>) {
    if pf.createdAfter == ZERO_TIME && pf.createdBefore == ZERO_TIME then true
    else
      var ct := if created.None? then None else Instant(created.value);
      || ct.None?
      || (&& (pf.createdAfter != ZERO_TIME ==> ct.value > pf.createdAfter)
          && (pf.createdBefore != ZERO_TIME ==> ct.value < pf.createdBefore))
  }

  predicate DoubleIn(f: DoubleRange, s: SearchFields) {
    f.arg in s.doubles &&
    var v := s.doubles[f.arg];
    match f.exclude
    case NoBound => AtLeast(v, f.min) && AtLeast(f.max, v)
    case MinBound => Above(v, f.min) && AtLeast(f.max, v)
    case MaxBound => AtLeast(v, f.min) && Above(f.max, v)
    case BothBounds => Above(v, f.min) && Above(f.max, v)
    case Unlisted => true
  }

  predicate DoublesIn(fs: seq<DoubleRange>, s: SearchFields) {
    fs == [] || (DoubleIn(fs[0], s) && DoublesIn(fs[1..], s))
  }

  predicate StringsIn(fs: seq<StringEquals>, s: SearchFields) {
    fs == [] || (fs[0].arg in s.strings && fs[0].value == s.strings[fs[0].arg] && StringsIn(fs[1..], s))
  }

  predicate TagsIn(fs: seq<string>, s: SearchFields) {
    fs == [] || (fs[0] in s.tags && TagsIn(fs[1..], s))
  }

  function FieldsOf(e: Entity): SearchFields {
    if e.fields.None? then SearchFields(map[], map[], []) else e.fields.value
  }

  predicate In(pf: PoolFilter, e: Entity) {
    var s := FieldsOf(e);
    TimeIn(pf, e.createTime) && DoublesIn(pf.doubles, s) && StringsIn(pf.strings, s) && TagsIn(pf.tags, s)
  }

  // ---------------------------------------------------------------- what a pool means

  /** A range admits the values between its ends, without the ends it excludes. */
  ghost predicate Admits(f: DoubleRange, v: Double) {
    f.exclude == Unlisted ||
    (&& AtLeast(v, f.min) && AtLeast(f.max, v)
     && (f.exclude == MinBound || f.exclude == BothBounds ==> v != f.min)
     && (f.exclude == MaxBound || f.exclude == BothBounds ==> v != f.max))
  }

  /** A bound on creation time is strict; absent, or set to the zero time, it bounds nothing. */
  ghost predicate CreatedWithin(pool: Pool, created: Option<Timestamp>) {
    created.Some? && Instant(created.value).Some? ==>
      var t := Instant(created.value).value;
      && (pool.createdAfter.Some? && Instant(pool.createdAfter.value) != Some(ZERO_TIME) ==>
            Instant(pool.createdAfter.value).Some? && Instant(pool.createdAfter.value).value < t)
      && (pool.createdBefore.Some? && Instant(pool.createdBefore.value) != Some(ZERO_TIME) ==>
            Instant(pool.createdBefore.value).Some? && t < Instant(pool.createdBefore.value).value)
  }

  /** An entity belongs to a pool when it meets every one of the pool's conditions. */
  ghost predicate Belongs(pool: Pool, e: Entity) {
    var s := FieldsOf(e);
    && CreatedWithin(pool, e.createTime)
    && (forall f :: f in pool.doubles ==> f.arg in s.doubles && Admits(f, s.doubles[f.arg]))
    && (forall f :: f in pool.strings ==> f.arg in s.strings && s.strings[f.arg] == f.value)
    && (forall tag :: tag in pool.tags ==> tag in s.tags)
  }

  lemma {:induction false} DoublesMean(fs: seq<DoubleRange>, s: SearchFields)
    ensures DoublesIn(fs, s) <==> forall f :: f in fs ==> f.arg in s.doubles && Admits(f, s.doubles[f.arg])
  {
    if fs == [] {
    } else {
      DoublesMean(fs[1..], s);
      assert fs == [fs[0]] + fs[1..];
      assert DoubleIn(fs[0], s) <==> fs[0].arg in s.doubles && Admits(fs[0], s.doubles[fs[0].arg]);
    }
  }

  lemma {:induction false} StringsMean(fs: seq<StringEquals>, s: SearchFields)
    ensures StringsIn(fs, s) <==> forall f :: f in fs ==> f.arg in s.strings && s.strings[f.arg] == f.value
  {
    if fs == [] {
    } else {
      StringsMean(fs[1..], s);
      assert fs == [fs[0]] + fs[1..];
    }
  }

  lemma {:induction false} TagsMean(fs: seq<string>, s: SearchFields)
    ensures TagsIn(fs, s) <==> forall tag :: tag in fs ==> tag in s.tags
  {
    if fs == [] {
    } else {
      TagsMean(fs[1..], s);
      assert fs == [fs[0]] + fs[1..];
    }
  }

  /** A pool is rejected exactly when a time bound is invalid; otherwise the filter selects exactly
      what the pool means. */
  lemma InMeans(pool: Pool, e: Entity)
    ensures NewPoolFilter(pool).None? <==>
            || (pool.createdBefore.Some? && Instant(pool.createdBefore.value).None?)
            || (pool.createdAfter.Some? && Instant(pool.createdAfter.value).None?)
    ensures NewPoolFilter(pool).Some? ==> (In(NewPoolFilter(pool).value, e) <==> Belongs(pool, e))
  {
    DoublesMean(pool.doubles, FieldsOf(e));
    StringsMean(pool.strings, FieldsOf(e));
    TagsMean(pool.tags, FieldsOf(e));
  }
}
