/** The config Cacher: it memoises a constructed object together with every config value the
    constructor read, and rebuilds exactly when one of those values has changed. */
module ConfigCacher {
  import opened Domain

  /** The eight kinds of lookup a config View offers. */
  datatype Kind = IsSet | GetString | GetInt | GetInt64 | GetFloat64 | GetStringSlice | GetBool | GetDuration

  datatype Lookup = Lookup(kind: Kind, key: string)

  datatype Value = BoolV(b: bool) | StringV(s: string) | IntV(i: int) | FloatV(f: real) | SliceV(items: seq<string>)

  /** A config is what every lookup answers at one moment. */
  type View = Lookup -> Value

  /** What a constructor does next. An object or an error may come with a closer. */
  datatype Action = Ask(lookup: Lookup) | Give(obj: int, closer: bool) | Raise(err: string, closer: bool)

  /** A deterministic constructor: its next action is a function of the values it has read so far,
      and it makes at most `limit` reads. */
  datatype Ctor = Ctor(next: seq<Value> -> Action, limit: nat) {
    ghost predicate Finishes() {
      forall vs: seq<Value> :: |vs| >= limit ==> !next(vs).Ask?
    }
  }

  datatype Built = Object(obj: int) | Error(err: string)

  /** What the constructor returns under a config, having read `vs` so far. */
  ghost function Build(c: Ctor, cfg: View, vs: seq<Value>): Built
    requires c.Finishes()
    decreases c.limit - |vs|
  {
    match c.next(vs)
    case Give(obj, _) => Object(obj)
    case Raise(err, _) => Error(err)
    case Ask(lookup) => Build(c, cfg, vs + [cfg(lookup)])
  }

  /** Whether what the constructor returns under a config comes with a closer. */
  ghost function BuildsCloser(c: Ctor, cfg: View, vs: seq<Value>): bool
    requires c.Finishes()
    decreases c.limit - |vs|
  {
    match c.next(vs)
    case Give(_, closer) => closer
    case Raise(_, closer) => closer
    case Ask(lookup) => BuildsCloser(c, cfg, vs + [cfg(lookup)])
  }

  /** `vs` is what the constructor reads when `seen` answers its lookups. */
  ghost predicate Trace(c: Ctor, seen: map<Lookup, Value>, vs: seq<Value>) {
    forall i :: 0 <= i < |vs| ==>
      c.next(vs[..i]).Ask? && c.next(vs[..i]).lookup in seen && seen[c.next(vs[..i]).lookup] == vs[i]
  }

  ghost predicate Agrees(seen: map<Lookup, Value>, cfg: View) {
    forall l :: l in seen ==> cfg(l) == seen[l]
  }

  /** When every recorded value still holds, a fresh build reads the same values again. */
  lemma {:induction false} UnchangedReadsRebuildTheSame(
      c: Ctor, seen: map<Lookup, Value>, vs: seq<Value>, cfg: View, i: nat)
    requires c.Finishes() && Trace(c, seen, vs) && Agrees(seen, cfg) && i <= |vs|
    ensures Build(c, cfg, vs[..i]) == Build(c, cfg, vs)
    ensures BuildsCloser(c, cfg, vs[..i]) == BuildsCloser(c, cfg, vs)
    decreases |vs| - i
  {
    if i < |vs| {
      UnchangedReadsRebuildTheSame(c, seen, vs, cfg, i + 1);
      assert vs[..i] + [vs[i]] == vs[..i + 1];
    } else {
      assert vs[..i] == vs;
    }
  }

  class ViewChangeDetector {
    var seen: map<Lookup, Value>

    constructor ()
      ensures seen == map[]
    {
      seen := map[];
    }

    /** A recorded read of the live config. */
    method Get(cfg: View, l: Lookup) returns (v: Value)
      modifies this
      ensures v == cfg(l) && seen == old(seen)[l := v]
    {
      v := cfg(l);
      seen := seen[l := v];
    }

    method HasChanges(cfg: View) returns (changed: bool)
      ensures changed <==> !Agrees(seen, cfg)
    {
      var todo := seen.Keys;
      while todo != {}
        invariant todo <= seen.Keys
        invariant forall l :: l in seen && l !in todo ==> cfg(l) == seen[l]
        decreases |todo|
      {
        var l :| l in todo;
        if cfg(l) != seen[l] {
          return true;
        }
        todo := todo - {l};
      }
      return false;
    }
  }

  /** c: the number of the closer to run on reset. made and closed: closers handed out and run. */
  class Cacher {
    const newInstance: Ctor
    var r: ViewChangeDetector?
    var v: Option<int>
    var c: Option<nat>
    ghost var trace: seq<Value>
    var made: nat
    var closed: seq<nat>

    /** Every closer handed out has been run exactly once, or is the one held. */
    ghost predicate ClosersOnce()
      reads this
    {
      && (forall i, j :: 0 <= i < j < |closed| ==> closed[i] != closed[j])
      && (forall k: nat :: k < made <==> k in closed || c == Some(k))
      && (c.Some? ==> c.value !in closed)
    }

    ghost predicate Valid()
      reads this, r
    {
      && newInstance.Finishes()
      && ClosersOnce()
      && (r == null ==> v == None && c == None)
      && (r != null ==> v.Some? && Trace(newInstance, r.seen, trace))
      && (r != null ==> newInstance.next(trace).Give? && newInstance.next(trace).obj == v.value)
      && (r != null ==> (c.Some? <==> newInstance.next(trace).closer))
    }

    constructor (newInstance: Ctor)
      requires newInstance.Finishes()
      ensures Valid() && this.newInstance == newInstance && r == null && made == 0 && closed == []
    {
      this.newInstance := newInstance;
      r, v, c, trace, made, closed := null, None, None, [], 0, [];
    }

    /** Runs the constructor against the detector. */
    method Construct(d: ViewChangeDetector, cfg: View) returns (res: Built, closer: bool, ghost vs: seq<Value>)
      requires newInstance.Finishes() && d.seen == map[]
      modifies d
      ensures res == Build(newInstance, cfg, []) && closer == BuildsCloser(newInstance, cfg, [])
      ensures Agrees(d.seen, cfg) && Trace(newInstance, d.seen, vs) && !newInstance.next(vs).Ask?
      ensures res.Object? <==> newInstance.next(vs).Give?
      ensures res.Object? ==> res.obj == newInstance.next(vs).obj && closer == newInstance.next(vs).closer
    {
      var read: seq<Value> := [];
      while newInstance.next(read).Ask?
        invariant Agrees(d.seen, cfg) && Trace(newInstance, d.seen, read)
        invariant Build(newInstance, cfg, []) == Build(newInstance, cfg, read)
        invariant BuildsCloser(newInstance, cfg, []) == BuildsCloser(newInstance, cfg, read)
        decreases newInstance.limit - |read|
      {
        ghost var before := read;
        var x := d.Get(cfg, newInstance.next(read).lookup);
        read := read + [x];
        assert forall i :: 0 <= i < |before| ==> read[..i] == before[..i];
        assert read[..|before|] == before;
      }
      vs := read;
      match newInstance.next(read) {
        case Give(obj, cl) => res, closer := Object(obj), cl;
        case Raise(err, cl) => res, closer := Error(err), cl;
      }
    }

    /** locklessReset: run the closer, if any, and forget everything. */
    method Reset()
      requires newInstance.Finishes() && ClosersOnce()
      modifies this
      ensures Valid() && r == null && made == old(made)
      ensures closed == old(closed) + (if old(c).Some? then [old(c).value] else [])
    {
      if c.Some? {
        closed := closed + [c.value];
      }
      c, r, v := None, null, None;
    }

    /** Get answers as a fresh build under the current config would, whatever happened before. It
        keeps the cached object, closing and constructing nothing, when no recorded value changed.
        Otherwise it runs the closer it holds, and takes the one the new build comes with: to keep it
        with a new object, or to run it after an error. */
    method Get(cfg: View) returns (res: Built)
      requires Valid()
      modifies this
      ensures Valid()
      ensures res == Build(newInstance, cfg, [])
      ensures r == null <==> res.Error?
      ensures var keep := old(r) != null && Agrees(old(r.seen), cfg);
              && (keep ==> res == Object(old(v).value) && r == old(r) && c == old(c))
              && made == old(made) + (if !keep && BuildsCloser(newInstance, cfg, []) then 1 else 0)
              && closed == old(closed)
                   + (if !keep && old(c).Some? then [old(c).value] else [])
                   + (if !keep && res.Error? && BuildsCloser(newInstance, cfg, []) then [old(made)] else [])
              && (!keep && res.Object? ==> c == if BuildsCloser(newInstance, cfg, []) then Some(old(made)) else None)
    {
      var stale := true;
      if r != null {
        stale := r.HasChanges(cfg);
      }
      if stale {
        res := Rebuild(cfg);
        return;
      }
      UnchangedReadsRebuildTheSame(newInstance, r.seen, trace, cfg, 0);
      return Object(v.value);
    }

    /** What Get does when it holds no object, or an outdated one. */
    method Rebuild(cfg: View) returns (res: Built)
      requires Valid()
      modifies this
      ensures Valid()
      ensures res == Build(newInstance, cfg, [])
      ensures r == null <==> res.Error?
      ensures made == old(made) + if BuildsCloser(newInstance, cfg, []) then 1 else 0
      ensures closed == old(closed)
                + (if old(c).Some? then [old(c).value] else [])
                + (if res.Error? && BuildsCloser(newInstance, cfg, []) then [old(made)] else [])
      ensures res.Object? ==> c == if BuildsCloser(newInstance, cfg, []) then Some(old(made)) else None
    {
      Reset();
      var d := new ViewChangeDetector();
      var built, closer, vs := Construct(d, cfg);
      if closer {
        c := Some(made);
        made := made + 1;
      }
      if built.Error? {
        Reset();
        return built;
      }
      r, v, trace := d, Some(built.obj), vs;
      return built;
    }

    method ForceReset()
      requires Valid()
      modifies this
      ensures Valid() && r == null && c == None && made == old(made)
      ensures closed == old(closed) + (if old(c).Some? then [old(c).value] else [])
    {
      Reset();
    }
  }
}
