/** The two query caches: each refresh drops what is no longer indexed (or is out of date) and
    fetches only what is missing. */
module QueryCache {
  import opened Domain
  import T = TicketAssignment
  import B = BackfillWorld

  /** Keep `kept` as cached, take the other ids of `all` from the store, leave out those it does not hold. */
  ghost function Refreshed<V>(
      cache: map<string, V>, kept: set<string>, all: set<string>, stored: map<string, V>): map<string, V>
    requires kept <= cache.Keys
  {
    map id | id in all && (id in kept || id in stored) :: if id in kept then cache[id] else stored[id]
  }

  /** The cached tickets a refresh keeps: those still indexed. */
  ghost function KeptTickets(cache: T.Tickets, all: set<TicketId>): (kept: set<TicketId>)
    ensures kept <= cache.Keys
  {
    cache.Keys * all
  }

  ghost function TicketsAfter(cache: T.Tickets, all: set<TicketId>, stored: T.Tickets): T.Tickets {
    Refreshed(cache, KeptTickets(cache, all), all, stored)
  }

  /** The cached backfills a refresh keeps: those still indexed under no later generation. */
  ghost function KeptBackfills(cache: map<BackfillId, B.Backfill>, index: map<BackfillId, int>): (kept: set<BackfillId>)
    ensures kept <= cache.Keys
  {
    set id | id in cache && id in index && index[id] <= cache[id].gen
  }

  ghost function BackfillsAfter(
      cache: map<BackfillId, B.Backfill>, index: map<BackfillId, int>, stored: map<BackfillId, B.Backfill>)
      : map<BackfillId, B.Backfill>
  {
    Refreshed(cache, KeptBackfills(cache, index), index.Keys, stored)
  }

  /** The ids of `all` not cached, in whatever order the map yields them. */
  method Missing(all: set<string>, cached: set<string>) returns (toFetch: seq<string>)
    ensures forall id :: id in toFetch <==> id in all && id !in cached
  {
    toFetch := [];
    var todo := all;
    while todo != {}
      invariant todo <= all
      invariant forall id :: id in toFetch <==> id in all - todo && id !in cached
      decreases |todo|
    {
      var id :| id in todo;
      todo := todo - {id};
      if id !in cached {
        toFetch := toFetch + [id];
      }
    }
  }

  /** MGET: the stored values among the ids, keyed as stored. */
  method Fetch<V>(stored: map<string, V>, ids: seq<string>) returns (found: seq<(string, V)>)
    ensures forall e :: e in found <==> e.0 in ids && e.0 in stored && stored[e.0] == e.1
  {
    found := [];
    for i := 0 to |ids|
      invariant forall e :: e in found <==> e.0 in ids[..i] && e.0 in stored && stored[e.0] == e.1
    {
      assert ids[..i + 1] == ids[..i] + [ids[i]];
      if ids[i] in stored {
        found := found + [(ids[i], stored[ids[i]])];
      }
    }
    assert ids[..|ids|] == ids;
  }

  /** Puts the fetched values into the cache. */
  method Insert<V>(cache: map<string, V>, found: seq<(string, V)>) returns (cache': map<string, V>)
    requires forall e, f :: e in found && f in found && e.0 == f.0 ==> e == f
    ensures forall id :: id in cache' <==> id in cache || exists e :: e in found && e.0 == id
    ensures forall e :: e in found ==> e.0 in cache' && cache'[e.0] == e.1
    ensures forall id :: id in cache && (forall e :: e in found ==> e.0 != id) ==> cache'[id] == cache[id]
  {
    cache' := cache;
    for i := 0 to |found|
      invariant forall id :: id in cache' <==> id in cache || exists e :: e in found[..i] && e.0 == id
      invariant forall e :: e in found[..i] ==> e.0 in cache' && cache'[e.0] == e.1
      invariant forall id :: id in cache && (forall e :: e in found[..i] ==> e.0 != id) ==> cache'[id] == cache[id]
    {
      assert found[..i + 1] == found[..i] + [found[i]];
      assert found[i] in found;
      cache' := cache'[found[i].0 := found[i].1];
    }
    assert found[..|found|] == found;
  }

  /** Fetch what is missing and insert it: the second half of both refreshes. */
  method FillIn<V>(
      cache: map<string, V>, all: set<string>, stored: map<string, V>, toFetch: seq<string>)
      returns (cache': map<string, V>)
    requires cache.Keys <= all && forall id :: id in toFetch <==> id in all && id !in cache
    ensures cache' == Refreshed(cache, cache.Keys, all, stored)
  {
    var found := Fetch(stored, toFetch);
    cache' := Insert(cache, found);
    FilledIn(cache, all, stored, toFetch, found, cache');
  }

  lemma FilledIn<V>(
      cache: map<string, V>, all: set<string>, stored: map<string, V>, toFetch: seq<string>,
      found: seq<(string, V)>, cache': map<string, V>)
    requires cache.Keys <= all && forall id :: id in toFetch <==> id in all && id !in cache
    requires forall e :: e in found <==> e.0 in toFetch && e.0 in stored && stored[e.0] == e.1
    requires forall id :: id in cache' <==> id in cache || exists e :: e in found && e.0 == id
    requires forall e :: e in found ==> e.0 in cache' && cache'[e.0] == e.1
    requires forall id :: id in cache && (forall e :: e in found ==> e.0 != id) ==> cache'[id] == cache[id]
    ensures cache' == Refreshed(cache, cache.Keys, all, stored)
  {
    var want := Refreshed(cache, cache.Keys, all, stored);
    forall id
      ensures id in cache' <==> id in want
      ensures id in want ==> cache'[id] == want[id]
    {
      if id in toFetch && id in stored {
        assert (id, stored[id]) in found;
      }
    }
  }

  class TicketCache {
    var tickets: T.Tickets

    constructor ()
      ensures tickets == map[]
    {
      tickets := map[];
    }

    /**
     * updateTicketCache. currentAll: the answer of GetIndexedIDSet. stored: what the store holds
     * when the missing tickets are fetched. None: the call failed. With nothing to fetch the
     * store is not asked a second time.
     */
    method Update(currentAll: Option<set<TicketId>>, stored: Option<T.Tickets>) returns (ok: bool)
      modifies this
      ensures currentAll.None? ==> !ok && tickets == old(tickets)
      ensures currentAll.Some? ==> (ok <==> stored.Some? || currentAll.value <= old(tickets).Keys)
      ensures currentAll.Some? ==>
                tickets == TicketsAfter(old(tickets), currentAll.value, if stored.Some? then stored.value else map[])
    {
      if currentAll.None? {
        return false;
      }
      var all := currentAll.value;
      var todo := tickets.Keys;
      while todo != {}
        invariant todo <= old(tickets).Keys
        invariant forall id :: id in tickets <==> id in old(tickets) && (id in todo || id in all)
        invariant forall id :: id in tickets ==> tickets[id] == old(tickets)[id]
        decreases |todo|
      {
        var id :| id in todo;
        todo := todo - {id};
        if id !in all {
          tickets := tickets - {id};
        }
      }
      var toFetch := Missing(all, tickets.Keys);
      if toFetch == [] {
        assert forall id :: id in all ==> id in tickets;
        return true;
      }
      assert toFetch[0] in toFetch;
      if stored.None? {
        return false;
      }
      tickets := FillIn(tickets, all, stored.value, toFetch);
      return true;
    }
  }

  class BackfillCache {
    var backfills: map<BackfillId, B.Backfill>

    constructor ()
      ensures backfills == map[]
    {
      backfills := map[];
    }

    /** updateBackfillCache. index: the answer of GetIndexedBackfills. Otherwise as for tickets. */
    method Update(index: Option<map<BackfillId, int>>, stored: Option<map<BackfillId, B.Backfill>>) returns (ok: bool)
      modifies this
      ensures index.None? ==> !ok && backfills == old(backfills)
      ensures index.Some? ==> (ok <==> stored.Some? || index.value.Keys <= KeptBackfills(old(backfills), index.value))
      ensures index.Some? ==>
                backfills == BackfillsAfter(old(backfills), index.value, if stored.Some? then stored.value else map[])
    {
      if index.None? {
        return false;
      }
      var idx := index.value;
      var todo := backfills.Keys;
      while todo != {}
        invariant todo <= old(backfills).Keys
        invariant forall id :: id in backfills <==> id in todo || id in KeptBackfills(old(backfills), idx)
        invariant forall id :: id in backfills ==> id in old(backfills) && backfills[id] == old(backfills)[id]
        decreases |todo|
      {
        var id :| id in todo;
        todo := todo - {id};
        if id !in idx || backfills[id].gen < idx[id] {
          backfills := backfills - {id};
        }
      }
      assert backfills.Keys == KeptBackfills(old(backfills), idx);
      var toFetch := Missing(idx.Keys, backfills.Keys);
      if toFetch == [] {
        assert forall id :: id in idx ==> id in backfills;
        return true;
      }
      assert toFetch[0] in toFetch;
      if stored.None? {
        return false;
      }
      backfills := FillIn(backfills, idx.Keys, stored.value, toFetch);
      return true;
    }
  }
}
