/** Tickets, their writers, and the query service's refreshes of its ticket cache, interleaved at
    the level of single store commands. */
module TicketRefresh {
  import opened Domain
  import opened PoolFilter
  import opened TicketAssignment
  import QueryCache

  /** Equal up to the assignment. */
  ghost predicate Same(a: Ticket, b: Ticket) {
    a.(assignment := None) == b.(assignment := None)
  }

  /**
   * born: every ticket ever created, as created. assigning: the tickets that running
   * UpdateAssignments calls have read and will write back. reading: the ids that a running
   * refresh got from the index.
   */
  datatype World = World(
    stored: Tickets, born: Tickets, indexed: set<TicketId>, assigning: map<nat, seq<Ticket>>,
    cache: Tickets, reading: Option<set<TicketId>>)

  /**
   * Remove: DEL, or the expiry of an assigned ticket. AssignRead, AssignExec: the two halves of
   * UpdateAssignments. RefreshIndex: GetIndexedIDSet, where hidden are the ids pending release.
   * RefreshFetch: the rest of the refresh, with fetchOk false when the store does not answer.
   */
  datatype Step =
    | Create(t: Ticket)
    | Index(id: TicketId)
    | Deindex(id: TicketId)
    | Remove(id: TicketId)
    | AssignRead(call: nat, ids: seq<TicketId>, idToA: map<TicketId, Assignment>)
    | AssignExec(call: nat)
    | RefreshIndex(hidden: set<TicketId>)
    | RefreshFetch(fetchOk: bool)

  const START: World := World(map[], map[], {}, map[], map[], None)

  /** Ids of new tickets are fresh. */
  ghost predicate Next(w: World, step: Step, w': World) {
    match step
    case Create(t) => t.id !in w.born && w' == w.(stored := w.stored[t.id := t], born := w.born[t.id := t])
    case Index(id) => w' == w.(indexed := w.indexed + {id})
    case Deindex(id) => w' == w.(indexed := w.indexed - {id})
    case Remove(id) => w' == w.(stored := w.stored - {id})
    case AssignRead(call, ids, idToA) =>
      && call !in w.assigning && (forall id :: id in ids ==> id in idToA)
      && w' == w.(assigning := w.assigning[call := WithAssignments(Present(ids, w.stored.Keys), w.stored, idToA)])
    case AssignExec(call) =>
      && call in w.assigning
      && w' == w.(stored := SetExisting(w.stored, w.assigning[call]), assigning := w.assigning - {call})
    case RefreshIndex(hidden) => w.reading.None? && w' == w.(reading := Some(w.indexed - hidden))
    case RefreshFetch(fetchOk) =>
      && w.reading.Some?
      && var stored: Tickets := if fetchOk then w.stored else map[];
         w' == w.(cache := QueryCache.TicketsAfter(w.cache, w.reading.value, stored), reading := None)
  }

  ghost predicate Run(run: seq<World>, steps: seq<Step>) {
    && |run| == |steps| + 1 && run[0] == START
    && forall n :: 0 <= n < |steps| ==> Next(run[n], steps[n], run[n + 1])
  }

  // ---------------------------------------------------------------- tickets keep what they were born with

  ghost predicate Faithful(t: Ticket, born: Tickets) {
    t.id in born && Same(t, born[t.id])
  }

  ghost predicate AllFaithful(tickets: Tickets, born: Tickets) {
    forall id :: id in tickets ==> tickets[id].id == id && Faithful(tickets[id], born)
  }

  ghost predicate ReadFaithfully(tickets: seq<Ticket>, born: Tickets) {
    forall i :: 0 <= i < |tickets| ==> Faithful(tickets[i], born)
  }

  ghost predicate Inv(w: World) {
    && AllFaithful(w.stored, w.born) && AllFaithful(w.cache, w.born)
    && (forall call :: call in w.assigning ==> ReadFaithfully(w.assigning[call], w.born))
  }

  lemma {:induction false} SetExistingFaithful(stored: Tickets, tickets: seq<Ticket>, born: Tickets)
    requires AllFaithful(stored, born) && ReadFaithfully(tickets, born)
    ensures AllFaithful(SetExisting(stored, tickets), born)
  {
    if tickets == [] {
    } else {
      SetExistingFaithful(stored, tickets[..|tickets| - 1], born);
    }
  }

  lemma ReadFaithful(stored: Tickets, ids: seq<TicketId>, idToA: map<TicketId, Assignment>, born: Tickets)
    requires AllFaithful(stored, born) && forall id :: id in ids ==> id in idToA
    ensures ReadFaithfully(WithAssignments(Present(ids, stored.Keys), stored, idToA), born)
  {
    PresentOrAbsent(ids, stored.Keys);
    var found := Present(ids, stored.Keys);
    var read := WithAssignments(found, stored, idToA);
    forall i | 0 <= i < |read|
      ensures Faithful(read[i], born)
    {
      assert found[i] in found;
    }
  }

  lemma InvStep(w: World, step: Step, w': World)
    requires Inv(w) && Next(w, step, w')
    ensures Inv(w')
  {
    if step.AssignExec? {
      SetExistingFaithful(w.stored, w.assigning[step.call], w.born);
    } else if step.AssignRead? {
      ReadFaithful(w.stored, step.ids, step.idToA, w.born);
    } else if step.Create? {
      forall call | call in w'.assigning
        ensures ReadFaithfully(w'.assigning[call], w'.born)
      {
        assert ReadFaithfully(w.assigning[call], w.born);
      }
    }
  }

  lemma {:induction false} InvOfRun(run: seq<World>, steps: seq<Step>, n: nat)
    requires Run(run, steps) && n < |run|
    ensures Inv(run[n])
  {
    if n == 0 {
    } else {
      InvOfRun(run, steps, n - 1);
      InvStep(run[n - 1], steps[n - 1], run[n]);
    }
  }

  // ---------------------------------------------------------------- the store, told from the steps

  /** Indexed, and not deindexed since. */
  ghost predicate IndexedBy(steps: seq<Step>, n: nat, id: TicketId)
    requires n <= |steps|
  {
    n > 0 && (steps[n - 1] == Index(id) || (steps[n - 1] != Deindex(id) && IndexedBy(steps, n - 1, id)))
  }

  /** Created, and not removed since. */
  ghost predicate StoredBy(steps: seq<Step>, n: nat, id: TicketId)
    requires n <= |steps|
  {
    n > 0 &&
    if steps[n - 1].Create? && steps[n - 1].t.id == id then true
    else steps[n - 1] != Remove(id) && StoredBy(steps, n - 1, id)
  }

  /** Which ids are indexed and stored: an assignment neither creates nor removes a ticket. */
  lemma {:induction false} StoreIsHistory(run: seq<World>, steps: seq<Step>, n: nat, id: TicketId)
    requires Run(run, steps) && n < |run|
    ensures id in run[n].indexed <==> IndexedBy(steps, n, id)
    ensures id in run[n].stored <==> StoredBy(steps, n, id)
  {
    if n == 0 {
    } else {
      StoreIsHistory(run, steps, n - 1, id);
      assert Next(run[n - 1], steps[n - 1], run[n]);
    }
  }

  /** An assignment's read holds every requested ticket that is stored, with its assignment, and no other. */
  lemma ReadHolds(run: seq<World>, steps: seq<Step>, n: nat, t: Ticket)
    requires Run(run, steps) && n < |steps| && steps[n].AssignRead?
    ensures steps[n].call in run[n + 1].assigning
    ensures t in run[n + 1].assigning[steps[n].call] <==>
            && t.id in steps[n].ids && t.id in run[n].stored && t.id in steps[n].idToA
            && t == run[n].stored[t.id].(assignment := Some(steps[n].idToA[t.id]))
  {
    assert Next(run[n], steps[n], run[n + 1]);
    InvOfRun(run, steps, n);
    var w, ids, idToA := run[n], steps[n].ids, steps[n].idToA;
    var found := Present(ids, w.stored.Keys);
    var read := WithAssignments(found, w.stored, idToA);
    PresentOrAbsent(ids, w.stored.Keys);
    if t in read {
      var i :| 0 <= i < |read| && read[i] == t;
      assert found[i] in found && t == Give(w.stored, idToA, found[i]);
    }
    if t.id in found {
      var i :| 0 <= i < |found| && found[i] == t.id;
      assert read[i] == Give(w.stored, idToA, t.id);
    }
  }

  /** An assignment's transaction writes each ticket it has read that is still stored, the last one of an
      id prevailing, and leaves every other ticket alone. */
  lemma ExecAssigns(run: seq<World>, steps: seq<Step>, n: nat, id: TicketId)
    requires Run(run, steps) && n < |steps| && steps[n].AssignExec? && id in run[n].stored
    ensures steps[n].call in run[n].assigning && id in run[n + 1].stored
    ensures var sent := run[n].assigning[steps[n].call];
            && (forall i :: 0 <= i < |sent| && sent[i].id == id && (forall j :: i < j < |sent| ==> sent[j].id != id) ==>
                  run[n + 1].stored[id] == sent[i])
            && ((forall i :: 0 <= i < |sent| ==> sent[i].id != id) ==> run[n + 1].stored[id] == run[n].stored[id])
  {
    assert Next(run[n], steps[n], run[n + 1]);
    var sent := run[n].assigning[steps[n].call];
    forall i | 0 <= i < |sent| && sent[i].id == id && (forall j :: i < j < |sent| ==> sent[j].id != id)
      ensures run[n + 1].stored[id] == sent[i]
    {
      SetExistingSets(run[n].stored, sent, i);
    }
    if forall i :: 0 <= i < |sent| ==> sent[i].id != id {
      SetExistingSkips(run[n].stored, sent, id);
    }
  }

  // ---------------------------------------------------------------- the cache against the store

  /** At every moment of every run, a cached ticket that is still stored is the stored one, up to its assignment. */
  lemma CachedIsStored(run: seq<World>, steps: seq<Step>, n: nat, id: TicketId)
    requires Run(run, steps) && n < |run| && id in run[n].cache && id in run[n].stored
    ensures Same(run[n].cache[id], run[n].stored[id])
  {
    InvOfRun(run, steps, n);
  }

  /** A refresh leaves exactly the indexed ids in the cache, missing only tickets the store no longer holds. */
  lemma RefreshCovers(run: seq<World>, steps: seq<Step>, n: nat)
    requires Run(run, steps) && n < |steps| && steps[n] == RefreshFetch(true)
    ensures run[n].reading.Some? && run[n + 1].cache.Keys <= run[n].reading.value
    ensures forall id :: id in run[n].reading.value - run[n + 1].cache.Keys ==> id !in run[n].stored
    ensures forall id :: id in run[n + 1].cache - run[n].stored.Keys ==>
        id in run[n].cache && run[n + 1].cache[id] == run[n].cache[id]
  {
    assert Next(run[n], steps[n], run[n + 1]);
  }

  /** The ids a refresh works with are those indexed, and not hidden, when it asked the index. */
  lemma {:induction false} IndexWasRead(run: seq<World>, steps: seq<Step>, n: nat) returns (m: nat)
    requires Run(run, steps) && n < |run| && run[n].reading.Some?
    ensures m < n && steps[m].RefreshIndex? && run[n].reading == Some(run[m].indexed - steps[m].hidden)
    ensures forall k :: m < k < n ==> !steps[k].RefreshFetch?
  {
    assert n > 0;
    assert Next(run[n - 1], steps[n - 1], run[n]);
    if steps[n - 1].RefreshIndex? {
      m := n - 1;
    } else {
      m := IndexWasRead(run, steps, n - 1);
    }
  }

  /** The assignment plays no part in filtering. */
  lemma SameBelongs(a: Ticket, b: Ticket, pool: Pool)
    requires Same(a, b)
    ensures Belongs(pool, Entity(a.fields, a.createTime)) <==> Belongs(pool, Entity(b.fields, b.createTime))
  {
    assert a.(assignment := None).fields == b.(assignment := None).fields;
    assert a.(assignment := None).createTime == b.(assignment := None).createTime;
  }

  /** What a query on the cache selects. */
  ghost function Selected(tickets: Tickets, pool: Pool): set<TicketId> {
    set id | id in tickets && Belongs(pool, Entity(tickets[id].fields, tickets[id].createTime))
  }

  /** A direct scan: read every indexed id from the store and filter. */
  ghost function Scan(stored: Tickets, all: set<TicketId>, pool: Pool): set<TicketId> {
    set id | id in all && id in stored && Belongs(pool, Entity(stored[id].fields, stored[id].createTime))
  }

  /** After a refresh, a query selects what a direct scan of the store would, plus only tickets
      deleted since they were cached. */
  lemma QueryRefinesScan(run: seq<World>, steps: seq<Step>, n: nat, pool: Pool)
    requires Run(run, steps) && n < |steps| && steps[n] == RefreshFetch(true)
    ensures run[n].reading.Some?
    ensures forall id :: id in run[n].stored ==>
              (id in Selected(run[n + 1].cache, pool) <==> id in Scan(run[n].stored, run[n].reading.value, pool))
    ensures forall id :: id in Selected(run[n + 1].cache, pool) && id !in run[n].stored ==>
        id in run[n].cache && id in run[n].reading.value
  {
    assert Next(run[n], steps[n], run[n + 1]);
    RefreshCovers(run, steps, n);
    InvOfRun(run, steps, n + 1);
    forall id | id in run[n].stored
      ensures id in Selected(run[n + 1].cache, pool) <==> id in Scan(run[n].stored, run[n].reading.value, pool)
    {
      if id in run[n + 1].cache {
        SameBelongs(run[n + 1].cache[id], run[n].stored[id], pool);
      }
    }
  }
}

/** The backfill cache over every run of the backfill world. */
module BackfillRefresh {
  import opened Domain
  import opened BackfillWorld
  import opened BackfillGenerations
  import QueryCache

  /**
   * One refresh, by the moments of its three reads: the unexpired acknowledgments, the index
   * and the backfills. fetchOk: the last read was answered.
   */
  datatype Refresh = Refresh(ackAt: nat, indexAt: nat, fetchAt: nat, fetchOk: bool)

  type Cache = map<BackfillId, Backfill>

  /** ZRANGEBYSCORE from now - ttl to now + one hour, both inclusive. */
  ghost predicate Acknowledged(w: World, id: BackfillId, p: nat) {
    At(w.slots, id).ack.Some? && w.now - Ttl(p) <= At(w.slots, id).ack.value <= w.now + HOUR
  }

  /** GetIndexedBackfills. */
  ghost function IndexRead(run: seq<World>, r: Refresh, p: nat): map<BackfillId, int>
    requires r.ackAt < |run| && r.indexAt < |run|
  {
    map id | id in run[r.indexAt].slots && run[r.indexAt].slots[id].idx.Some? && Acknowledged(run[r.ackAt], id, p)
      :: run[r.indexAt].slots[id].idx.value
  }

  /** GetBackfills, for every id. */
  ghost function Fetched(run: seq<World>, r: Refresh): Cache
    requires r.fetchAt < |run|
  {
    var slots := run[r.fetchAt].slots;
    if r.fetchOk then map id | id in slots && slots[id].rec.Some? :: slots[id].rec.value.bf else map[]
  }

  /** The index read holds exactly the ids indexed at its second read that were acknowledged and not
      expired at its first, each with its indexed generation. */
  lemma IndexReadHolds(run: seq<World>, steps: seq<Step>, r: Refresh, p: nat, id: BackfillId)
    requires IsRun(run, steps, p) && r.ackAt < |run| && r.indexAt < |run|
    ensures id in IndexRead(run, r, p) <==>
            && At(run[r.indexAt].slots, id).idx.Some?
            && At(run[r.ackAt].slots, id).ack.Some? && !Expired(At(run[r.ackAt].slots, id), run[r.ackAt].now, p)
    ensures id in IndexRead(run, r, p) ==> Some(IndexRead(run, r, p)[id]) == At(run[r.indexAt].slots, id).idx
  {
    InvOfRun(run, steps, p, r.ackAt);
    assert SlotSound(At(run[r.ackAt].slots, id), run[r.ackAt].now);
  }

  /** The refreshes read one after the other, and each reads in order. */
  ghost predicate InOrder(run: seq<World>, rs: seq<Refresh>) {
    && (forall k :: 0 <= k < |rs| ==> rs[k].ackAt <= rs[k].indexAt <= rs[k].fetchAt < |run|)
    && (forall k, l :: 0 <= k < l < |rs| ==> rs[k].fetchAt <= rs[l].ackAt)
  }

  /** The cache after the first k refreshes. */
  ghost function CacheAfter(run: seq<World>, rs: seq<Refresh>, k: nat, p: nat): Cache
    requires k <= |rs| && InOrder(run, rs)
  {
    if k == 0 then map[]
    else QueryCache.BackfillsAfter(CacheAfter(run, rs, k - 1, p), IndexRead(run, rs[k - 1], p), Fetched(run, rs[k - 1]))
  }

  ghost predicate WasStored(run: seq<World>, m: nat, id: BackfillId, bf: Backfill)
    requires m < |run|
  {
    At(run[m].slots, id).rec.Some? && At(run[m].slots, id).rec.value.bf == bf
  }

  /** Every cached backfill was stored, just like that, at some moment up to the last fetch. */
  lemma {:induction false} CachedWasStored(
      run: seq<World>, steps: seq<Step>, p: nat, rs: seq<Refresh>, k: nat, id: BackfillId) returns (m: nat)
    requires IsRun(run, steps, p) && InOrder(run, rs) && 0 < k <= |rs| && id in CacheAfter(run, rs, k, p)
    ensures m <= rs[k - 1].fetchAt && WasStored(run, m, id, CacheAfter(run, rs, k, p)[id])
  {
    var before := CacheAfter(run, rs, k - 1, p);
    var kept := QueryCache.KeptBackfills(before, IndexRead(run, rs[k - 1], p));
    if id in kept {
      assert k > 1 && rs[k - 2].fetchAt <= rs[k - 1].ackAt;
      m := CachedWasStored(run, steps, p, rs, k - 1, id);
    } else {
      m := rs[k - 1].fetchAt;
    }
  }

  /** Where a cached backfill's generation lies at any moment n from the last fetch on: not before what
      the index said, and not after what is stored. */
  lemma CachedBetween(run: seq<World>, steps: seq<Step>, p: nat, rs: seq<Refresh>, k: nat, id: BackfillId, n: nat)
    requires IsRun(run, steps, p) && InOrder(run, rs) && 0 < k <= |rs| && id in CacheAfter(run, rs, k, p)
    requires rs[k - 1].fetchAt <= n < |run|
    ensures id in IndexRead(run, rs[k - 1], p)
    ensures IndexRead(run, rs[k - 1], p)[id] <= CacheAfter(run, rs, k, p)[id].gen
    ensures At(run[n].slots, id).rec.Some? ==>
        CacheAfter(run, rs, k, p)[id].gen <= At(run[n].slots, id).rec.value.bf.gen
    ensures var rec, cached := At(run[n].slots, id).rec, CacheAfter(run, rs, k, p)[id];
            rec.Some? && cached.gen == rec.value.bf.gen ==> cached == rec.value.bf
  {
    var r := rs[k - 1];
    var before := CacheAfter(run, rs, k - 1, p);
    var m := CachedWasStored(run, steps, p, rs, k, id);
    GenerationFixesContent(run, steps, p, m, n, id);
    if id !in QueryCache.KeptBackfills(before, IndexRead(run, r, p)) {
      IndexBehindFetch(run, steps, p, r, id);
    }
  }

  /** A backfill fetched after its index entry was read is at least as new as the entry. */
  lemma IndexBehindFetch(run: seq<World>, steps: seq<Step>, p: nat, r: Refresh, id: BackfillId)
    requires IsRun(run, steps, p) && r.ackAt <= r.indexAt <= r.fetchAt < |run|
    requires id in IndexRead(run, r, p) && id in Fetched(run, r)
    ensures IndexRead(run, r, p)[id] <= Fetched(run, r)[id].gen
  {
    GenerationFixesContent(run, steps, p, r.indexAt, r.fetchAt, id);
    StoredAt(run, steps, p, r.indexAt, id);
    assert At(run[r.indexAt].slots, id).rec.Some?;
    IndexNeverAhead(run, steps, p, r.indexAt, id);
  }

  /**
   * After any number of refreshes, and as long as nothing newer is stored than what the last
   * refresh saw in the index, a cached backfill is exactly the stored one.
   */
  lemma CachedBackfillIsStored(
      run: seq<World>, steps: seq<Step>, p: nat, rs: seq<Refresh>, k: nat, id: BackfillId, n: nat)
    requires IsRun(run, steps, p) && InOrder(run, rs) && 0 < k <= |rs| && id in CacheAfter(run, rs, k, p)
    requires rs[k - 1].fetchAt <= n < |run|
    requires id in IndexRead(run, rs[k - 1], p) && At(run[n].slots, id).rec.Some?
    requires IndexRead(run, rs[k - 1], p)[id] == At(run[n].slots, id).rec.value.bf.gen
    ensures CacheAfter(run, rs, k, p)[id] == At(run[n].slots, id).rec.value.bf
  {
    CachedBetween(run, steps, p, rs, k, id, n);
  }

  /** A refresh that got its answers leaves exactly the indexed ids in the cache, except those no longer
      stored at the fetch. */
  lemma RefreshCovers(run: seq<World>, rs: seq<Refresh>, p: nat, k: nat)
    requires InOrder(run, rs) && 0 < k <= |rs| && rs[k - 1].fetchOk
    ensures CacheAfter(run, rs, k, p).Keys <= IndexRead(run, rs[k - 1], p).Keys
    ensures forall id :: id in IndexRead(run, rs[k - 1], p) && id !in CacheAfter(run, rs, k, p) ==>
              At(run[rs[k - 1].fetchAt].slots, id).rec.None?
  {
  }
}
