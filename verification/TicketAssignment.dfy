/** Tickets in the state store, and UpdateAssignments: read the tickets, then write them back with
    their assignments in one transaction that only touches tickets that still exist. */
module TicketAssignment {
  import opened Domain
  import opened PoolFilter

  datatype Assignment = Assignment(connection: string, extensions: string)

  datatype Ticket = Ticket(
    id: TicketId, fields: Option<SearchFields>, extensions: string, createTime: Option<Timestamp>,
    assignment: Option<Assignment>)

  type Tickets = map<TicketId, Ticket>

  /** Tickets are stored under their own id. */
  ghost predicate Keyed(stored: Tickets) {
    forall id :: id in stored ==> stored[id].id == id
  }

  datatype Group = Group(ids: seq<TicketId>, assignment: Option<Assignment>)

  datatype Error = InvalidArgument | StoreFailed

  datatype Response = Failure(error: Error) | Success(failures: seq<TicketId>, updated: seq<Ticket>)

  // ---------------------------------------------------------------- what a request asks for

  /** All requested ids, in order. */
  ghost function AllIds(req: seq<Group>): seq<TicketId> {
    if req == [] then [] else AllIds(req[..|req| - 1]) + req[|req| - 1].ids
  }

  ghost predicate Distinct(ids: seq<TicketId>) {
    forall i, j :: 0 <= i < j < |ids| ==> ids[i] != ids[j]
  }

  /** Every group names an assignment, some ticket is named, and none twice. */
  ghost predicate WellFormed(req: seq<Group>) {
    && (forall i :: 0 <= i < |req| ==> req[i].assignment.Some?)
    && Distinct(AllIds(req)) && AllIds(req) != []
  }

  /** wanted gives every id of the groups its own group's assignment, and no other id any. */
  ghost predicate OwnGroup(req: seq<Group>, wanted: map<TicketId, Assignment>) {
    && (forall i, id :: 0 <= i < |req| && id in req[i].ids ==> id in wanted && req[i].assignment == Some(wanted[id]))
    && (forall id :: id in wanted <==> id in AllIds(req))
  }

  lemma DistinctAppend(ids: seq<TicketId>, id: TicketId)
    requires Distinct(ids)
    ensures Distinct(ids + [id]) <==> id !in ids
  {
    if id in ids {
      var i :| 0 <= i < |ids| && ids[i] == id;
      assert (ids + [id])[i] == (ids + [id])[|ids|];
    }
  }

  lemma {:induction false} IdsOfGroup(req: seq<Group>, i: nat, id: TicketId)
    requires i < |req| && id in req[i].ids
    ensures id in AllIds(req)
  {
    if i < |req| - 1 {
      IdsOfGroup(req[..|req| - 1], i, id);
    }
  }

  /** A repeated id stays repeated whatever follows. */
  lemma {:induction false} RepeatedStays(req: seq<Group>, n: nat)
    requires n <= |req| && !Distinct(AllIds(req[..n]))
    ensures !Distinct(AllIds(req))
    decreases |req|
  {
    if n < |req| {
      var front := req[..|req| - 1];
      assert front[..n] == req[..n];
      RepeatedStays(front, n);
      var a := AllIds(front);
      var i, j :| 0 <= i < j < |a| && a[i] == a[j];
      assert AllIds(req)[i] == AllIds(req)[j];
    } else {
      assert req[..n] == req;
    }
  }

  // ---------------------------------------------------------------- validating the request

  /** Adds one group's ids; ok is false when an id was already there. */
  method AddGroup(
      ghost before: seq<Group>, g: Group, a: Assignment, idToA: map<TicketId, Assignment>, ids: seq<TicketId>)
    returns (ok: bool, idToA': map<TicketId, Assignment>, ids': seq<TicketId>)
    requires g.assignment == Some(a) && ids == AllIds(before) && Distinct(ids) && OwnGroup(before, idToA)
    ensures ok <==> Distinct(ids + g.ids)
    ensures ok ==> ids' == ids + g.ids && OwnGroup(before + [g], idToA')
  {
    idToA', ids' := idToA, ids;
    for i := 0 to |g.ids|
      invariant ids' == ids + g.ids[..i] && Distinct(ids')
      invariant forall id :: id in idToA' <==> id in ids'
      invariant forall id :: id in idToA' ==> idToA'[id] == if id in ids then idToA[id] else a
    {
      DistinctAppend(ids', g.ids[i]);
      assert ids + g.ids[..i + 1] == ids' + [g.ids[i]];
      if g.ids[i] in idToA' {
        PrefixDistinct(ids + g.ids, ids + g.ids[..i + 1]);
        return false, idToA', ids';
      }
      idToA' := idToA'[g.ids[i] := a];
      ids' := ids' + [g.ids[i]];
    }
    assert g.ids[..|g.ids|] == g.ids;
    DistinctParts(ids, g.ids);
    OwnGroupAppend(before, g, a, idToA, idToA');
    return true, idToA', ids';
  }

  lemma PrefixDistinct(ids: seq<TicketId>, prefix: seq<TicketId>)
    requires prefix <= ids && !Distinct(prefix)
    ensures !Distinct(ids)
  {
    var i, j :| 0 <= i < j < |prefix| && prefix[i] == prefix[j];
    assert ids[i] == ids[j];
  }

  lemma DistinctParts(a: seq<TicketId>, b: seq<TicketId>)
    requires Distinct(a + b)
    ensures forall id :: id in b ==> id !in a
  {
    forall i, k | 0 <= i < |a| && 0 <= k < |b|
      ensures a[i] != b[k]
    {
      assert (a + b)[i] != (a + b)[|a| + k];
    }
  }

  lemma OwnGroupAppend(
      before: seq<Group>, g: Group, a: Assignment, was: map<TicketId, Assignment>, now: map<TicketId, Assignment>)
    requires OwnGroup(before, was) && g.assignment == Some(a)
    requires forall id :: id in g.ids ==> id !in AllIds(before)
    requires forall id :: id in now <==> id in AllIds(before) || id in g.ids
    requires forall id :: id in now ==> now[id] == if id in AllIds(before) then was[id] else a
    ensures OwnGroup(before + [g], now)
  {
    var req := before + [g];
    assert req[..|before|] == before;
    forall i, id | 0 <= i < |req| && id in req[i].ids
      ensures id in now && req[i].assignment == Some(now[id])
    {
      if i < |before| {
        IdsOfGroup(before, i, id);
      }
    }
  }

  /** The loop that checks the request and records who gets which assignment. */
  method Gather(req: seq<Group>) returns (ok: bool, idToA: map<TicketId, Assignment>, ids: seq<TicketId>)
    ensures ok <==> WellFormed(req)
    ensures ok ==> ids == AllIds(req) && OwnGroup(req, idToA)
  {
    idToA, ids := map[], [];
    for i := 0 to |req|
      invariant forall j :: 0 <= j < i ==> req[j].assignment.Some?
      invariant ids == AllIds(req[..i]) && Distinct(ids) && OwnGroup(req[..i], idToA)
    {
      if req[i].assignment.None? {
        return false, idToA, ids;
      }
      assert req[..i + 1] == req[..i] + [req[i]];
      assert req[..i + 1][..i] == req[..i];
      ok, idToA, ids := AddGroup(req[..i], req[i], req[i].assignment.value, idToA, ids);
      if !ok {
        RepeatedStays(req, i + 1);
        return false, idToA, ids;
      }
    }
    assert req[..|req|] == req;
    ok := |ids| > 0;
  }

  // ---------------------------------------------------------------- the transaction

  /** The ids that are keys, in order. */
  ghost function Present(ids: seq<TicketId>, keys: set<TicketId>): seq<TicketId> {
    if ids == [] then []
    else
      var n := |ids| - 1;
      Present(ids[..n], keys) + if ids[n] in keys then [ids[n]] else []
  }

  /** The ids that are not keys, in order. */
  ghost function Absent(ids: seq<TicketId>, keys: set<TicketId>): seq<TicketId> {
    if ids == [] then []
    else
      var n := |ids| - 1;
      Absent(ids[..n], keys) + if ids[n] in keys then [] else [ids[n]]
  }

  lemma {:induction false} PresentOrAbsentCount(ids: seq<TicketId>, keys: set<TicketId>)
    ensures multiset(Present(ids, keys)) + multiset(Absent(ids, keys)) == multiset(ids)
  {
    if ids == [] {
    } else {
      var front, last := ids[..|ids| - 1], ids[|ids| - 1];
      PresentOrAbsentCount(front, keys);
      assert ids == front + [last];
      assert multiset(ids) == multiset(front) + multiset{last};
    }
  }

  lemma {:induction false} PresentOrAbsentMembers(ids: seq<TicketId>, keys: set<TicketId>)
    ensures forall id :: id in Present(ids, keys) <==> id in ids && id in keys
    ensures forall id :: id in Absent(ids, keys) <==> id in ids && id !in keys
  {
    if ids == [] {
    } else {
      var front, last := ids[..|ids| - 1], ids[|ids| - 1];
      PresentOrAbsentMembers(front, keys);
      assert ids == front + [last];
    }
  }

  /** Each id is on exactly one side. */
  lemma PresentOrAbsent(ids: seq<TicketId>, keys: set<TicketId>)
    ensures multiset(Present(ids, keys)) + multiset(Absent(ids, keys)) == multiset(ids)
    ensures forall id :: id in Present(ids, keys) <==> id in ids && id in keys
    ensures forall id :: id in Absent(ids, keys) <==> id in ids && id !in keys
  {
    PresentOrAbsentCount(ids, keys);
    PresentOrAbsentMembers(ids, keys);
  }

  lemma {:induction false} PresentDistinct(ids: seq<TicketId>, keys: set<TicketId>)
    requires Distinct(ids)
    ensures Distinct(Present(ids, keys))
  {
    if ids == [] {
    } else {
      var n := |ids| - 1;
      PresentDistinct(ids[..n], keys);
      PresentOrAbsent(ids[..n], keys);
      DistinctAppend(Present(ids[..n], keys), ids[n]);
    }
  }

  /** The ticket as read, with its assignment (or just the id, if it was not read or asked for). */
  ghost function Give(read: Tickets, idToA: map<TicketId, Assignment>, id: TicketId): Ticket {
    if id in read && id in idToA then read[id].(assignment := Some(idToA[id])) else Ticket(id, None, "", None, None)
  }

  ghost function WithAssignments(ids: seq<TicketId>, read: Tickets, idToA: map<TicketId, Assignment>): seq<Ticket> {
    seq(|ids|, i requires 0 <= i < |ids| => Give(read, idToA, ids[i]))
  }

  lemma WithAssignmentsAppend(ids: seq<TicketId>, id: TicketId, read: Tickets, idToA: map<TicketId, Assignment>)
    ensures WithAssignments(ids + [id], read, idToA) == WithAssignments(ids, read, idToA) + [Give(read, idToA, id)]
  {
  }

  /** SET ... XX for each ticket in turn: overwrites tickets that exist, creates none. */
  ghost function SetExisting(stored: Tickets, tickets: seq<Ticket>): (after: Tickets)
    ensures after.Keys == stored.Keys
  {
    if tickets == [] then stored
    else
      var last := tickets[|tickets| - 1];
      var before := SetExisting(stored, tickets[..|tickets| - 1]);
      if last.id in before then before[last.id := last] else before
  }

  lemma {:induction false} SetExistingSkips(stored: Tickets, tickets: seq<Ticket>, id: TicketId)
    requires id in stored && forall i :: 0 <= i < |tickets| ==> tickets[i].id != id
    ensures SetExisting(stored, tickets)[id] == stored[id]
  {
    if tickets == [] {
    } else {
      SetExistingSkips(stored, tickets[..|tickets| - 1], id);
    }
  }

  lemma {:induction false} SetExistingSets(stored: Tickets, tickets: seq<Ticket>, i: nat)
    requires i < |tickets| && tickets[i].id in stored
    requires forall j :: i < j < |tickets| ==> tickets[j].id != tickets[i].id
    ensures SetExisting(stored, tickets)[tickets[i].id] == tickets[i]
  {
    var n := |tickets| - 1;
    if i < n {
      var front := tickets[..n];
      assert front[i] == tickets[i] && tickets[n].id != tickets[i].id;
      SetExistingSets(stored, front, i);
    }
  }

  /** EXEC: wasSet[i] tells whether the i-th SET found its ticket. */
  method Exec(stored: Tickets, tickets: seq<Ticket>) returns (after: Tickets, wasSet: seq<bool>)
    ensures after == SetExisting(stored, tickets)
    ensures |wasSet| == |tickets| && forall i :: 0 <= i < |tickets| ==> (wasSet[i] <==> tickets[i].id in stored)
  {
    after, wasSet := stored, [];
    for i := 0 to |tickets|
      invariant after == SetExisting(stored, tickets[..i])
      invariant |wasSet| == i && forall j :: 0 <= j < i ==> (wasSet[j] <==> tickets[j].id in stored)
    {
      assert tickets[..i + 1][..i] == tickets[..i];
      wasSet := wasSet + [tickets[i].id in after];
      if tickets[i].id in after {
        after := after[tickets[i].id := tickets[i]];
      }
    }
    assert tickets[..|tickets|] == tickets;
  }

  /** The loop over MGET's replies. */
  method ReadTickets(
      read: Tickets, ids: seq<TicketId>, idToA: map<TicketId, Assignment>)
      returns (tickets: seq<Ticket>, failures: seq<TicketId>)
    requires forall id :: id in ids ==> id in idToA
    ensures failures == Absent(ids, read.Keys)
    ensures tickets == WithAssignments(Present(ids, read.Keys), read, idToA)
  {
    tickets, failures := [], [];
    for i := 0 to |ids|
      invariant failures == Absent(ids[..i], read.Keys)
      invariant tickets == WithAssignments(Present(ids[..i], read.Keys), read, idToA)
    {
      assert ids[..i + 1][..i] == ids[..i];
      if ids[i] !in read {
        failures := failures + [ids[i]];
      } else {
        WithAssignmentsAppend(Present(ids[..i], read.Keys), ids[i], read, idToA);
        tickets := tickets + [read[ids[i]].(assignment := Some(idToA[ids[i]]))];
      }
    }
    assert ids[..|ids|] == ids;
  }

  /** The loop over EXEC's replies. */
  method Sift(
      tickets: seq<Ticket>, wasSet: seq<bool>, ghost ids: seq<TicketId>, ghost read: Tickets,
      ghost idToA: map<TicketId, Assignment>, ghost keys: set<TicketId>)
    returns (updated: seq<Ticket>, failures: seq<TicketId>)
    requires Keyed(read) && tickets == WithAssignments(ids, read, idToA)
    requires |wasSet| == |tickets| && forall i :: 0 <= i < |tickets| ==> (wasSet[i] <==> tickets[i].id in keys)
    ensures failures == Absent(ids, keys)
    ensures updated == WithAssignments(Present(ids, keys), read, idToA)
  {
    updated, failures := [], [];
    for i := 0 to |tickets|
      invariant failures == Absent(ids[..i], keys)
      invariant updated == WithAssignments(Present(ids[..i], keys), read, idToA)
    {
      assert ids[..i + 1][..i] == ids[..i];
      assert tickets[i] == Give(read, idToA, ids[i]) && tickets[i].id == ids[i];
      if wasSet[i] {
        WithAssignmentsAppend(Present(ids[..i], keys), ids[i], read, idToA);
        updated := updated + [tickets[i]];
      } else {
        failures := failures + [tickets[i].id];
      }
    }
    assert ids[..|ids|] == ids;
  }

  // ---------------------------------------------------------------- UpdateAssignments

  ghost function IdsOf(tickets: seq<Ticket>): seq<TicketId> {
    seq(|tickets|, i requires 0 <= i < |tickets| => tickets[i].id)
  }

  /** Every requested id is exactly once a failure or an updated ticket; it fails exactly when the ticket
      was missing at the read or at the transaction. */
  ghost predicate Partitions(
      req: seq<Group>, read: Tickets, atExec: Tickets, failures: seq<TicketId>, updated: seq<Ticket>)
  {
    && multiset(failures) + multiset(IdsOf(updated)) == multiset(AllIds(req)) && Distinct(AllIds(req))
    && (forall id :: id in failures <==> id in AllIds(req) && (id !in read || id !in atExec))
  }

  /** An updated ticket is the one read, with its own group's assignment. */
  ghost predicate OwnAssignments(req: seq<Group>, read: Tickets, updated: seq<Ticket>) {
    forall t, i :: t in updated && 0 <= i < |req| && t.id in req[i].ids ==>
      t.id in read && t == read[t.id].(assignment := req[i].assignment)
  }

  /** The store afterwards: the updated tickets, everything else as the transaction found it, nothing recreated. */
  ghost predicate StoredAfter(atExec: Tickets, updated: seq<Ticket>, after: Tickets) {
    && after.Keys == atExec.Keys
    && (forall t :: t in updated ==> t.id in after && after[t.id] == t)
    && (forall id :: id in atExec && id !in IdsOf(updated) ==> after[id] == atExec[id])
  }

  class TicketStore {
    var stored: Tickets

    constructor ()
      ensures stored == map[]
    {
      stored := map[];
    }

    /**
     * Between the read and the transaction other clients may change the store in any way:
     * atExec is what it holds when the transaction runs. readOk, execOk: the store answers.
     */
    method UpdateAssignments(req: seq<Group>, atExec: Tickets, readOk: bool, execOk: bool) returns (r: Response)
      requires Keyed(stored) && Keyed(atExec)
      modifies this
      ensures req == [] ==> r == Success([], []) && stored == old(stored)
      ensures req != [] && !WellFormed(req) ==> r == Failure(InvalidArgument) && stored == old(stored)
      ensures req != [] && WellFormed(req) && !readOk ==> r == Failure(StoreFailed) && stored == old(stored)
      ensures req != [] && WellFormed(req) && readOk && !execOk ==> r == Failure(StoreFailed) && stored == atExec
      ensures req != [] && WellFormed(req) && readOk && execOk ==>
                && r.Success? && Partitions(req, old(stored), atExec, r.failures, r.updated)
                && OwnAssignments(req, old(stored), r.updated) && StoredAfter(atExec, r.updated, stored)
    {
      if req == [] {
        return Success([], []);
      }
      var ok, idToA, ids := Gather(req);
      if !ok {
        return Failure(InvalidArgument);
      }
      if !readOk {
        return Failure(StoreFailed);
      }
      ghost var read := stored;
      var tickets, failures := ReadTickets(stored, ids, idToA);
      stored := atExec;
      if !execOk {
        return Failure(StoreFailed);
      }
      var after, wasSet := Exec(stored, tickets);
      stored := after;
      ghost var found := Present(ids, read.Keys);
      var updated, failures' := Sift(tickets, wasSet, found, read, idToA, atExec.Keys);
      SuccessIsRight(req, ids, idToA, read, atExec, found, updated);
      return Success(failures + failures', updated);
    }
  }

  lemma IdsOfGiven(ids: seq<TicketId>, read: Tickets, idToA: map<TicketId, Assignment>)
    requires Keyed(read)
    ensures IdsOf(WithAssignments(ids, read, idToA)) == ids
  {
  }

  /** The two rounds of sifting give what UpdateAssignments promises. */
  lemma SuccessIsRight(
      req: seq<Group>, ids: seq<TicketId>, idToA: map<TicketId, Assignment>, read: Tickets, atExec: Tickets,
      found: seq<TicketId>, updated: seq<Ticket>)
    requires WellFormed(req) && ids == AllIds(req) && OwnGroup(req, idToA) && Keyed(read)
    requires found == Present(ids, read.Keys)
    requires updated == WithAssignments(Present(found, atExec.Keys), read, idToA)
    ensures Partitions(req, read, atExec, Absent(ids, read.Keys) + Absent(found, atExec.Keys), updated)
    ensures OwnAssignments(req, read, updated)
    ensures StoredAfter(atExec, updated, SetExisting(atExec, WithAssignments(found, read, idToA)))
  {
    IdsOfGiven(Present(found, atExec.Keys), read, idToA);
    SiftingPartitions(req, read, atExec, found, updated);
    PresentOrAbsent(ids, read.Keys);
    PresentOrAbsent(found, atExec.Keys);
    GivesOwn(req, Present(found, atExec.Keys), idToA, read);
    PresentDistinct(ids, read.Keys);
    StoredAfterExec(found, idToA, read, atExec);
  }

  lemma SiftingPartitions(req: seq<Group>, read: Tickets, atExec: Tickets, found: seq<TicketId>, updated: seq<Ticket>)
    requires Distinct(AllIds(req)) && found == Present(AllIds(req), read.Keys)
    requires IdsOf(updated) == Present(found, atExec.Keys)
    ensures Partitions(req, read, atExec, Absent(AllIds(req), read.Keys) + Absent(found, atExec.Keys), updated)
  {
    PresentOrAbsent(AllIds(req), read.Keys);
    PresentOrAbsent(found, atExec.Keys);
  }

  lemma GivesOwn(req: seq<Group>, ids: seq<TicketId>, idToA: map<TicketId, Assignment>, read: Tickets)
    requires OwnGroup(req, idToA) && Keyed(read) && forall id :: id in ids ==> id in read
    ensures OwnAssignments(req, read, WithAssignments(ids, read, idToA))
  {
    var updated := WithAssignments(ids, read, idToA);
    forall t, i | t in updated && 0 <= i < |req| && t.id in req[i].ids
      ensures t.id in read && t == read[t.id].(assignment := req[i].assignment)
    {
      var k :| 0 <= k < |updated| && updated[k] == t;
      assert t == Give(read, idToA, ids[k]) && ids[k] in ids;
    }
  }

  lemma StoredAfterExec(found: seq<TicketId>, idToA: map<TicketId, Assignment>, read: Tickets, atExec: Tickets)
    requires Keyed(read) && Distinct(found)
    ensures StoredAfter(atExec, WithAssignments(Present(found, atExec.Keys), read, idToA),
                        SetExisting(atExec, WithAssignments(found, read, idToA)))
  {
    var sent := WithAssignments(found, read, idToA);
    var kept := Present(found, atExec.Keys);
    var updated := WithAssignments(kept, read, idToA);
    PresentOrAbsent(found, atExec.Keys);
    IdsOfGiven(kept, read, idToA);
    forall t | t in updated
      ensures t.id in atExec && SetExisting(atExec, sent)[t.id] == t
    {
      var k :| 0 <= k < |updated| && updated[k] == t;
      assert t == Give(read, idToA, kept[k]) && kept[k] in kept;
      SentIsSet(found, idToA, read, atExec, kept[k]);
    }
    forall id | id in atExec && id !in kept
      ensures SetExisting(atExec, sent)[id] == atExec[id]
    {
      assert forall i :: 0 <= i < |sent| ==> sent[i].id == found[i] && found[i] in found;
      SetExistingSkips(atExec, sent, id);
    }
  }

  lemma SentIsSet(found: seq<TicketId>, idToA: map<TicketId, Assignment>, read: Tickets, atExec: Tickets, id: TicketId)
    requires Keyed(read) && Distinct(found) && id in found && id in atExec
    ensures SetExisting(atExec, WithAssignments(found, read, idToA))[id] == Give(read, idToA, id)
  {
    var sent := WithAssignments(found, read, idToA);
    var i :| 0 <= i < |found| && found[i] == id;
    assert forall j :: 0 <= j < |sent| ==> sent[j].id == found[j];
    SetExistingSets(atExec, sent, i);
  }
}
