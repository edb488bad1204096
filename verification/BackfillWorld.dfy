/** Backfills in the state store, and every RPC that touches them, one store command at a time.
    Each running RPC is a thread with a program counter; commands of different threads
    interleave freely, any command may fail and cut its RPC short, and the clock never goes
    back.  Locking is by a real mutex per backfill id.  A command touches the store only under
    its own backfill id, so the store is kept as one slot per id. */
module BackfillWorld {
  import opened Domain

  type Tid = nat

  datatype Backfill = Backfill(gen: int, searchFields: string, extensions: string, persistent: string, createTime: int)

  /** The value stored under a backfill id: the backfill and its associated tickets. */
  datatype Record = Record(bf: Backfill, tickets: seq<TicketId>)

  /** An update that thread tid applied to generation gen. */
  datatype Bump = Bump(gen: int, tid: Tid)

  /** What the store holds for one id: the record, its entry in allBackfills, its entry in
      backfill_last_ack_time and its mutex.  The rest is history: whether the id was ever generated,
      stored or acknowledged, which updates were applied, and which thread has changed the record
      but not yet the acknowledgment entry. */
  datatype Slot = Slot(
    rec: Option<Record>, idx: Option<int>, ack: Option<int>, lock: Option<Tid>,
    used: bool, stored: bool, stamped: bool, bumps: seq<Bump>, halfway: Option<Tid>)

  const EMPTY_SLOT: Slot := Slot(None, None, None, None, false, false, false, [], None)

  /** Create and MatchCreate: new backfills from the frontend and from a match without a backfill id.
      Update: a game server's UpdateBackfill.  Match: an accepted match with a backfill id.
      Ack: AcknowledgeBackfill.  Delete: DeleteBackfillCompletely. */
  datatype Op = Create | MatchCreate | Update | Match | Ack | Delete

  datatype Outcome = Ok | Streamed | Dropped | Failed

  /** The command a thread runs next. */
  datatype Pc =
    | New | Stamp | Index                               // creation
    | Lock | Get | Check | Write | Release              // updates
    | Assign | Unlist | Recheck | Detach                // acknowledgment
    | Unindex | Fetch | Free | Remove | Unstamp         // deletion
    | Return(o: Outcome) | LetGo | Stream | Done(o: Outcome)

  /** arg: the backfill in the request.  tickets: the match's tickets, or those to release.
      got: the record read from, or to be written to, the store.  checkedAt: when expiry was checked. */
  datatype Thread = Thread(op: Op, id: BackfillId, pc: Pc, arg: Backfill, tickets: seq<TicketId>, got: Record,
                           checkedAt: int)

  // ---------------------------------------------------------------- one command

  /** getBackfillReleaseTimeout: 80% of pendingReleaseTimeout, in integer arithmetic. */
  function Ttl(p: nat): nat {
    p / 5 * 4
  }

  /** The largest multiple of four that is at most four fifths of p. */
  lemma TtlIsFourFifths(p: nat)
    ensures Ttl(p) % 4 == 0 && 5 * Ttl(p) <= 4 * p < 5 * Ttl(p) + 20
  {
    assert p == p / 5 * 5 + p % 5;
  }

  /** isBackfillExpired, for an id with an acknowledgment. */
  ghost predicate Expired(slot: Slot, now: int, p: nat) {
    slot.ack.Some? && slot.ack.value < now - Ttl(p)
  }

  ghost predicate CheckFails(slot: Slot, now: int, p: nat) {
    slot.ack.None? || Expired(slot, now, p)
  }

  predicate Creating(op: Op) {
    op == Create || op == MatchCreate
  }

  /** The backfill an update writes: the request's fields over the stored ones, one generation on.
      A match keeps the associated tickets and adds its own; a game server's update clears them. */
  ghost function Updated(th: Thread): Record {
    if th.op == Match then
      Record(th.got.bf.(searchFields := th.arg.searchFields, extensions := th.arg.extensions, gen := th.got.bf.gen + 1),
             th.got.tickets + th.tickets)
    else
      Record(th.got.bf.(searchFields := th.arg.searchFields, extensions := th.arg.extensions,
                        persistent := th.arg.persistent, gen := th.got.bf.gen + 1), [])
  }

  /** The thread and slot after a command, and the tickets it took out of pending release. */
  datatype Effect = Effect(th: Thread, slot: Slot, freed: seq<TicketId>)

  ghost function Goto(th: Thread, pc: Pc, slot: Slot): Effect {
    Effect(th.(pc := pc), slot, [])
  }

  ghost predicate Enabled(th: Thread, slot: Slot) {
    !th.pc.Done? && (th.pc == Lock ==> slot.lock.None?)
  }

  /** The commands that only read the store, or move the mutex. */
  ghost function ExecQuiet(tid: Tid, th: Thread, slot: Slot, now: int, p: nat): Effect {
    match th.pc
    case Lock => Goto(th, if th.op == Delete then Unindex else Get, slot.(lock := Some(tid)))
    case Get =>
      if slot.rec.None? then Goto(th, Return(if th.op == Match then Dropped else Failed), slot)
      else if th.op == Match && slot.rec.value.bf.gen != th.arg.gen then Goto(th, Return(Dropped), slot)
      else Effect(th.(pc := Check, got := slot.rec.value), slot, [])
    case Check =>
      if CheckFails(slot, now, p) then Goto(th, Return(Failed), slot)
      else Effect(th.(pc := if th.op == Ack then Stamp else Write, checkedAt := now), slot, [])
    case Assign => Goto(th, Unlist, slot)
    case Unlist => Goto(th, Recheck, slot)
    case Recheck => Goto(th, if CheckFails(slot, now, p) then Return(Failed) else Detach, slot)
    case Fetch =>
      Effect(th.(pc := Free, got := if slot.rec.Some? then slot.rec.value else th.got.(tickets := [])), slot, [])
    case Release => Effect(th.(pc := Index), slot, th.tickets)
    case Free => Effect(th.(pc := Remove), slot, th.got.tickets)
    case LetGo => Effect(th.(pc := Done(Dropped)), slot, th.tickets)
    case Stream => Goto(th, Done(Streamed), slot)
    case Return(o) =>
      Goto(th, if o == Streamed then Stream else if o == Dropped then LetGo else Done(o), slot.(lock := None))
    case _ => Goto(th, th.pc, slot)
  }

  ghost predicate IsQuiet(pc: Pc) {
    pc in {Lock, Get, Check, Assign, Unlist, Recheck, Fetch, Release, Free, LetGo, Stream} || pc.Return?
  }

  ghost function AfterIndex(op: Op): Pc {
    match op
    case Create => Done(Ok)
    case MatchCreate => Stream
    case Match => Return(Streamed)
    case _ => Return(Ok)
  }

  /** The commands that write the store. */
  ghost function ExecWrite(tid: Tid, th: Thread, slot: Slot, now: int): Effect {
    match th.pc
    case New =>
      if slot.rec.Some? then Goto(th, Done(Failed), slot)
      else Goto(th, Stamp, slot.(rec := Some(th.got), stored := true, halfway := Some(tid)))
    case Stamp =>
      Goto(th, if Creating(th.op) then Index else if th.got.tickets == [] then Return(Ok) else Assign,
           slot.(ack := Some(now), stamped := true, halfway := if Creating(th.op) then None else slot.halfway))
    case Index => Goto(th, AfterIndex(th.op), slot.(idx := Some(th.got.bf.gen)))
    case Write =>
      Effect(th.(pc := if th.op == Match then Index else Release, got := Updated(th),
                 tickets := if th.op == Match then th.tickets else th.got.tickets),
             slot.(rec := Some(Updated(th)), bumps := slot.bumps + [Bump(th.got.bf.gen, tid)]), [])
    case Detach => Goto(th, Return(Ok), slot.(rec := Some(th.got.(tickets := []))))
    case Unindex => Goto(th, Fetch, slot.(idx := None))
    case Remove =>
      if slot.rec.Some? then Goto(th, Unstamp, slot.(rec := None, halfway := Some(tid))) else Goto(th, Return(Ok), slot)
    case Unstamp => Goto(th, Return(Ok), slot.(ack := None, halfway := None))
    case _ => Goto(th, th.pc, slot)
  }

  ghost function Exec(tid: Tid, th: Thread, slot: Slot, now: int, p: nat): Effect {
    if IsQuiet(th.pc) then ExecQuiet(tid, th, slot, now, p) else ExecWrite(tid, th, slot, now)
  }

  /** A failing command: most RPCs return the error; deletion and ticket deindexing only log it
      and go on; a dropped match stays dropped. */
  ghost function FailPc(th: Thread): Pc {
    match th.pc
    case Stamp => if Creating(th.op) then Done(Failed) else Return(Failed)
    case Index => if Creating(th.op) then Done(Failed) else Return(Failed)
    case New => Done(Failed)
    case Lock => Done(Failed)
    case Stream => Done(Failed)
    case LetGo => Done(Dropped)
    case Unlist => Recheck
    case Fetch => Free
    case Free => Remove
    case Remove => Return(Ok)
    case Unstamp => Return(Ok)
    case Return(o) => Return(o)
    case Done(o) => Done(o)
    case _ => Return(Failed)
  }

  ghost function AfterFailure(th: Thread): Thread {
    th.(pc := FailPc(th), got := if th.pc == Fetch then th.got.(tickets := []) else th.got)
  }

  // ---------------------------------------------------------------- the world

  /** pending: proposed_ticket_ids.  listed: allTickets.  cleanup: expired ids handed to the workers.
      known: every ticket ever indexed. */
  datatype World = World(
    now: int, slots: map<BackfillId, Slot>, threads: map<Tid, Thread>,
    pending: map<TicketId, int>, listed: set<TicketId>, cleanup: set<BackfillId>, known: set<TicketId>)

  ghost function At(slots: map<BackfillId, Slot>, id: BackfillId): Slot {
    if id in slots then slots[id] else EMPTY_SLOT
  }

  ghost predicate Init(w: World) {
    w.slots == map[] && w.threads == map[] && w.pending == map[] && w.listed == {} && w.cleanup == {}
    && w.known == {}
  }

  datatype Step =
    | Run(tid: Tid)
    | Fails(tid: Tid)
    | Tick(d: nat)
    | Begin(tid: Tid, th: Thread)
    | ListExpired
    | BeginCleanup(tid: Tid, th: Thread)
    | MarkPending(ts: set<TicketId>)
    | ReleaseTickets(ts: set<TicketId>)
    | ListTicket(t: TicketId)

  ghost function Unlisted(th: Thread): set<TicketId> {
    if th.pc == Unlist then set t | t in th.got.tickets else {}
  }

  ghost predicate RunStep(w: World, w': World, tid: Tid, p: nat) {
    && tid in w.threads && Enabled(w.threads[tid], At(w.slots, w.threads[tid].id))
    && var th := w.threads[tid];
       var e := Exec(tid, th, At(w.slots, th.id), w.now, p);
       w' == w.(threads := w.threads[tid := e.th], slots := w.slots[th.id := e.slot],
                pending := w.pending - (set t | t in e.freed), listed := w.listed - Unlisted(th))
  }

  ghost predicate FailStep(w: World, w': World, tid: Tid) {
    && tid in w.threads && !w.threads[tid].pc.Done? && !w.threads[tid].pc.Return?
    && w' == w.(threads := w.threads[tid := AfterFailure(w.threads[tid])])
  }

  /** A create that has not yet indexed its backfill: nobody has been told its id. */
  ghost predicate Unborn(th: Thread) {
    Creating(th.op) && (th.pc == New || th.pc == Stamp || th.pc == Index)
  }

  /** A request arrives.  New ids are fresh, and other requests cannot name an id still being created. */
  ghost predicate BeginStep(w: World, w': World, tid: Tid, th: Thread) {
    && tid !in w.threads
    && (if Creating(th.op) then
          && th.pc == New && th.got.bf.gen == 1 && !At(w.slots, th.id).used
          && (forall t :: t in w.threads ==> w.threads[t].id != th.id)
        else
          && th.pc == Lock
          && (forall t :: t in w.threads && w.threads[t].id == th.id ==> !Unborn(w.threads[t])))
    && w' == w.(threads := w.threads[tid := th],
                slots := if Creating(th.op) then w.slots[th.id := At(w.slots, th.id).(used := true)] else w.slots)
  }

  /** GetExpiredBackfillIDs: unlike isBackfillExpired, the range includes the boundary. */
  ghost function ExpiredIds(w: World, p: nat): set<BackfillId> {
    set id | id in w.slots && w.slots[id].ack.Some? && 0 <= w.slots[id].ack.value <= w.now - Ttl(p)
  }

  /** A cleanup worker takes a listed id off the channel. */
  ghost predicate BeginCleanupStep(w: World, w': World, tid: Tid, th: Thread) {
    && tid !in w.threads && th.op == Delete && th.pc == Lock && th.id in w.cleanup
    && w' == w.(threads := w.threads[tid := th], cleanup := w.cleanup - {th.id})
  }

  /** p is the configured pendingReleaseTimeout. */
  ghost predicate Next(w: World, w': World, step: Step, p: nat) {
    match step
    case Run(tid) => RunStep(w, w', tid, p)
    case Fails(tid) => FailStep(w, w', tid)
    case Tick(d) => w' == w.(now := w.now + d)
    case Begin(tid, th) => BeginStep(w, w', tid, th)
    case ListExpired => w.cleanup == {} && w' == w.(cleanup := ExpiredIds(w, p))
    case BeginCleanup(tid, th) => BeginCleanupStep(w, w', tid, th)
    // A ticket is indexed once, when it is created, and its id is given out only after that.
    case MarkPending(ts) => ts <= w.known && w' == w.(pending := w.pending + (map t | t in ts :: w.now))
    case ReleaseTickets(ts) => w' == w.(pending := w.pending - ts)
    case ListTicket(t) => t !in w.known && w' == w.(listed := w.listed + {t}, known := w.known + {t})
  }

  ghost predicate IsRun(run: seq<World>, steps: seq<Step>, p: nat) {
    && |run| == |steps| + 1
    && Init(run[0])
    && forall i {:trigger steps[i]} :: 0 <= i < |steps| ==> Next(run[i], run[i + 1], steps[i], p)
  }

  // ---------------------------------------------------------------- what holds of a slot and its threads

  /** Between its Lock and the matching unlock a thread holds the mutex of its id. */
  ghost predicate Holding(th: Thread) {
    !Creating(th.op) && th.pc != Lock && th.pc != LetGo && th.pc != Stream && !th.pc.Done?
  }

  /** A lock holder past its read has in hand exactly what is stored. */
  ghost predicate HasRead(th: Thread) {
    !Creating(th.op) && th.pc in {Check, Write, Release, Index, Stamp, Assign, Unlist, Recheck, Detach}
  }

  /** The commands each RPC can be at. */
  ghost predicate PcOfOp(th: Thread) {
    match th.op
    case Create => th.pc in {New, Stamp, Index} || th.pc.Done?
    case MatchCreate => th.pc in {New, Stamp, Index, Stream} || th.pc.Done?
    case Update => th.pc in {Lock, Get, Check, Write, Release, Index, Return(Ok), Return(Failed)} || th.pc.Done?
    case Match =>
      th.pc in {Lock, Get, Check, Write, Index, LetGo, Stream} || (th.pc.Return? && th.pc.o != Ok) || th.pc.Done?
    case Ack =>
      th.pc in {Lock, Get, Check, Stamp, Assign, Unlist, Recheck, Detach, Return(Ok), Return(Failed)} || th.pc.Done?
    case Delete => th.pc in {Lock, Unindex, Fetch, Free, Remove, Unstamp, Return(Ok), Return(Failed)} || th.pc.Done?
  }

  /** A match is streamed only after its update was applied, and dropped only if it never was. */
  ghost predicate MatchSound(tid: Tid, th: Thread, slot: Slot) {
    && (th.pc in {Check, Write} ==> th.got.bf.gen == th.arg.gen)
    && (th.pc in {Index, Return(Streamed), Stream, Done(Streamed)} ==> Bump(th.arg.gen, tid) in slot.bumps)
    && (th.pc in {Lock, Get, Check, Write, Return(Dropped), LetGo, Done(Dropped)} ==>
          forall b :: b in slot.bumps ==> b.tid != tid)
  }

  ghost predicate CreateSound(th: Thread, slot: Slot) {
    && slot.used && th.got.bf.gen == 1
    && (th.pc == New ==> slot.rec.None? && !slot.stored)
    && (th.pc == Stamp ==> slot.rec == Some(th.got))
    && (th.pc == Index ==> slot.stored && (slot.rec.Some? ==> slot.rec.value == th.got))
    && (th.pc != Index ==> slot.ack.None? && slot.idx.None? && !slot.stamped && slot.bumps == [])
  }

  ghost predicate ThreadSound(tid: Tid, th: Thread, slot: Slot) {
    && PcOfOp(th)
    && (Holding(th) ==> slot.lock == Some(tid))
    && (HasRead(th) ==> slot.rec == Some(th.got))
    && (th.op == Match ==> MatchSound(tid, th, slot))
    && (Unborn(th) ==> CreateSound(th, slot))
  }

  ghost predicate SlotSound(slot: Slot, now: int) {
    && (slot.rec.Some? ==> slot.used && slot.stored && slot.rec.value.bf.gen >= 1)
    && (slot.ack.Some? ==> slot.used && slot.stamped && slot.ack.value <= now)
    && (slot.idx.Some? ==> slot.used && slot.stored)
    && (slot.stored || slot.stamped ==> slot.used)
    && (slot.idx.Some? && slot.rec.Some? ==> slot.idx.value <= slot.rec.value.bf.gen)
    && (forall i, j :: 0 <= i < j < |slot.bumps| ==> slot.bumps[i].gen < slot.bumps[j].gen)
    && (slot.rec.Some? ==> forall i :: 0 <= i < |slot.bumps| ==> slot.bumps[i].gen < slot.rec.value.bf.gen)
  }

  /** Two threads on one id: an unborn id is known to its creator, and later to cleanup, alone. */
  ghost predicate Apart(a: Thread, b: Thread) {
    a.id == b.id ==>
      && (Unborn(a) ==> a.pc == Index && b.op == Delete)
      && (Unborn(b) ==> b.pc == Index && a.op == Delete)
  }

  ghost predicate SlotsSound(w: World) {
    forall id :: SlotSound(At(w.slots, id), w.now)
  }

  ghost predicate ThreadsSound(w: World) {
    forall tid :: tid in w.threads ==> ThreadSound(tid, w.threads[tid], At(w.slots, w.threads[tid].id))
  }

  ghost predicate AllApart(w: World) {
    forall a, b :: a in w.threads && b in w.threads && a != b ==> Apart(w.threads[a], w.threads[b])
  }

  ghost predicate HistorySound(w: World) {
    && (forall id :: id in w.cleanup ==> At(w.slots, id).stamped)
    && (forall id, b :: b in At(w.slots, id).bumps ==> b.tid in w.threads && w.threads[b.tid].id == id)
  }

  ghost predicate Inv(w: World) {
    SlotsSound(w) && ThreadsSound(w) && AllApart(w) && HistorySound(w)
  }

  // ---------------------------------------------------------------- local lemmas

  lemma QuietKeepsThread(tid: Tid, th: Thread, slot: Slot, now: int, p: nat)
    requires ThreadSound(tid, th, slot) && Enabled(th, slot) && IsQuiet(th.pc)
    ensures var e := ExecQuiet(tid, th, slot, now, p);
            ThreadSound(tid, e.th, e.slot) && e.th.id == th.id && e.th.op == th.op && e.th.arg == th.arg
  {
  }

  lemma WriteKeepsThread(tid: Tid, th: Thread, slot: Slot, now: int)
    requires ThreadSound(tid, th, slot) && SlotSound(slot, now) && Enabled(th, slot) && !IsQuiet(th.pc)
    ensures var e := ExecWrite(tid, th, slot, now);
            ThreadSound(tid, e.th, e.slot) && e.th.id == th.id && e.th.op == th.op && e.th.arg == th.arg
  {
  }

  lemma WriteKeepsSlot(tid: Tid, th: Thread, slot: Slot, now: int)
    requires ThreadSound(tid, th, slot) && SlotSound(slot, now) && Enabled(th, slot) && !IsQuiet(th.pc)
    ensures SlotSound(ExecWrite(tid, th, slot, now).slot, now)
  {
  }

  /** A command of one thread leaves what another thread on the same id relies on. */
  lemma WriteKeepsOther(tid: Tid, th: Thread, slot: Slot, now: int, t: Tid, other: Thread)
    requires ThreadSound(tid, th, slot) && SlotSound(slot, now) && Enabled(th, slot) && !IsQuiet(th.pc)
    requires t != tid && other.id == th.id && ThreadSound(t, other, slot) && Apart(th, other)
    ensures ThreadSound(t, other, ExecWrite(tid, th, slot, now).slot)
  {
  }

  lemma QuietKeepsOther(tid: Tid, th: Thread, slot: Slot, now: int, p: nat, t: Tid, other: Thread)
    requires ThreadSound(tid, th, slot) && Enabled(th, slot) && IsQuiet(th.pc)
    requires t != tid && other.id == th.id && ThreadSound(t, other, slot)
    ensures ThreadSound(t, other, ExecQuiet(tid, th, slot, now, p).slot)
  {
  }

  lemma RunKeeps(tid: Tid, th: Thread, slot: Slot, now: int, p: nat)
    requires ThreadSound(tid, th, slot) && SlotSound(slot, now) && Enabled(th, slot)
    ensures var e := Exec(tid, th, slot, now, p);
            ThreadSound(tid, e.th, e.slot) && SlotSound(e.slot, now)
  {
    if IsQuiet(th.pc) {
      QuietKeepsThread(tid, th, slot, now, p);
    } else {
      WriteKeepsThread(tid, th, slot, now);
      WriteKeepsSlot(tid, th, slot, now);
    }
  }

  lemma RunFacts(tid: Tid, th: Thread, slot: Slot, now: int, p: nat)
    requires PcOfOp(th) && !th.pc.Done?
    ensures var e := Exec(tid, th, slot, now, p);
            && e.th.id == th.id && e.th.op == th.op && e.th.arg == th.arg
            && (Unborn(e.th) ==> Unborn(th) && (th.pc == Index ==> e.th.pc == Index))
            && (slot.stamped ==> e.slot.stamped)
            && (forall b :: b in e.slot.bumps ==> b in slot.bumps || b.tid == tid)
  {
  }

  lemma RunKeepsOther(tid: Tid, th: Thread, slot: Slot, now: int, p: nat, t: Tid, other: Thread)
    requires ThreadSound(tid, th, slot) && SlotSound(slot, now) && Enabled(th, slot)
    requires t != tid && other.id == th.id && ThreadSound(t, other, slot) && Apart(th, other)
    ensures ThreadSound(t, other, Exec(tid, th, slot, now, p).slot)
  {
    if IsQuiet(th.pc) {
      QuietKeepsOther(tid, th, slot, now, p, t, other);
    } else {
      WriteKeepsOther(tid, th, slot, now, t, other);
    }
  }

  lemma FailKeeps(tid: Tid, th: Thread, slot: Slot)
    requires ThreadSound(tid, th, slot) && !th.pc.Done? && !th.pc.Return?
    ensures var th' := AfterFailure(th);
            && ThreadSound(tid, th', slot) && th'.id == th.id && th'.op == th.op && th'.arg == th.arg && !Unborn(th')
  {
  }

  // ---------------------------------------------------------------- every step keeps the invariant

  lemma RunKeepsSlots(w: World, w': World, tid: Tid, p: nat)
    requires Inv(w) && RunStep(w, w', tid, p)
    ensures SlotsSound(w')
  {
    var th := w.threads[tid];
    RunKeeps(tid, th, At(w.slots, th.id), w.now, p);
    forall id ensures SlotSound(At(w'.slots, id), w'.now) {
      assert id != th.id ==> At(w'.slots, id) == At(w.slots, id);
    }
  }

  lemma RunKeepsThreads(w: World, w': World, tid: Tid, p: nat)
    requires Inv(w) && RunStep(w, w', tid, p)
    ensures ThreadsSound(w')
  {
    var th := w.threads[tid];
    var slot := At(w.slots, th.id);
    RunKeeps(tid, th, slot, w.now, p);
    RunFacts(tid, th, slot, w.now, p);
    forall t | t in w'.threads ensures ThreadSound(t, w'.threads[t], At(w'.slots, w'.threads[t].id)) {
      if t != tid {
        var other := w.threads[t];
        assert ThreadSound(t, other, At(w.slots, other.id));
        if other.id == th.id {
          assert Apart(th, other);
          RunKeepsOther(tid, th, slot, w.now, p, t, other);
        }
      }
    }
  }

  lemma RunKeepsRest(w: World, w': World, tid: Tid, p: nat)
    requires Inv(w) && RunStep(w, w', tid, p)
    ensures AllApart(w') && HistorySound(w')
  {
    var th := w.threads[tid];
    assert ThreadSound(tid, th, At(w.slots, th.id));
    RunFacts(tid, th, At(w.slots, th.id), w.now, p);
    forall a, b | a in w'.threads && b in w'.threads && a != b ensures Apart(w'.threads[a], w'.threads[b]) {
      assert Apart(w.threads[a], w.threads[b]);
    }
    forall id, b | b in At(w'.slots, id).bumps ensures b.tid in w'.threads && w'.threads[b.tid].id == id {
      assert id != th.id ==> At(w'.slots, id) == At(w.slots, id);
      assert b in At(w.slots, id).bumps || (id == th.id && b.tid == tid);
    }
  }

  lemma FailStepKeepsInv(w: World, w': World, tid: Tid)
    requires Inv(w) && FailStep(w, w', tid)
    ensures Inv(w')
  {
    FailKeeps(tid, w.threads[tid], At(w.slots, w.threads[tid].id));
    forall a, b | a in w'.threads && b in w'.threads && a != b ensures Apart(w'.threads[a], w'.threads[b]) {
      assert Apart(w.threads[a], w.threads[b]);
    }
  }

  lemma BumpOwner(w: World, id: BackfillId, b: Bump)
    requires Inv(w) && b in At(w.slots, id).bumps
    ensures b.tid in w.threads && w.threads[b.tid].id == id
  {
  }

  /** An id nobody has used has an empty slot. */
  lemma UnusedIsEmpty(w: World, id: BackfillId)
    requires Inv(w) && !At(w.slots, id).used && forall t :: t in w.threads ==> w.threads[t].id != id
    ensures var slot := At(w.slots, id);
            slot.rec.None? && slot.ack.None? && slot.idx.None? && !slot.stored && !slot.stamped && slot.bumps == []
  {
    var slot := At(w.slots, id);
    assert SlotSound(slot, w.now);
    if slot.bumps != [] {
      BumpOwner(w, id, slot.bumps[0]);
    }
  }

  lemma CreateBeginKeepsSlots(w: World, w': World, tid: Tid, th: Thread)
    requires Inv(w) && BeginStep(w, w', tid, th) && Creating(th.op)
    ensures SlotsSound(w') && HistorySound(w')
  {
    forall id ensures
      && SlotSound(At(w'.slots, id), w'.now)
      && At(w'.slots, id).bumps == At(w.slots, id).bumps && At(w'.slots, id).stamped == At(w.slots, id).stamped
    {
      assert id != th.id ==> At(w'.slots, id) == At(w.slots, id);
      assert SlotSound(At(w.slots, id), w.now);
    }
  }

  lemma CreateBeginKeepsThreads(w: World, w': World, tid: Tid, th: Thread)
    requires Inv(w) && BeginStep(w, w', tid, th) && Creating(th.op)
    ensures ThreadsSound(w') && AllApart(w')
  {
    UnusedIsEmpty(w, th.id);
    forall t | t in w'.threads ensures ThreadSound(t, w'.threads[t], At(w'.slots, w'.threads[t].id)) {
      assert t != tid ==> ThreadSound(t, w.threads[t], At(w.slots, w.threads[t].id));
    }
  }

  lemma RequestBeginKeepsInv(w: World, w': World, tid: Tid, th: Thread)
    requires Inv(w) && BeginStep(w, w', tid, th) && !Creating(th.op)
    ensures Inv(w')
  {
    var slot := At(w.slots, th.id);
    assert forall b :: b in slot.bumps ==> b.tid != tid;
    assert ThreadSound(tid, th, slot);
    assert AllApart(w') by {
      forall a, b | a in w'.threads && b in w'.threads && a != b ensures Apart(w'.threads[a], w'.threads[b]) {
        assert a != tid && b != tid ==> Apart(w.threads[a], w.threads[b]);
      }
    }
  }

  lemma CleanupBeginKeepsInv(w: World, w': World, tid: Tid, th: Thread)
    requires Inv(w) && BeginCleanupStep(w, w', tid, th)
    ensures Inv(w')
  {
    assert At(w.slots, th.id).stamped;
    forall a, b | a in w'.threads && b in w'.threads && a != b ensures Apart(w'.threads[a], w'.threads[b]) {
      assert a != tid ==> ThreadSound(a, w.threads[a], At(w.slots, w.threads[a].id));
      assert b != tid ==> ThreadSound(b, w.threads[b], At(w.slots, w.threads[b].id));
      assert a != tid && b != tid ==> Apart(w.threads[a], w.threads[b]);
    }
  }

  lemma InvStep(w: World, w': World, step: Step, p: nat)
    requires Inv(w) && Next(w, w', step, p)
    ensures Inv(w')
  {
    match step
    case Run(tid) =>
      RunKeepsSlots(w, w', tid, p);
      RunKeepsThreads(w, w', tid, p);
      RunKeepsRest(w, w', tid, p);
    case Fails(tid) => FailStepKeepsInv(w, w', tid);
    case Begin(tid, th) =>
      if Creating(th.op) {
        CreateBeginKeepsSlots(w, w', tid, th);
        CreateBeginKeepsThreads(w, w', tid, th);
      } else {
        RequestBeginKeepsInv(w, w', tid, th);
      }
    case BeginCleanup(tid, th) => CleanupBeginKeepsInv(w, w', tid, th);
    case ListExpired =>
      assert forall id :: id in w'.cleanup ==> SlotSound(At(w.slots, id), w.now);
    case _ =>
      forall id ensures SlotSound(At(w'.slots, id), w'.now) {
        assert SlotSound(At(w.slots, id), w.now);
      }
  }

  lemma {:induction false} InvOfRun(run: seq<World>, steps: seq<Step>, p: nat, n: nat)
    requires IsRun(run, steps, p) && n < |run|
    ensures Inv(run[n])
  {
    if n == 0 {
    } else {
      InvOfRun(run, steps, p, n - 1);
      InvStep(run[n - 1], run[n], steps[n - 1], p);
    }
  }
}
