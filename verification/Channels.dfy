/** The buffering stage: a goroutine that turns a channel of values into a channel of batches. */
module ChannelBuffer {

  /** The concatenation of the batches. */
  function Flatten<T>(batches: seq<seq<T>>): seq<T>
  {
    if batches == [] then [] else Flatten(batches[..|batches| - 1]) + batches[|batches| - 1]
  }

  /**
   * First: waiting for the value that starts a batch. Select: holding a batch,
   * offering it while still receiving. Flush: the input has ended. Close: about
   * to close the output.
   */
  datatype Pc = First | Select | Flush | Close | Done

  /**
   * received: everything taken from the input so far. inClosed: the producer
   * closed the input. closes: how often the output was closed. afterClose: how many
   * values were sent on the output after that (each would be a panic).
   */
  datatype Buffer<T> = Buffer(
    pc: Pc, a: seq<T>,
    received: seq<T>, inClosed: bool,
    batches: seq<seq<T>>, closes: nat, afterClose: nat)

  datatype Event<T> = ProducerCloses | Receive(value: T) | SeeEnd | Offer | CloseOutput

  function Start<T>(): Buffer<T> {
    Buffer(First, [], [], false, [], 0, 0)
  }

  /** out <- a */
  function Send<T>(s: Buffer<T>, next: Pc): Buffer<T> {
    s.(pc := next, a := [], batches := s.batches + [s.a],
       afterClose := if s.closes == 0 then s.afterClose else s.afterClose + 1)
  }

  /** One step of the goroutine or of its producer. */
  ghost predicate Next<T>(s: Buffer<T>, e: Event<T>, s': Buffer<T>) {
    match e
    case ProducerCloses => !s.inClosed && s' == s.(inClosed := true)
    case Receive(v) =>
      && !s.inClosed
      && (if s.pc == First then s' == s.(pc := Select, a := [v], received := s.received + [v])
          else s.pc == Select && s' == s.(a := s.a + [v], received := s.received + [v]))
    case SeeEnd => s.inClosed && (s.pc == First || s.pc == Select) && s' == s.(pc := Flush)
    case Offer => (s.pc == Select && s' == Send(s, First)) || (s.pc == Flush && |s.a| > 0 && s' == Send(s, Close))
    case CloseOutput =>
      || (s.pc == Flush && s.a == [] && s' == s.(pc := Close))
      || (s.pc == Close && s' == s.(pc := Done, closes := s.closes + 1))
  }

  ghost predicate Run<T>(run: seq<Buffer<T>>, events: seq<Event<T>>) {
    && |run| == |events| + 1
    && run[0] == Start()
    && forall k :: 0 <= k < |events| ==> Next(run[k], events[k], run[k + 1])
  }

  ghost predicate Inv<T>(s: Buffer<T>) {
    && Flatten(s.batches) + s.a == s.received
    && (forall b :: b in s.batches ==> b != [])
    && (s.pc == Select <==> s.a != [] && s.pc != Flush)
    && (s.pc == Flush || s.pc == Close || s.pc == Done ==> s.inClosed)
    && s.closes == (if s.pc == Done then 1 else 0)
    && s.afterClose == 0
  }

  lemma InvStep<T>(s: Buffer<T>, e: Event<T>, s': Buffer<T>)
    requires Inv(s) && Next(s, e, s')
    ensures Inv(s')
  {
    if e.Offer? {
      assert s'.batches[..|s.batches|] == s.batches;
    }
  }

  /** What the environment has put in the input between two steps. */
  function Inputs<T>(events: seq<Event<T>>): seq<T> {
    if events == [] then []
    else
      var last := events[|events| - 1];
      Inputs(events[..|events| - 1]) + if last.Receive? then [last.value] else []
  }

  lemma ReceivedStep<T>(s: Buffer<T>, e: Event<T>, s': Buffer<T>)
    requires Next(s, e, s')
    ensures s'.received == s.received + if e.Receive? then [e.value] else []
  {
  }

  lemma {:induction false} InvOfRun<T>(run: seq<Buffer<T>>, events: seq<Event<T>>, n: nat)
    requires Run(run, events) && n <= |events|
    ensures Inv(run[n]) && run[n].received == Inputs(events[..n])
  {
    if n == 0 {
    } else {
      InvOfRun(run, events, n - 1);
      InvStep(run[n - 1], events[n - 1], run[n]);
      ReceivedStep(run[n - 1], events[n - 1], run[n]);
      assert events[..n][..n - 1] == events[..n - 1];
    }
  }

  /**
   * In every interleaving of producer, goroutine and consumer: the batches handed
   * on, followed by the batch being built, are exactly the input so far in order;
   * no batch is empty; nothing is sent after the output was closed, which happens
   * at most once; and once it is closed the batches are the whole input.
   */
  lemma LosslessInOrder<T>(run: seq<Buffer<T>>, events: seq<Event<T>>, n: nat)
    requires Run(run, events) && n <= |events|
    ensures Flatten(run[n].batches) + run[n].a == Inputs(events[..n])
    ensures forall b :: b in run[n].batches ==> b != []
    ensures run[n].closes <= 1 && run[n].afterClose == 0
    ensures run[n].closes == 1 ==> Flatten(run[n].batches) == Inputs(events[..n])
  {
    InvOfRun(run, events, n);
  }

  /** How many steps the goroutine can still take once its input has been closed. */
  function StepsLeft<T>(s: Buffer<T>): nat {
    match s.pc case Select => 4 case First => 3 case Flush => if s.a == [] then 2 else 3 case Close => 1 case Done => 0
  }

  /** Closing the input flushes everything: the goroutine is never stuck and every step brings it nearer its end. */
  lemma ClosedInputDrains<T>(s: Buffer<T>)
    requires Inv(s) && s.inClosed
    ensures forall e, s' :: Next(s, e, s') ==> s'.inClosed && StepsLeft(s') < StepsLeft(s)
    ensures s.pc != Done ==> exists e, s' :: Next(s, e, s')
    ensures StepsLeft(s) == 0 ==> Flatten(s.batches) == s.received && s.closes == 1
  {
    forall e, s' | Next(s, e, s')
      ensures s'.inClosed && StepsLeft(s') < StepsLeft(s)
    {
    }
    match s.pc
    case First => assert Next(s, SeeEnd, s.(pc := Flush));
    case Select => assert Next(s, Offer, Send(s, First));
    case Flush =>
      if s.a == [] {
        assert Next(s, CloseOutput, s.(pc := Close));
      } else {
        assert Next(s, Offer, Send(s, Close));
      }
    case Close => assert Next(s, CloseOutput, s.(pc := Done, closes := s.closes + 1));
    case Done =>
  }
}

/** The cutoff sender: many callers, one forwarding goroutine, any number of cutoffs. */
module CutoffSender {

  /** Forwarding(m): a value taken from a caller and not yet handed on. */
  datatype Pc<T> = Selecting | Forwarding(value: T) | Stopped

  /** A send call that has returned: its caller, its value and whether the value was taken. */
  datatype Sent<T> = Sent(caller: nat, value: T, taken: bool)

  /**
   * cutoffs: how often `cutoff` was called. closedCloses: how often the `closed`
   * channel was closed. out, outCloses: the output channel. afterClose: values sent on
   * the output after it was closed.
   */
  datatype State<T> = State(
    pc: Pc<T>, cutoffs: nat, closedCloses: nat,
    out: seq<T>, outCloses: nat, afterClose: nat,
    calls: seq<Sent<T>>)

  datatype Event<T> = Cutoff | Accept(caller: nat, value: T) | Ignore(caller: nat, value: T) | Forward | Stop

  function Start<T>(): State<T> {
    State(Selecting, 0, 0, [], 0, 0, [])
  }

  ghost predicate Next<T>(s: State<T>, e: Event<T>, s': State<T>) {
    match e
    case Cutoff =>
      s' == s.(cutoffs := s.cutoffs + 1, closedCloses := if s.cutoffs == 0 then s.closedCloses + 1 else s.closedCloses)
    case Accept(caller, v) =>
      s.pc.Selecting? && s' == s.(pc := Forwarding(v), calls := s.calls + [Sent(caller, v, true)])
    case Ignore(caller, v) => s.closedCloses > 0 && s' == s.(calls := s.calls + [Sent(caller, v, false)])
    case Forward =>
      && s.pc.Forwarding?
      && s' == s.(pc := Selecting, out := s.out + [s.pc.value],
                  afterClose := if s.outCloses == 0 then s.afterClose else s.afterClose + 1)
    case Stop => s.pc.Selecting? && s.closedCloses > 0 && s' == s.(pc := Stopped, outCloses := s.outCloses + 1)
  }

  ghost predicate Run<T>(run: seq<State<T>>, events: seq<Event<T>>) {
    && |run| == |events| + 1
    && run[0] == Start()
    && forall k :: 0 <= k < |events| ==> Next(run[k], events[k], run[k + 1])
  }

  /** The values of the calls whose value was taken, in call order. */
  function Taken<T>(calls: seq<Sent<T>>): seq<T> {
    if calls == [] then []
    else
      var last := calls[|calls| - 1];
      Taken(calls[..|calls| - 1]) + if last.taken then [last.value] else []
  }

  /** at picks, in order, the positions of `part` inside the calls. */
  ghost predicate PicksInOrder<T>(calls: seq<Sent<T>>, part: seq<T>, at: seq<nat>) {
    && |at| == |part|
    && (forall i :: 0 <= i < |at| ==> at[i] < |calls| && calls[at[i]].taken && calls[at[i]].value == part[i])
    && (forall i, j :: 0 <= i < j < |at| ==> at[i] < at[j])
  }

  /** `part` is an ordered subsequence of the calls. */
  ghost predicate Subsequence<T>(calls: seq<Sent<T>>, part: seq<T>) {
    exists at: seq<nat> :: PicksInOrder(calls, part, at)
  }

  lemma {:induction false} TakenIsSubsequence<T>(calls: seq<Sent<T>>)
    ensures Subsequence(calls, Taken(calls))
  {
    if calls == [] {
      assert PicksInOrder(calls, Taken(calls), []);
    } else {
      var n := |calls| - 1;
      TakenIsSubsequence(calls[..n]);
      var at: seq<nat> :| PicksInOrder(calls[..n], Taken(calls[..n]), at);
      PicksOneMore(calls, Taken(calls[..n]), at);
      assert Taken(calls) == if calls[n].taken then Taken(calls[..n]) + [calls[n].value] else Taken(calls[..n]);
    }
  }

  lemma PicksOneMore<T>(calls: seq<Sent<T>>, part: seq<T>, at: seq<nat>)
    requires calls != [] && PicksInOrder(calls[..|calls| - 1], part, at)
    ensures Subsequence(calls, part)
    ensures calls[|calls| - 1].taken ==> Subsequence(calls, part + [calls[|calls| - 1].value])
  {
    var n := |calls| - 1;
    forall i | 0 <= i < |at|
      ensures at[i] < n && calls[at[i]].taken && calls[at[i]].value == part[i]
    {
      assert calls[..n][at[i]] == calls[at[i]];
    }
    assert PicksInOrder(calls, part, at);
    if calls[n].taken {
      assert PicksInOrder(calls, part + [calls[n].value], at + [n]);
    }
  }

  lemma PrefixIsSubsequence<T>(calls: seq<Sent<T>>, part: seq<T>, n: nat)
    requires Subsequence(calls, part) && n <= |part|
    ensures Subsequence(calls, part[..n])
  {
    var at: seq<nat> :| PicksInOrder(calls, part, at);
    assert PicksInOrder(calls, part[..n], at[..n]);
  }

  function InHand<T>(pc: Pc<T>): seq<T> {
    if pc.Forwarding? then [pc.value] else []
  }

  ghost predicate Inv<T>(s: State<T>) {
    && s.out + InHand(s.pc) == Taken(s.calls)
    && s.closedCloses == (if s.cutoffs > 0 then 1 else 0)
    && s.outCloses == (if s.pc.Stopped? then 1 else 0)
    && s.afterClose == 0
    && (s.pc.Stopped? ==> s.cutoffs > 0)
    && (s.cutoffs == 0 ==> forall i :: 0 <= i < |s.calls| ==> s.calls[i].taken)
  }

  lemma InvStep<T>(s: State<T>, e: Event<T>, s': State<T>)
    requires Inv(s) && Next(s, e, s')
    ensures Inv(s')
  {
    if s'.calls != s.calls {
      assert s'.calls[..|s.calls|] == s.calls;
    }
  }

  lemma {:induction false} InvOfRun<T>(run: seq<State<T>>, events: seq<Event<T>>, n: nat)
    requires Run(run, events) && n <= |events|
    ensures Inv(run[n])
  {
    if n == 0 {
    } else {
      InvOfRun(run, events, n - 1);
      InvStep(run[n - 1], events[n - 1], run[n]);
    }
  }

  /**
   * In every interleaving of any number of senders and cutoff callers: the output is
   * an ordered subsequence of the values sent; before the first cutoff every value is
   * taken, and no taken value is lost; both channels are closed at most once, and
   * nothing is sent on the output after it was closed.
   */
  lemma OrderedUntilCutoff<T>(run: seq<State<T>>, events: seq<Event<T>>, n: nat)
    requires Run(run, events) && n <= |events|
    ensures Subsequence(run[n].calls, run[n].out)
    ensures run[n].out + InHand(run[n].pc) == Taken(run[n].calls)
    ensures run[n].cutoffs == 0 ==> forall i :: 0 <= i < |run[n].calls| ==> run[n].calls[i].taken
    ensures run[n].closedCloses <= 1 && run[n].outCloses <= 1 && run[n].afterClose == 0
  {
    InvOfRun(run, events, n);
    TakenIsSubsequence(run[n].calls);
    PrefixIsSubsequence(run[n].calls, Taken(run[n].calls), |run[n].out|);
    assert Taken(run[n].calls)[..|run[n].out|] == run[n].out;
  }

  /** After its output was closed the stage's output never changes. */
  lemma {:induction false} ClosedIsFinal<T>(run: seq<State<T>>, events: seq<Event<T>>, m: nat, n: nat)
    requires Run(run, events) && m <= n <= |events|
    requires run[m].outCloses > 0
    ensures run[n].out == run[m].out && run[n].outCloses == 1
    decreases n
  {
    InvOfRun(run, events, n);
    if m < n {
      ClosedIsFinal(run, events, m, n - 1);
      InvOfRun(run, events, n - 1);
      assert Next(run[n - 1], events[n - 1], run[n]);
    }
  }
}
