/**
 The reconnecting publisher: a session factory goroutine and a publisher goroutine joined
 by the unbuffered channels `sessions` and `sess`, and the select loop of one session with
 its one-message window. Every step is one channel operation or one call to the broker.

 Messages are numbered in the order the publisher reads them.
 */
module AmqpPublisher {
  import opened Common

  datatype Factory =
    | Offering                  // select { sessions <- sess | ctx.Done }
    | Dialing(failures: nat)    // dialUntilSuccess
    | Handing(session: nat)     // select { sess <- s | ctx.Done }
    | Stopped                   // returned; `sessions` is closed

  datatype Publisher =
    | Ranging                   // for session := range sessions
    | Awaiting                  // pub := <-session
    | Running(loop: Loop)
    | Done

  /** The local variables of publishSession. */
  datatype Loop = Loop(
    session: nat,
    reading: bool,              // `reading` is the messages channel, not nil
    pending: Option<nat>,       // the buffered channel `pending`
    inFlight: Option<nat>,      // published, its confirmation not seen yet
    confirm: Option<bool>,      // the buffered channel `confirm`: ack or nack
    closed: bool)               // `confirm` is closed

  datatype Fate = Held | Acked | Nacked | Lost(session: nat)

  datatype State = State(
    factory: Factory,
    publisher: Publisher,
    cancelled: bool,
    inputClosed: bool,
    taken: nat,                 // session channels received by the publisher
    dialed: nat,                // sessions dialled successfully
    handed: seq<nat>,           // sessions received by the publisher
    fates: seq<Fate>,           // one per message read
    sent: seq<nat>)             // calls of pub.Publish, oldest first

  const Initial := State(Offering, Ranging, false, false, 0, 0, [], [], [])

  datatype Action =
    | TakeSessionChannel
    | DialFails
    | DialSucceeds
    | HandSession(confirms: bool)
    | Cancel
    | FactoryStops
    | RangeEnds
    | CloseInput
    | Read
    | SeeInputClosed
    | Publish
    | PublishFails
    | BrokerConfirms(ack: bool)
    | BrokerDrops
    | SeeConfirmation
    | SeeConfirmClosed

  predicate Enabled(s: State, a: Action) {
    match a
    case TakeSessionChannel => s.factory.Offering? && s.publisher.Ranging?
    case DialFails => s.factory.Dialing?
    case DialSucceeds => s.factory.Dialing?
    case HandSession(_) => s.factory.Handing? && s.publisher.Awaiting?
    case Cancel => true
    case FactoryStops =>
      s.cancelled && (s.factory.Offering? || (s.factory.Dialing? && s.factory.failures > 0) || s.factory.Handing?)
    case RangeEnds => s.publisher.Ranging? && s.factory.Stopped?
    case CloseInput => true
    case _ => s.publisher.Running? && LoopEnabled(s.publisher.loop, s.inputClosed, a)
  }

  predicate LoopEnabled(l: Loop, inputClosed: bool, a: Action) {
    match a
    case Read => l.reading && !inputClosed
    case SeeInputClosed => l.reading && inputClosed
    case Publish => l.pending.Some?
    case PublishFails => l.pending.Some?
    case BrokerConfirms(_) => l.inFlight.Some? && l.confirm.None? && !l.closed  // at most once per publish
    case BrokerDrops => !l.closed
    case SeeConfirmation => l.confirm.Some?
    case SeeConfirmClosed => l.closed && l.confirm.None?
    case _ => false
  }

  /** The message the session still answers for. */
  function Window(l: Loop): Option<nat> {
    if l.pending.Some? then l.pending else l.inFlight
  }

  function Settle(fates: seq<Fate>, m: Option<nat>, fate: Fate): seq<Fate>
    requires m.Some? ==> m.value < |fates|
  {
    if m.Some? then fates[m.value := fate] else fates
  }

  predicate WindowKnown(s: State) {
    s.publisher.Running? ==>
      var l := s.publisher.loop;
      && (l.pending.Some? ==> l.pending.value < |s.fates|)
      && (l.inFlight.Some? ==> l.inFlight.value < |s.fates|)
  }

  function Next(s: State, a: Action): State
    requires Enabled(s, a) && WindowKnown(s)
  {
    match a
    case TakeSessionChannel => s.(factory := Dialing(0), publisher := Awaiting, taken := s.taken + 1)
    case DialFails => s.(factory := Dialing(s.factory.failures + 1))
    case DialSucceeds => s.(factory := Handing(s.dialed), dialed := s.dialed + 1)
    case HandSession(confirms) =>
      s.(factory := Offering, handed := s.handed + [s.factory.session],
         publisher := Running(Loop(s.factory.session, true, None, None, None, !confirms)))
    case Cancel => s.(cancelled := true)
    case FactoryStops => s.(factory := Stopped)
    case RangeEnds => s.(publisher := Done)
    case CloseInput => s.(inputClosed := true)
    case _ => LoopNext(s, s.publisher.loop, a)
  }

  /** The branches of the select loop, and the broker's side of the confirm channel. */
  function LoopNext(s: State, l: Loop, a: Action): State
    requires s.publisher == Running(l) && LoopEnabled(l, s.inputClosed, a) && WindowKnown(s)
  {
    match a
    case Read =>
      s.(publisher := Running(l.(pending := Some(|s.fates|), reading := false)), fates := s.fates + [Held])
    case SeeInputClosed => s.(publisher := Done)
    case Publish =>
      s.(publisher := Running(l.(pending := None, inFlight := l.pending)), sent := s.sent + [l.pending.value])
    case PublishFails =>
      s.(publisher := Ranging, sent := s.sent + [l.pending.value], fates := Settle(s.fates, l.pending, Lost(l.session)))
    case BrokerConfirms(ack) => s.(publisher := Running(l.(confirm := Some(ack))))
    case BrokerDrops => s.(publisher := Running(l.(closed := true)))
    case SeeConfirmation =>
      s.(publisher := Running(l.(confirm := None, inFlight := None, reading := true)),
         fates := Settle(s.fates, l.inFlight, if l.confirm.value then Acked else Nacked))
    case SeeConfirmClosed =>
      s.(publisher := Ranging, fates := Settle(s.fates, Window(l), Lost(l.session)))
  }

  // ----- invariants -----

  /** Who waits for whom: a session channel that was taken is being dialled for. */
  predicate HandoffOk(s: State) {
    && (s.factory.Offering? ==> !s.publisher.Awaiting?)
    && (s.factory.Dialing? || s.factory.Handing? ==> s.publisher.Awaiting?)
    && (s.factory.Stopped? ==> s.cancelled)
    && s.taken == |s.handed| + (if s.publisher.Awaiting? then 1 else 0)
    && (forall i :: 0 <= i < |s.handed| ==> s.handed[i] == i)
    && (s.factory.Handing? ==> s.factory.session == |s.handed| && s.dialed == |s.handed| + 1)
    && (s.factory.Offering? || s.factory.Dialing? ==> s.dialed == |s.handed|)
    && (s.publisher.Running? ==> s.handed != [] && s.publisher.loop.session == |s.handed| - 1)
  }

  /** One message at a time, and the input is read exactly when there is none. */
  predicate WindowOk(s: State) {
    s.publisher.Running? ==>
      var l := s.publisher.loop;
      && (l.reading <==> l.pending.None? && l.inFlight.None?)
      && (l.pending.None? || l.inFlight.None?)
      && (l.confirm.Some? ==> l.inFlight.Some?)
      && (Window(l).Some? ==> Window(l).value == |s.fates| - 1 && s.fates != [])
  }

  /** A message is Held exactly while it is in the window of the running session. */
  predicate FatesOk(s: State) {
    forall i :: 0 <= i < |s.fates| ==>
      (s.fates[i].Held? <==> s.publisher.Running? && Window(s.publisher.loop) == Some(i))
  }

  /** Each session loses at most one message, and the running one none so far. */
  predicate LossesOk(s: State) {
    && (forall i, j :: 0 <= i < j < |s.fates| && s.fates[i].Lost? && s.fates[j].Lost? ==>
          s.fates[i].session < s.fates[j].session)
    && (forall i :: 0 <= i < |s.fates| && s.fates[i].Lost? ==>
          s.fates[i].session < |s.handed| - (if s.publisher.Running? then 1 else 0))
  }

  /** Messages go out in input order, none twice; the buffered one has not gone out yet. */
  predicate SentOk(s: State) {
    && (forall i, j :: 0 <= i < j < |s.sent| ==> s.sent[i] < s.sent[j])
    && (forall i :: 0 <= i < |s.sent| ==> s.sent[i] < |s.fates|)
    && (s.publisher.Running? && s.publisher.loop.pending.Some? ==>
          forall i :: 0 <= i < |s.sent| ==> s.sent[i] < s.publisher.loop.pending.value)
    && (s.publisher.Running? && s.publisher.loop.inFlight.Some? ==>
          s.sent != [] && s.sent[|s.sent| - 1] == s.publisher.loop.inFlight.value)
  }

  /** Only what was sent is acked or nacked. */
  predicate ConfirmedOk(s: State) {
    forall i :: 0 <= i < |s.fates| && (s.fates[i].Acked? || s.fates[i].Nacked?) ==> i in s.sent
  }

  predicate Inv(s: State) {
    HandoffOk(s) && WindowOk(s) && FatesOk(s) && LossesOk(s) && SentOk(s) && ConfirmedOk(s)
  }

  lemma InvKnowsWindow(s: State)
    requires WindowOk(s)
    ensures WindowKnown(s)
  {
  }

  lemma StepKeepsHandoff(s: State, a: Action)
    requires Inv(s) && Enabled(s, a)
    ensures WindowKnown(s) && HandoffOk(Next(s, a))
  {
    InvKnowsWindow(s);
  }

  lemma StepKeepsWindow(s: State, a: Action)
    requires Inv(s) && Enabled(s, a)
    ensures WindowKnown(s) && WindowOk(Next(s, a)) && FatesOk(Next(s, a))
  {
    InvKnowsWindow(s);
  }

  lemma StepKeepsLosses(s: State, a: Action)
    requires Inv(s) && Enabled(s, a)
    ensures WindowKnown(s) && LossesOk(Next(s, a))
  {
    InvKnowsWindow(s);
  }

  lemma StepKeepsSent(s: State, a: Action)
    requires Inv(s) && Enabled(s, a)
    ensures WindowKnown(s) && SentOk(Next(s, a))
  {
    hide HandoffOk, LossesOk, ConfirmedOk;
    InvKnowsWindow(s);
  }

  lemma StepKeepsConfirmed(s: State, a: Action)
    requires Inv(s) && Enabled(s, a)
    ensures WindowKnown(s) && ConfirmedOk(Next(s, a))
  {
    hide HandoffOk, LossesOk;
    InvKnowsWindow(s);
    var s' := Next(s, a);
    forall i | 0 <= i < |s'.fates| && (s'.fates[i].Acked? || s'.fates[i].Nacked?)
      ensures i in s'.sent
    {
      if i < |s.fates| && (s.fates[i].Acked? || s.fates[i].Nacked?) {
        assert i in s.sent;
      }
    }
  }

  lemma StepKeepsInv(s: State, a: Action)
    requires Inv(s) && Enabled(s, a)
    ensures WindowKnown(s) && Inv(Next(s, a))
  {
    StepKeepsHandoff(s, a);
    StepKeepsWindow(s, a);
    StepKeepsLosses(s, a);
    StepKeepsSent(s, a);
    StepKeepsConfirmed(s, a);
  }

  // ----- whole runs -----

  predicate Possible(s: State, run: seq<Action>)
    decreases |run|
  {
    run != [] ==> Enabled(s, run[0]) && WindowKnown(s) && Possible(Next(s, run[0]), run[1..])
  }

  function After(s: State, run: seq<Action>): State
    requires Possible(s, run)
    decreases |run|
  {
    if run == [] then s else After(Next(s, run[0]), run[1..])
  }

  lemma RunOneMore(s: State, a: Action, rest: seq<Action>)
    requires Enabled(s, a) && WindowKnown(s) && Possible(Next(s, a), rest)
    ensures Possible(s, [a] + rest) && After(s, [a] + rest) == After(Next(s, a), rest)
  {
    assert ([a] + rest)[1..] == rest;
  }

  lemma {:induction false} RunKeepsInv(s: State, run: seq<Action>)
    requires Inv(s) && Possible(s, run)
    ensures Inv(After(s, run))
    decreases |run|
  {
    if run != [] {
      StepKeepsInv(s, run[0]);
      RunKeepsInv(Next(s, run[0]), run[1..]);
    }
  }

  /** The window never exceeds one message, and putting a message into `pending` never blocks. */
  lemma WindowNeverBlocks(run: seq<Action>)
    requires Possible(Initial, run)
    ensures var s := After(Initial, run);
      s.publisher.Running? ==>
        var l := s.publisher.loop;
        var load := (if l.pending.Some? then 1 else 0) + (if l.inFlight.Some? then 1 else 0);
        && load <= 1
        && (!l.reading <==> load == 1)
        && (Enabled(s, Read) ==> l.pending.None?)
  {
    RunKeepsInv(Initial, run);
  }

  /**
   Messages go out in order and once; each is in the window or settled; a session loses at
   most one, and only when it has ended.
   */
  lemma PublisherAccounting(run: seq<Action>)
    requires Possible(Initial, run)
    ensures var s := After(Initial, run);
      && (forall i, j :: 0 <= i < j < |s.sent| ==> s.sent[i] < s.sent[j])
      && (forall i :: 0 <= i < |s.fates| && (s.fates[i].Acked? || s.fates[i].Nacked?) ==> i in s.sent)
      && (forall i :: 0 <= i < |s.fates| ==>
            (s.fates[i].Held? <==> s.publisher.Running? && Window(s.publisher.loop) == Some(i)))
      && (forall i, j :: 0 <= i < j < |s.fates| ==>
            !(s.fates[i].Lost? && s.fates[j].Lost? && s.fates[i].session == s.fates[j].session))
      && (forall i :: 0 <= i < |s.fates| && s.fates[i].Lost? ==>
            s.fates[i].session < |s.handed| - (if s.publisher.Running? then 1 else 0))
      && (s.publisher.Running? ==> s.publisher.loop.session == |s.handed| - 1)
  {
    RunKeepsInv(Initial, run);
  }

  /** How often message `m` was handed to pub.Publish. */
  function Sends(s: State, m: nat): nat {
    multiset(s.sent)[m]
  }

  lemma StepKeepsSettled(s: State, a: Action, i: nat)
    requires Inv(s) && Enabled(s, a) && i < |s.fates| && !s.fates[i].Held?
    ensures WindowKnown(s)
    ensures var s' := Next(s, a); i < |s'.fates| && s'.fates[i] == s.fates[i] && Sends(s', i) == Sends(s, i)
  {
    hide HandoffOk, LossesOk, SentOk, ConfirmedOk;
    InvKnowsWindow(s);
  }

  /** What is settled stays settled, and is not sent again, not even once more. */
  lemma {:induction false} SettledIsFinal(s: State, run: seq<Action>, i: nat)
    requires Inv(s) && Possible(s, run) && i < |s.fates| && !s.fates[i].Held?
    ensures var s' := After(s, run);
      i < |s'.fates| && s'.fates[i] == s.fates[i] && Sends(s', i) == Sends(s, i)
    decreases |run|
  {
    if run != [] {
      hide Inv, Next, Enabled, Sends;
      StepKeepsInv(s, run[0]);
      StepKeepsSettled(s, run[0], i);
      SettledIsFinal(Next(s, run[0]), run[1..], i);
    }
  }

  /** A failed Publish was the first and only send of its message. */
  lemma FailedPublishIsTheOnlySend(s: State)
    requires Inv(s) && Enabled(s, PublishFails)
    ensures WindowKnown(s)
    ensures var m, s' := s.publisher.loop.pending.value, Next(s, PublishFails);
      m < |s'.fates| && s'.fates[m] == Lost(s.publisher.loop.session) && Sends(s, m) == 0 && Sends(s', m) == 1
  {
    InvKnowsWindow(s);
    var m := s.publisher.loop.pending.value;
    assert m !in s.sent;
    assert Next(s, PublishFails).sent == s.sent + [m];
  }

  /**
   A failed Publish is not retried on the next session: in every continuation the message
   stays lost, and the send that failed is the only one there ever is.
   */
  lemma FailedPublishIsLost(s: State, more: seq<Action>)
    requires Inv(s) && Enabled(s, PublishFails)
    ensures WindowKnown(s)
    ensures Possible(Next(s, PublishFails), more) ==>
      var m := s.publisher.loop.pending.value;
      var s' := After(Next(s, PublishFails), more);
      m < |s'.fates| && s'.fates[m] == Lost(s.publisher.loop.session) && Sends(s', m) == 1
  {
    FailedPublishIsTheOnlySend(s);
    StepKeepsInv(s, PublishFails);
    if Possible(Next(s, PublishFails), more) {
      SettledIsFinal(Next(s, PublishFails), more, s.publisher.loop.pending.value);
    }
  }

  lemma RunBoth(s: State, a: Action, b: Action)
    requires Enabled(s, a) && WindowKnown(s) && Enabled(Next(s, a), b) && WindowKnown(Next(s, a))
    ensures Possible(s, [a, b]) && After(s, [a, b]) == Next(Next(s, a), b)
  {
    RunOneMore(Next(s, a), b, []);
    RunOneMore(s, a, [b]);
    assert [a, b] == [a] + [b];
  }

  lemma {:induction false} RunAppend(s: State, first: seq<Action>, rest: seq<Action>)
    requires Possible(s, first) && Possible(After(s, first), rest)
    ensures Possible(s, first + rest) && After(s, first + rest) == After(After(s, first), rest)
    decreases |first|
  {
    if first == [] {
      assert first + rest == rest;
    } else {
      RunAppend(Next(s, first[0]), first[1..], rest);
      assert (first + rest)[1..] == first[1..] + rest;
    }
  }

  /** It happens to the first message of the first session when its Publish fails. */
  lemma FailedPublishHappens()
    ensures var run := [TakeSessionChannel, DialSucceeds, HandSession(true), Read, PublishFails];
      && Possible(Initial, run)
      && After(Initial, run).fates == [Lost(0)] && After(Initial, run).sent == [0]
      && After(Initial, run).publisher.Ranging?
  {
    hide Possible, After;
    var s2 := Next(Next(Initial, TakeSessionChannel), DialSucceeds);
    var s4 := Next(Next(s2, HandSession(true)), Read);
    RunBoth(Initial, TakeSessionChannel, DialSucceeds);
    RunBoth(s2, HandSession(true), Read);
    RunAppend(Initial, [TakeSessionChannel, DialSucceeds], [HandSession(true), Read]);
    RunOnce(s4, PublishFails);
    var opening := [TakeSessionChannel, DialSucceeds] + [HandSession(true), Read];
    RunAppend(Initial, opening, [PublishFails]);
    assert opening + [PublishFails] == [TakeSessionChannel, DialSucceeds, HandSession(true), Read, PublishFails];
  }

  lemma RunOnce(s: State, a: Action)
    requires Enabled(s, a) && WindowKnown(s)
    ensures Possible(s, [a]) && After(s, [a]) == Next(s, a)
  {
    RunOneMore(s, a, []);
  }

  /** Exactly when a message is acked or nacked: its confirmation is seen, and says so. */
  lemma ConfirmedExactlyWhen(s: State, a: Action, m: nat)
    requires Inv(s) && Enabled(s, a)
    ensures WindowKnown(s)
    ensures var s' := Next(s, a);
      && ((m < |s'.fates| && s'.fates[m] == Acked && !(m < |s.fates| && s.fates[m] == Acked)) <==>
            a == SeeConfirmation && s.publisher.loop.inFlight == Some(m) && s.publisher.loop.confirm == Some(true))
      && ((m < |s'.fates| && s'.fates[m] == Nacked && !(m < |s.fates| && s.fates[m] == Nacked)) <==>
            a == SeeConfirmation && s.publisher.loop.inFlight == Some(m) && s.publisher.loop.confirm == Some(false))
  {
    hide HandoffOk, LossesOk, SentOk, ConfirmedOk;
    InvKnowsWindow(s);
  }

  /** A confirmation the session can see is the broker's last word about the message in flight. */
  lemma ConfirmationComesFromTheBroker(s: State, a: Action, ack: bool)
    requires Inv(s) && Enabled(s, a)
    ensures WindowKnown(s)
    ensures var s' := Next(s, a);
      s'.publisher.Running? && s'.publisher.loop.confirm == Some(ack) ==>
        a == BrokerConfirms(ack) || (s.publisher.Running? && s.publisher.loop.confirm == Some(ack))
  {
    InvKnowsWindow(s);
  }

  /** An idle session can always take a message, publish it, and report what the broker answered. */
  lemma RoundTrip(s: State, ack: bool)
    requires Inv(s) && s.publisher.Running? && s.publisher.loop.reading && !s.inputClosed
    requires !s.publisher.loop.closed
    ensures var run := [Read, Publish] + [BrokerConfirms(ack), SeeConfirmation];
      && Possible(s, run)
      && After(s, run) == s.(fates := s.fates + [if ack then Acked else Nacked], sent := s.sent + [|s.fates|])
  {
    hide HandoffOk, LossesOk, SentOk, ConfirmedOk, FatesOk, Possible, After;
    InvKnowsWindow(s);
    assert s.publisher.loop.confirm == None;
    var s1 := Next(s, Read);
    var s2 := Next(s1, Publish);
    var s3 := Next(s2, BrokerConfirms(ack));
    RunBoth(s, Read, Publish);
    RunBoth(s2, BrokerConfirms(ack), SeeConfirmation);
    RunAppend(s, [Read, Publish], [BrokerConfirms(ack), SeeConfirmation]);
    assert (s.fates + [Held])[|s.fates| := if ack then Acked else Nacked] == s.fates + [if ack then Acked else Nacked];
  }

  /** A session whose channel the broker drops ends, and the next one can be asked for. */
  lemma DroppedSessionEnds(s: State)
    requires Inv(s) && s.publisher.Running? && !s.publisher.loop.closed && s.publisher.loop.confirm == None
    ensures Possible(s, [BrokerDrops, SeeConfirmClosed])
    ensures After(s, [BrokerDrops, SeeConfirmClosed]).publisher == Ranging
    ensures s.factory == Offering ==>
      Enabled(After(s, [BrokerDrops, SeeConfirmClosed]), TakeSessionChannel)
  {
    InvKnowsWindow(s);
    RunBoth(s, BrokerDrops, SeeConfirmClosed);
  }

  /** A session without publisher confirms ends before it has read anything. */
  lemma UnconfirmedSessionEnds(s: State)
    requires Inv(s) && s.factory.Handing? && s.publisher == Awaiting
    ensures Possible(s, [HandSession(false), SeeConfirmClosed])
    ensures After(s, [HandSession(false), SeeConfirmClosed]).publisher == Ranging
    ensures After(s, [HandSession(false), SeeConfirmClosed]).fates == s.fates
  {
    InvKnowsWindow(s);
    RunBoth(s, HandSession(false), SeeConfirmClosed);
  }

  /** Once the input is closed, an idle session ends the publisher. */
  lemma ClosedInputEnds(s: State)
    requires Inv(s) && s.publisher.Running? && s.publisher.loop.reading
    ensures Possible(s, [CloseInput, SeeInputClosed])
    ensures After(s, [CloseInput, SeeInputClosed]).publisher == Done
    ensures After(s, [CloseInput, SeeInputClosed]).fates == s.fates
  {
    InvKnowsWindow(s);
    RunBoth(s, CloseInput, SeeInputClosed);
  }

  predicate IsLost(s: State, m: nat) {
    m < |s.fates| && s.fates[m].Lost?
  }

  /** Exactly when a message is lost: its Publish fails, or the confirm channel closes on it. */
  lemma LostExactlyWhen(s: State, a: Action, m: nat)
    requires Inv(s) && Enabled(s, a)
    ensures WindowKnown(s)
    ensures !IsLost(s, m) && IsLost(Next(s, a), m) <==>
      || (a.PublishFails? && s.publisher.loop.pending == Some(m))
      || (a.SeeConfirmClosed? && Window(s.publisher.loop) == Some(m))
  {
    hide HandoffOk, LossesOk, SentOk, ConfirmedOk;
    InvKnowsWindow(s);
  }

  /** Before cancellation publisher and factory never wait for each other in vain. */
  lemma HandoffNeverDeadlocks(run: seq<Action>)
    requires Possible(Initial, run)
    ensures var s := After(Initial, run);
      && !(s.publisher.Awaiting? && s.factory.Offering?)
      && (s.publisher.Awaiting? && !s.cancelled ==> s.factory.Dialing? || s.factory.Handing?)
      && s.taken == |s.handed| + (if s.publisher.Awaiting? then 1 else 0)
      && (forall i, j :: 0 <= i < j < |s.handed| ==> s.handed[i] != s.handed[j])
  {
    RunKeepsInv(Initial, run);
  }

  function Repeat(a: Action, n: nat): seq<Action> {
    if n == 0 then [] else [a] + Repeat(a, n - 1)
  }

  lemma {:induction false} DialFailuresChain(s: State, n: nat, rest: seq<Action>)
    requires s.factory.Dialing? && WindowKnown(s)
    ensures var s' := s.(factory := Dialing(s.factory.failures + n));
      && (Possible(s', rest) ==> Possible(s, Repeat(DialFails, n) + rest))
      && (Possible(s', rest) && Possible(s, Repeat(DialFails, n) + rest) ==>
            After(s, Repeat(DialFails, n) + rest) == After(s', rest))
    decreases n
  {
    if n == 0 {
      assert Repeat(DialFails, 0) + rest == rest;
    } else {
      var run := Repeat(DialFails, n) + rest;
      assert run[0] == DialFails && run[1..] == Repeat(DialFails, n - 1) + rest;
      DialFailuresChain(Next(s, DialFails), n - 1, rest);
    }
  }

  /** However many dials fail first, a taken session channel is answered by the next fresh session. */
  lemma TakenIsAnswered(s: State, failures: nat, confirms: bool)
    requires Inv(s) && s.publisher.Awaiting? && s.factory.Dialing?
    ensures var run := Repeat(DialFails, failures) + [DialSucceeds, HandSession(confirms)];
      Possible(s, run) && After(s, run).publisher.Running?
      && After(s, run).handed == s.handed + [s.dialed]
  {
    var rest := [DialSucceeds, HandSession(confirms)];
    var s1 := s.(factory := Dialing(s.factory.failures + failures));
    var s2 := Next(s1, DialSucceeds);
    RunOneMore(s2, HandSession(confirms), []);
    RunOneMore(s1, DialSucceeds, [HandSession(confirms)]);
    assert rest == [DialSucceeds] + [HandSession(confirms)];
    DialFailuresChain(s, failures, rest);
  }

  // ----- cancellation -----

  predicate Stranded(s: State) {
    s.publisher.Awaiting? && s.factory.Stopped?
  }

  /** A publisher that took a session channel before the factory stopped waits forever. */
  lemma {:induction false} StrandedForever(s: State, run: seq<Action>)
    requires Stranded(s) && Possible(s, run)
    ensures Stranded(After(s, run))
    decreases |run|
  {
    if run != [] {
      StrandedForever(Next(s, run[0]), run[1..]);
    }
  }

  /** Stopping the factory strands the publisher exactly when it was parked on its session channel. */
  lemma StoppingStrandsExactlyTheParked(s: State)
    requires Inv(s) && Enabled(s, FactoryStops)
    ensures WindowKnown(s)
    ensures Stranded(Next(s, FactoryStops)) <==> !s.factory.Offering?
    ensures s.publisher.Ranging? ==> Enabled(Next(s, FactoryStops), RangeEnds)
  {
    InvKnowsWindow(s);
  }

  /** When the factory can stop: cancelled, and at one of its selects, of which the redial has one after each failure. */
  lemma FactoryStopsWhen(s: State)
    ensures Enabled(s, FactoryStops) <==>
      && s.cancelled
      && match s.factory
         case Offering => true
         case Dialing(failures) => failures > 0
         case Handing(_) => true
         case Stopped => false
  {
  }

  lemma CancelDuringRedialStrands()
    ensures var run := [TakeSessionChannel, DialFails, Cancel, FactoryStops];
      Possible(Initial, run) && Stranded(After(Initial, run))
  {
    var s1 := Next(Initial, TakeSessionChannel);
    var s2 := Next(s1, DialFails);
    var s3 := Next(s2, Cancel);
    RunOneMore(s3, FactoryStops, []);
    RunOneMore(s2, Cancel, [FactoryStops]);
    RunOneMore(s1, DialFails, [Cancel, FactoryStops]);
    RunOneMore(Initial, TakeSessionChannel, [DialFails, Cancel, FactoryStops]);
    assert [TakeSessionChannel, DialFails, Cancel, FactoryStops]
        == [TakeSessionChannel] + [DialFails, Cancel, FactoryStops];
    assert [DialFails, Cancel, FactoryStops] == [DialFails] + [Cancel, FactoryStops];
    assert [Cancel, FactoryStops] == [Cancel] + [FactoryStops];
  }
}
