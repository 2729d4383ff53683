/**
 * The subscription's documented scenarios, replayed on the model with pollingMaxRevisions = 2.
 * The traces of catch-up tasks and of runs of the live loop are stated on the functions that
 * define them; the lifecycle scenarios (subscribe, unsubscribe, deactivate, activate) drive a
 * fresh subscription object and return what its collaborators and callbacks saw.
 */
module PollingScenarios {
  import opened Wrappers
  import opened PollingModel
  import opened CatchUpModel
  import opened LiveLoopModel
  import opened PollingSubscription

  /** A buffer that holds nothing. */
  function NoBuffer(w: Window): seq<Event> { [] }

  /** A stream of six events, revisions 0 to 5. */
  predicate SixEvents(log: seq<Event>) {
    |log| == 6 && Gapless(log)
  }

  /** A buffer that caches revisions 0-2 for the window [0, 2] and revisions 3-5 for [3, 5]. */
  function WarmBuffer(log: seq<Event>): Window -> seq<Event>
    requires SixEvents(log)
  {
    (w: Window) => if w == Window(0, 2) then log[0..3] else if w == Window(3, 5) then log[3..6] else []
  }

  lemma WarmBufferCaches(log: seq<Event>)
    requires SixEvents(log)
    ensures CachedFrom(WarmBuffer(log), log)
  {
    forall w: Window
      ensures ReadFrom(WarmBuffer(log)(w), w, log)
    {
      if w == Window(0, 2) {
        SliceRead(log, w, 0, 3);
      } else if w == Window(3, 5) {
        SliceRead(log, w, 3, 6);
      }
    }
  }

  /** A run of stored events that lies inside a window is a read of that window. */
  lemma SliceRead(log: seq<Event>, w: Window, a: nat, b: nat)
    requires Gapless(log) && w.min <= a <= b <= |log| && b <= w.max + 1
    ensures ReadFrom(log[a..b], w, log)
  {
  }

  lemma NoBufferCaches(log: seq<Event>)
    ensures CachedFrom(NoBuffer, log)
  {
  }

  /** A catch-up step whose window the buffer answers: one buffer read, then the batch, in order. */
  lemma BufferHitStep(t: Token, cb: Callback, w: Window, size: nat, buffer: Window -> seq<Event>, log: seq<Event>)
    requires Gapless(log) && CachedFrom(buffer, log) && buffer(w) != [] && cb != Undefined
    ensures CatchUpCalls(t, cb, w, size, buffer, log)
         == [BufferRead(w)] + InvokeEach(t, buffer(w), EndingOf(cb))
          + CatchUpCalls(t, cb, NextWindow(Last(buffer(w)).revision, size), size, buffer, log)
  {
    CatchUpUnfold(t, cb, w, size, buffer, log);
    DispatchToOne(t, cb, buffer(w));
  }

  /** A catch-up step the buffer misses and the store answers: both reads, the offer, then the batch. */
  lemma StoreHitStep(t: Token, cb: Callback, w: Window, size: nat, buffer: Window -> seq<Event>, log: seq<Event>)
    requires Gapless(log) && CachedFrom(buffer, log) && buffer(w) == [] && ReadStore(log, w) != [] && cb != Undefined
    ensures var evs := ReadStore(log, w);
      CatchUpCalls(t, cb, w, size, buffer, log)
      == [BufferRead(w), StoreRead(w), Offer(evs)] + InvokeEach(t, evs, EndingOf(cb))
       + CatchUpCalls(t, cb, NextWindow(Last(evs).revision, size), size, buffer, log)
  {
    CatchUpUnfold(t, cb, w, size, buffer, log);
    DispatchToOne(t, cb, ReadStore(log, w));
  }

  /** A catch-up step that misses in the buffer and in the store ends the task. */
  lemma DoubleMissStop(t: Token, cb: Callback, w: Window, size: nat, buffer: Window -> seq<Event>, log: seq<Event>)
    requires Gapless(log) && CachedFrom(buffer, log) && buffer(w) == [] && ReadStore(log, w) == []
    ensures CatchUpCalls(t, cb, w, size, buffer, log) == [BufferRead(w), StoreRead(w)]
  {
    CatchUpUnfold(t, cb, w, size, buffer, log);
  }

  /**
   * Subscribing at revision 0 to a stream of six events whose buffer holds them all: the task
   * reads [0, 2] and [3, 5] from the buffer only, delivers each batch in order, and stops after
   * [6, 8] misses in the buffer and in the store. Nothing is offered back to the buffer.
   */
  lemma CatchUpFromBuffer(t: Token, log: seq<Event>)
    requires SixEvents(log)
    ensures CachedFrom(WarmBuffer(log), log)
    ensures FirstWindow(0, LastRevision(log), 2) == Window(0, 2)
    ensures CatchUpCalls(t, Acks, Window(0, 2), 2, WarmBuffer(log), log)
         == [BufferRead(Window(0, 2))] + InvokeEach(t, log[0..3], Acked)
          + [BufferRead(Window(3, 5))] + InvokeEach(t, log[3..6], Acked)
          + [BufferRead(Window(6, 8)), StoreRead(Window(6, 8))]
  {
    var buffer := WarmBuffer(log);
    WarmBufferCaches(log);
    assert buffer(Window(0, 2)) == log[0..3] && Last(log[0..3]).revision == 2;
    assert buffer(Window(3, 5)) == log[3..6] && Last(log[3..6]).revision == 5;
    assert buffer(Window(6, 8)) == [] && ReadStore(log, Window(6, 8)) == [];
    var last := CatchUpCalls(t, Acks, Window(6, 8), 2, buffer, log);
    var second := CatchUpCalls(t, Acks, Window(3, 5), 2, buffer, log);
    DoubleMissStop(t, Acks, Window(6, 8), 2, buffer, log);
    BufferHitStep(t, Acks, Window(3, 5), 2, buffer, log);
    BufferHitStep(t, Acks, Window(0, 2), 2, buffer, log);
    assert second == [BufferRead(Window(3, 5))] + InvokeEach(t, log[3..6], Acked) + last;
  }

  /**
   * The same subscription with an empty buffer: every window is read from the store after the
   * buffer missed it, and what the store returns is offered to the buffer before delivery.
   */
  lemma CatchUpFromStore(t: Token, log: seq<Event>)
    requires SixEvents(log)
    ensures CachedFrom(NoBuffer, log)
    ensures CatchUpCalls(t, Acks, Window(0, 2), 2, NoBuffer, log)
         == [BufferRead(Window(0, 2)), StoreRead(Window(0, 2)), Offer(log[0..3])] + InvokeEach(t, log[0..3], Acked)
          + [BufferRead(Window(3, 5)), StoreRead(Window(3, 5)), Offer(log[3..6])] + InvokeEach(t, log[3..6], Acked)
          + [BufferRead(Window(6, 8)), StoreRead(Window(6, 8))]
  {
    NoBufferCaches(log);
    assert ReadStore(log, Window(0, 2)) == log[0..3] && Last(log[0..3]).revision == 2;
    assert ReadStore(log, Window(3, 5)) == log[3..6] && Last(log[3..6]).revision == 5;
    assert ReadStore(log, Window(6, 8)) == [];
    var last := CatchUpCalls(t, Acks, Window(6, 8), 2, NoBuffer, log);
    var second := CatchUpCalls(t, Acks, Window(3, 5), 2, NoBuffer, log);
    DoubleMissStop(t, Acks, Window(6, 8), 2, NoBuffer, log);
    StoreHitStep(t, Acks, Window(3, 5), 2, NoBuffer, log);
    StoreHitStep(t, Acks, Window(0, 2), 2, NoBuffer, log);
    assert second == [BufferRead(Window(3, 5)), StoreRead(Window(3, 5)), Offer(log[3..6])] + InvokeEach(t, log[3..6], Acked) + last;
  }

  /** An empty stream: the task reads [0, 2] from the buffer, then from the store, and invokes nothing. */
  lemma CatchUpOnEmptyStream(t: Token, cb: Callback, revision: nat)
    ensures CachedFrom(NoBuffer, [])
    ensures FirstWindow(revision, LastRevision([]), 2) == Window(0, 2)
    ensures CatchUpCalls(t, cb, Window(0, 2), 2, NoBuffer, []) == [BufferRead(Window(0, 2)), StoreRead(Window(0, 2))]
  {
    NoBufferCaches([]);
    DoubleMissStop(t, cb, Window(0, 2), 2, NoBuffer, []);
  }

  /** Five ticks while the stream stays empty: five store reads of [0, 2], nothing else. */
  lemma LivePollsEmptyStream(t: Token)
    ensures Grows(Repeat([], 5))
    ensures LiveCalls([t], map[t := Acks], Window(0, 2), 2, Repeat([], 5)) == seq(5, _ => StoreRead(Window(0, 2)))
  {
    LiveIdlePolls([t], map[t := Acks], Window(0, 2), 2, [], 5);
  }

  /** The first tick of a run, then the rest of the run from the window it leaves. */
  lemma LiveUnfold(members: seq<Token>, callbacks: map<Token, Callback>, cursor: Window, size: nat, logs: seq<seq<Event>>)
    requires Grows(logs) && logs != []
    ensures Grows(logs[1..])
    ensures LiveCalls(members, callbacks, cursor, size, logs)
         == TickCalls(members, callbacks, cursor, logs[0])
          + LiveCalls(members, callbacks, TickCursor(cursor, size, logs[0]), size, logs[1..])
    ensures LiveCursor(cursor, size, logs) == LiveCursor(TickCursor(cursor, size, logs[0]), size, logs[1..])
  {
    GrowsTail(logs);
  }

  /** One event dispatched to a group: one round, each member in turn. */
  lemma DispatchOneEvent(members: seq<Token>, callbacks: map<Token, Callback>, evs: seq<Event>, e: Event)
    requires evs == [e]
    ensures DispatchCalls(members, callbacks, evs) == EventRound(members, callbacks, e)
  {
    assert evs[..0] == [];
  }

  /** A tick whose read returns the single event `e`. */
  lemma TickOnSingleHit(members: seq<Token>, callbacks: map<Token, Callback>, cursor: Window, log: seq<Event>, e: Event)
    requires Gapless(log) && ReadStore(log, cursor) == [e]
    ensures TickCalls(members, callbacks, cursor, log) == [StoreRead(cursor), Offer([e])] + EventRound(members, callbacks, e)
    ensures TickCursor(cursor, 2, log) == Window(e.revision + 1, e.revision + 3)
  {
    DispatchOneEvent(members, callbacks, ReadStore(log, cursor), e);
  }

  /** A round for a group of two, the first of whom acknowledges. */
  lemma RoundOfTwo(t1: Token, t2: Token, other: Callback, e: Event)
    requires t1 != t2
    ensures EventRound([t1, t2], map[t1 := Acks, t2 := other], e)
         == [Invoke(t1, e, Acked)] + if other == Undefined then [] else [Invoke(t2, e, EndingOf(other))]
  {
    var group := map[t1 := Acks, t2 := other];
    assert [t1, t2][..1] == [t1] && [t1][..0] == [];
    assert EventRound([t1], group, e) == InvokeOne(t1, group, e);
    assert EventRound([t1, t2], group, e) == EventRound([t1], group, e) + InvokeOne(t2, group, e);
  }

  /** The first of two subscribers leaving leaves the second alone in the group. */
  lemma FirstOfTwoLeaves(t1: Token, t2: Token)
    requires t1 != t2
    ensures Without([t1, t2], t1) == [t2]
    ensures map[t1 := Acks, t2 := Acks] - {t1} == map[t2 := Acks]
  {
    assert [t1, t2][..1] == [t1] && [t1][..0] == [];
    assert Without([t1], t1) == [];
  }

  /** The store of the live scenarios as it grows: revision 0 is stored, then revision 1. */
  lemma StoreGrows(e0: Event, e1: Event)
    requires e0.revision == 0 && e1.revision == 1
    ensures Grows([[e0], [e0, e1], [e0, e1]]) && Grows([[e0, e1], [e0, e1]]) && Grows([[e0], [e0, e1]])
    ensures ReadStore([e0], Window(0, 2)) == [e0]
    ensures ReadStore([e0, e1], Window(1, 3)) == [e1]
    ensures ReadStore([e0, e1], Window(2, 4)) == []
  {
    assert [e0, e1][1..2] == [e1];
  }

  /** A run of one tick. */
  lemma OneTick(members: seq<Token>, callbacks: map<Token, Callback>, cursor: Window, size: nat, log: seq<Event>)
    requires Gapless(log)
    ensures Grows([log])
    ensures LiveCalls(members, callbacks, cursor, size, [log]) == TickCalls(members, callbacks, cursor, log)
  {
    assert [log][1..] == [];
  }

  /** Two ticks against the same store, or one tick and then another against a longer store. */
  lemma TwoTicks(members: seq<Token>, callbacks: map<Token, Callback>, cursor: Window, size: nat, log: seq<Event>, later: seq<Event>)
    requires Gapless(log) && Gapless(later) && log <= later
    ensures Grows([log, later])
    ensures LiveCalls(members, callbacks, cursor, size, [log, later])
         == TickCalls(members, callbacks, cursor, log) + TickCalls(members, callbacks, TickCursor(cursor, size, log), later)
  {
    assert [log, later][1..] == [later];
    OneTick(members, callbacks, TickCursor(cursor, size, log), size, later);
  }

  /**
   * The live loop of a lone subscriber as the stream grows: the tick that finds revision 0
   * offers and delivers it and moves to [1, 3]; the next finds revision 1 and moves to [2, 4];
   * the last finds nothing and stays.
   */
  lemma LivePollsGrowingStream(t: Token, e0: Event, e1: Event)
    requires e0.revision == 0 && e1.revision == 1
    ensures Grows([[e0], [e0, e1], [e0, e1]])
    ensures LiveCalls([t], map[t := Acks], Window(0, 2), 2, [[e0], [e0, e1], [e0, e1]])
         == [StoreRead(Window(0, 2)), Offer([e0]), Invoke(t, e0, Acked),
             StoreRead(Window(1, 3)), Offer([e1]), Invoke(t, e1, Acked),
             StoreRead(Window(2, 4))]
  {
    var one := map[t := Acks];
    var l0, l1 := [e0], [e0, e1];
    StoreGrows(e0, e1);
    TickOnSingleHit([t], one, Window(0, 2), l0, e0);
    RoundOfOne(t, Acks, e0);
    GrowingStreamLastTicks(t, e0, e1);
    LiveUnfold([t], one, Window(0, 2), 2, [l0, l1, l1]);
    assert [l0, l1, l1][1..] == [l1, l1];
  }

  /** The last two ticks of the scenario above: revision 1 is found and delivered, then nothing. */
  lemma GrowingStreamLastTicks(t: Token, e0: Event, e1: Event)
    requires e0.revision == 0 && e1.revision == 1
    ensures Grows([[e0, e1], [e0, e1]])
    ensures LiveCalls([t], map[t := Acks], Window(1, 3), 2, [[e0, e1], [e0, e1]])
         == [StoreRead(Window(1, 3)), Offer([e1]), Invoke(t, e1, Acked), StoreRead(Window(2, 4))]
  {
    var one := map[t := Acks];
    StoreGrows(e0, e1);
    TickOnSingleHit([t], one, Window(1, 3), [e0, e1], e1);
    RoundOfOne(t, Acks, e1);
    TwoTicks([t], one, Window(1, 3), 2, [e0, e1], [e0, e1]);
  }

  /**
   * Two subscribers, the second of whose callbacks fails, never calls done or is undefined:
   * each new event is still offered and handed to the first subscriber, and the loop moves on.
   */
  lemma BroadcastDespiteSecondCallback(t1: Token, t2: Token, other: Callback, e0: Event, e1: Event)
    requires t1 != t2 && e0.revision == 0 && e1.revision == 1
    ensures Grows([[e0], [e0, e1]])
    ensures var second := (e: Event) => if other == Undefined then [] else [Invoke(t2, e, EndingOf(other))];
      LiveCalls([t1, t2], map[t1 := Acks, t2 := other], Window(0, 2), 2, [[e0], [e0, e1]])
      == [StoreRead(Window(0, 2)), Offer([e0]), Invoke(t1, e0, Acked)] + second(e0)
       + [StoreRead(Window(1, 3)), Offer([e1]), Invoke(t1, e1, Acked)] + second(e1)
  {
    var group := map[t1 := Acks, t2 := other];
    var second0 := if other == Undefined then [] else [Invoke(t2, e0, EndingOf(other))];
    var second1 := if other == Undefined then [] else [Invoke(t2, e1, EndingOf(other))];
    StoreGrows(e0, e1);
    TickOnSingleHit([t1, t2], group, Window(0, 2), [e0], e0);
    TickOnSingleHit([t1, t2], group, Window(1, 3), [e0, e1], e1);
    RoundOfTwo(t1, t2, other, e0);
    RoundOfTwo(t1, t2, other, e1);
    assert TickCalls([t1, t2], group, Window(0, 2), [e0]) == [StoreRead(Window(0, 2)), Offer([e0]), Invoke(t1, e0, Acked)] + second0;
    assert TickCalls([t1, t2], group, Window(1, 3), [e0, e1]) == [StoreRead(Window(1, 3)), Offer([e1]), Invoke(t1, e1, Acked)] + second1;
    TwoTicks([t1, t2], group, Window(0, 2), 2, [e0], [e0, e1]);
  }

  // ---------------------------------------------------------------------------------------
  // Lifecycle scenarios on the subscription object
  // ---------------------------------------------------------------------------------------

  /** Subscribing returns the token at once and calls nothing; the loop starts at [0, 2] on an empty stream. */
  method SubscribeToEmptyStream(t: Token) returns (r: Token, trace: seq<Call>, running: bool, cursor: Window)
    ensures r == t && trace == [] && running && cursor == Window(0, 2)
  {
    var s := new Subscription(2);
    r := s.Subscribe(t, 0, Acks, []);
    trace, running, cursor := s.calls, s.running, s.cursor;
  }

  /** Two tokens subscribed, in order, at revision 0 of an empty stream. */
  method GroupOfTwo(t1: Token, t2: Token) returns (s: Subscription)
    requires t1 != t2
    ensures fresh(s) && s.Valid() && s.windowSize == 2
    ensures s.members == [t1, t2] && s.callbacks == map[t1 := Acks, t2 := Acks]
    ensures s.running && s.cursor == Window(0, 2) && s.calls == []
  {
    s := new Subscription(2);
    var _ := s.Subscribe(t1, 0, Acks, []);
    var _ := s.Subscribe(t2, 0, Acks, []);
  }

  /** A lone subscriber's loop ticks once on an empty stream; then a second token joins. */
  method JoinAfterEmptyTick(t1: Token, t2: Token, log: seq<Event>) returns (s: Subscription)
    requires t1 != t2 && Gapless(log)
    ensures fresh(s) && s.Valid() && s.windowSize == 2
    ensures s.members == [t1, t2] && s.callbacks == map[t1 := Acks, t2 := Acks]
    ensures s.running && s.cursor == Window(0, 2) && s.calls == [StoreRead(Window(0, 2))]
  {
    s := new Subscription(2);
    var _ := s.Subscribe(t1, 0, Acks, []);
    assert ReadStore([], Window(0, 2)) == [];
    s.Tick([]);
    var _ := s.Subscribe(t2, 0, Acks, log);
  }

  /**
   * A subscriber joining while the loop runs keeps the loop's window: after a tick that found
   * nothing, the second token joins, and the events stored since reach both tokens in order.
   */
  method LateSubscriber(t1: Token, t2: Token, e0: Event, e1: Event) returns (trace: seq<Call>, cursor: Window)
    requires t1 != t2 && e0.revision == 0 && e1.revision == 1
    ensures trace == [StoreRead(Window(0, 2)),
                      StoreRead(Window(0, 2)), Offer([e0]), Invoke(t1, e0, Acked), Invoke(t2, e0, Acked),
                      StoreRead(Window(1, 3)), Offer([e1]), Invoke(t1, e1, Acked), Invoke(t2, e1, Acked)]
    ensures cursor == Window(2, 4)
  {
    StoreGrows(e0, e1);
    var s := JoinAfterEmptyTick(t1, t2, [e0]);
    var group := map[t1 := Acks, t2 := Acks];
    TickOnSingleHit([t1, t2], group, Window(0, 2), [e0], e0);
    RoundOfTwo(t1, t2, Acks, e0);
    s.Tick([e0]);
    assert s.calls == [StoreRead(Window(0, 2)), StoreRead(Window(0, 2)), Offer([e0]), Invoke(t1, e0, Acked), Invoke(t2, e0, Acked)];
    assert s.cursor == Window(1, 3);
    TickOnSingleHit([t1, t2], group, Window(1, 3), [e0, e1], e1);
    RoundOfTwo(t1, t2, Acks, e1);
    s.Tick([e0, e1]);
    trace, cursor := s.calls, s.cursor;
  }

  /**
   * A loop started again after every subscriber left starts from the revision the first
   * subscribe asked for, not from the one the subscribe that restarts it asks for.
   */
  method RestartFromFirstRequest(t1: Token, t2: Token, log: seq<Event>) returns (cursor: Window)
    requires t1 != t2 && SixEvents(log)
    ensures cursor == Window(0, 2)
  {
    var s := new Subscription(2);
    var _ := s.Subscribe(t1, 0, Acks, log);
    s.Unsubscribe(t1);
    assert !s.running && s.firstRequested == Some(0);
    var _ := s.Subscribe(t2, 4, Acks, log);
    cursor := s.cursor;
  }

  /** A catch-up task begins by reading the last stored event, before any window. */
  method CatchUpReadsLastEventFirst(t: Token) returns (trace: seq<Call>)
    ensures trace == [LastEventRead, BufferRead(Window(0, 2)), StoreRead(Window(0, 2))]
  {
    var s := new Subscription(2);
    var _ := s.Subscribe(t, 0, Acks, []);
    NoBufferCaches([]);
    DoubleMissStop(t, Acks, Window(0, 2), 2, NoBuffer, []);
    s.CatchUp(t, 0, NoBuffer, []);
    trace := s.calls;
  }

  /** After one of two subscribers leaves, the next event reaches only the one that stayed. */
  method UnsubscribeOne(t1: Token, t2: Token, e0: Event) returns (trace: seq<Call>, running: bool)
    requires t1 != t2 && e0.revision == 0
    ensures running
    ensures trace == [StoreRead(Window(0, 2)), Offer([e0]), Invoke(t2, e0, Acked)]
  {
    var s := GroupOfTwo(t1, t2);
    FirstOfTwoLeaves(t1, t2);
    s.Unsubscribe(t1);
    assert s.members == [t2] && s.callbacks == map[t2 := Acks];
    assert s.running && s.cursor == Window(0, 2) && s.calls == [];
    assert ReadStore([e0], Window(0, 2)) == [e0];
    TickOnSingleHit([t2], map[t2 := Acks], Window(0, 2), [e0], e0);
    RoundOfOne(t2, Acks, e0);
    s.Tick([e0]);
    assert s.calls == TickCalls([t2], map[t2 := Acks], Window(0, 2), [e0]);
    trace, running := s.calls, s.running;
  }

  /** Once the last subscriber leaves the loop stops: a later tick reads nothing and invokes nothing. */
  method UnsubscribeAll(t: Token, e0: Event) returns (trace: seq<Call>, running: bool)
    requires e0.revision == 0
    ensures !running && trace == []
  {
    var s := new Subscription(2);
    var _ := s.Subscribe(t, 0, Acks, []);
    s.Unsubscribe(t);
    s.Tick([e0]);
    trace, running := s.calls, s.running;
  }

  /** A deactivated subscription keeps its group but polls no more. */
  method DeactivateStops(t1: Token, t2: Token, e0: Event) returns (trace: seq<Call>, members: seq<Token>)
    requires t1 != t2 && e0.revision == 0
    ensures trace == [] && members == [t1, t2]
  {
    var s := GroupOfTwo(t1, t2);
    s.Deactivate();
    s.Tick([e0]);
    trace, members := s.calls, s.members;
  }

  /** Activating again resumes polling from the window the loop stood at, and delivery with it. */
  method ActivateResumes(t: Token, e0: Event) returns (trace: seq<Call>)
    requires e0.revision == 0
    ensures trace == [StoreRead(Window(0, 2)), Offer([e0]), Invoke(t, e0, Acked)]
  {
    var s := new Subscription(2);
    var _ := s.Subscribe(t, 0, Acks, []);
    assert s.members == [t] && s.callbacks == map[t := Acks] && s.cursor == Window(0, 2) && s.calls == [];
    s.Deactivate();
    s.Tick([e0]);
    assert s.calls == [] && s.cursor == Window(0, 2);
    s.Activate();
    assert s.running;
    assert ReadStore([e0], Window(0, 2)) == [e0];
    TickOnSingleHit([t], map[t := Acks], Window(0, 2), [e0], e0);
    RoundOfOne(t, Acks, e0);
    s.Tick([e0]);
    assert s.calls == TickCalls([t], map[t := Acks], Window(0, 2), [e0]);
    trace := s.calls;
  }

  /** Activating a subscription nobody ever subscribed to starts nothing. */
  method ActivateNeverStarted(e0: Event) returns (running: bool, trace: seq<Call>)
    requires e0.revision == 0
    ensures !running && trace == []
  {
    var s := new Subscription(2);
    s.Activate();
    s.Tick([e0]);
    running, trace := s.running, s.calls;
  }

  /** Activating after every subscriber left starts nothing either. */
  method ActivateWithoutSubscribers(t: Token) returns (running: bool)
    ensures !running
  {
    var s := new Subscription(2);
    var _ := s.Subscribe(t, 0, Acks, []);
    s.Unsubscribe(t);
    s.Activate();
    running := s.running;
  }
}
