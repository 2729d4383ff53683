/**
 * The event polling subscription, as pure values and functions: revision windows and
 * their reconciliation against the store, the calls a catch-up task and a live poll tick
 * make on the stream buffer, the event store and the subscribers' callbacks, and the
 * properties those call sequences have.
 *
 * Every interaction with a collaborator is recorded as a `Call`, in the order it happens,
 * the way the jasmine spies on `getEventsInBufferAsStream`, `getEventStream`, `offerEvents`
 * and `onEventCallback` record them.
 */
module PollingModel {
  import opened Wrappers

  type Token = string

  /** An event of the subscribed stream; `revision` is its `streamRevision`. */
  datatype Event = Event(revision: nat, payload: string)

  /** A revision window; both bounds are inclusive (the window [0, 2] holds revisions 0, 1 and 2). */
  datatype Window = Window(min: nat, max: nat)

  /** What a registered `onEvent(error, event, done)` callback does when it is invoked. */
  datatype Callback =
    | Acks            // calls done()
    | FailsWithError  // calls done(error)
    | NeverCallsDone  // never calls done: dispatch gives up after eventCallbackTimeout
    | Undefined       // subscribed with an undefined callback: there is nothing to invoke

  /** How dispatch stopped waiting for one invocation. */
  datatype Ending = Acked | Errored | TimedOut

  datatype Call =
    | LastEventRead                                        // es.getLastEvent(query, cb)
    | BufferRead(window: Window)                           // streamBuffer.getEventsInBufferAsStream(min, max)
    | StoreRead(window: Window)                            // es.getEventStream(query, min, max, cb)
    | Offer(events: seq<Event>)                            // streamBuffer.offerEvents(events)
    | Invoke(token: Token, event: Event, ending: Ending)   // onEvent(null, event, done)

  function Min(a: int, b: int): int { if a <= b then a else b }

  function Last<T>(s: seq<T>): T
    requires s != []
  {
    s[|s| - 1]
  }

  /** A non-empty sequence is its prefix followed by its last element. */
  lemma SnocLast<T>(s: seq<T>)
    requires s != []
    ensures s[..|s| - 1] + [Last(s)] == s
  {
  }

  predicate Distinct(s: seq<Token>) {
    forall i, j :: 0 <= i < j < |s| ==> s[i] != s[j]
  }

  // ---------------------------------------------------------------------------------------
  // The event store: an append-only log whose revisions are the positions 0, 1, 2, ...
  // ---------------------------------------------------------------------------------------

  predicate Gapless(log: seq<Event>) {
    forall i :: 0 <= i < |log| ==> log[i].revision == i
  }

  /** es.getLastEvent(query): the revision of the last stored event, or none for an empty stream. */
  function LastRevision(log: seq<Event>): (r: Option<nat>)
    requires Gapless(log)
    ensures r.None? <==> log == []
    ensures r.Some? ==> r.value < |log| && log[r.value] == Last(log)
  {
    if log == [] then None else Some(|log| - 1)
  }

  /** True when `evs` holds, in ascending order of revision, stored events that lie in `w`. */
  predicate ReadFrom(evs: seq<Event>, w: Window, log: seq<Event>) {
    && (forall i :: 0 <= i < |evs| ==>
          w.min <= evs[i].revision <= w.max && evs[i].revision < |log| && log[evs[i].revision] == evs[i])
    && (forall i, j :: 0 <= i < j < |evs| ==> evs[i].revision < evs[j].revision)
  }

  /** es.getEventStream(query, w.min, w.max): every stored event whose revision lies in `w`, ascending. */
  function ReadStore(log: seq<Event>, w: Window): seq<Event>
    requires Gapless(log)
  {
    if w.min >= |log| || w.max < w.min then [] else log[w.min .. Min(w.max + 1, |log|)]
  }

  /** A store read returns, ascending, stored events that lie in the window asked for. */
  lemma ReadStoreSound(log: seq<Event>, w: Window)
    requires Gapless(log)
    ensures ReadFrom(ReadStore(log, w), w, log)
  {
    var evs := ReadStore(log, w);
    if evs != [] {
      forall i | 0 <= i < |evs|
        ensures w.min <= evs[i].revision <= w.max && evs[i].revision < |log| && log[evs[i].revision] == evs[i]
      {
        assert evs[i] == log[w.min + i];
      }
    }
  }

  /** A store read misses no stored event of its window: it returns the whole run from w.min on. */
  lemma ReadStoreComplete(log: seq<Event>, w: Window)
    requires Gapless(log)
    ensures forall r: nat :: w.min <= r <= w.max && r < |log| ==> log[r] == ReadStore(log, w)[r - w.min]
  {
  }

  lemma SplitTail(log: seq<Event>, a: nat, b: nat)
    requires a <= b <= |log|
    ensures log[a..] == log[a..b] + log[b..]
  {
  }

  lemma SplitSlice(log: seq<Event>, a: nat, b: nat, c: nat)
    requires a <= b <= c <= |log|
    ensures log[a..c] == log[a..b] + log[b..c]
  {
  }

  /** A slice of a log is the same slice of any longer log that extends it. */
  lemma SliceOfPrefix(log: seq<Event>, longer: seq<Event>, a: nat, b: nat)
    requires log <= longer && a <= b <= |log|
    ensures log[a..b] == longer[a..b]
  {
  }

  // ---------------------------------------------------------------------------------------
  // The stream buffer: a cache in front of the store
  // ---------------------------------------------------------------------------------------

  /** Every buffer read returns, ascending, events of the store that lie in the window asked for. */
  ghost predicate CachedFrom(buffer: Window -> seq<Event>, log: seq<Event>) {
    forall w: Window :: ReadFrom(buffer(w), w, log)
  }

  /**
   * A buffer that, besides being a cache of the store, answers each window either with nothing
   * or with a run of consecutive revisions that starts at the window's lower bound.
   */
  ghost predicate ServesPrefixes(buffer: Window -> seq<Event>, log: seq<Event>) {
    && CachedFrom(buffer, log)
    && forall w: Window :: buffer(w) != [] ==> w.min + |buffer(w)| <= |log| && buffer(w) == log[w.min .. w.min + |buffer(w)|]
  }

  // ---------------------------------------------------------------------------------------
  // Revision windows
  // ---------------------------------------------------------------------------------------

  /**
   * The first window of a catch-up task or of the live loop, from the requested revision and
   * the store's last event: start at 0 when the stream is empty; otherwise start at the
   * requested revision, clamped down to last + 1 when it lies beyond.
   */
  function FirstWindow(requested: nat, last: Option<nat>, size: nat): (w: Window)
    ensures w.max == w.min + size
    ensures last.None? ==> w.min == 0
    ensures last.Some? ==> w.min <= requested && w.min <= last.value + 1
    ensures last.Some? ==> w.min == requested || w.min == last.value + 1
  {
    match last
    case None => Window(0, size)
    case Some(l) =>
      var start := if requested > l + 1 then l + 1 else requested;
      Window(start, start + size)
  }

  /** The window read after `lastDelivered` has been delivered: [lastDelivered + 1, lastDelivered + 1 + size]. */
  function NextWindow(lastDelivered: nat, size: nat): Window {
    Window(lastDelivered + 1, lastDelivered + 1 + size)
  }

  /** Reconciled against the store, the first window never starts past the end of the log. */
  lemma FirstWindowWithinLog(requested: nat, log: seq<Event>, size: nat)
    requires Gapless(log)
    ensures FirstWindow(requested, LastRevision(log), size).min <= |log|
  {
  }

  /**
   * The five cases the subscribe tests pin down, with pollingMaxRevisions = 2: the last event
   * at revision 5 in the first four, no event stored in the fifth.
   */
  lemma FirstWindowExamples()
    ensures FirstWindow(5, Some(5), 2) == Window(5, 7)
    ensures FirstWindow(10, Some(5), 2) == Window(6, 8)
    ensures FirstWindow(3, Some(5), 2) == Window(3, 5)
    ensures FirstWindow(6, Some(5), 2) == Window(6, 8)
    ensures FirstWindow(5, None, 2) == Window(0, 2)
  {
  }

  // ---------------------------------------------------------------------------------------
  // Dispatch: invoking the registered callbacks
  // ---------------------------------------------------------------------------------------

  function EndingOf(cb: Callback): Ending
    requires cb != Undefined
  {
    match cb
    case Acks => Acked
    case FailsWithError => Errored
    case NeverCallsDone => TimedOut
  }

  /** True when dispatch has a callback to invoke for `t`. */
  predicate Receives(t: Token, callbacks: map<Token, Callback>) {
    t in callbacks && callbacks[t] != Undefined
  }

  /** The invocation, if any, of `t`'s callback with `e`. */
  function InvokeOne(t: Token, callbacks: map<Token, Callback>, e: Event): seq<Call> {
    if Receives(t, callbacks) then [Invoke(t, e, EndingOf(callbacks[t]))] else []
  }

  /** One event handed to every member in turn; what a callback does never stops the next one. */
  function EventRound(members: seq<Token>, callbacks: map<Token, Callback>, e: Event): seq<Call>
    decreases |members|
  {
    if members == [] then []
    else EventRound(members[..|members| - 1], callbacks, e) + InvokeOne(Last(members), callbacks, e)
  }

  /** Events dispatched one at a time: every member sees event N before any member sees event N + 1. */
  function DispatchCalls(members: seq<Token>, callbacks: map<Token, Callback>, evs: seq<Event>): seq<Call>
    decreases |evs|
  {
    if evs == [] then []
    else DispatchCalls(members, callbacks, evs[..|evs| - 1]) + EventRound(members, callbacks, Last(evs))
  }

  /** The events, in order, that `t`'s callback was invoked with in `calls`. */
  function DeliveredTo(calls: seq<Call>, t: Token): seq<Event>
    decreases |calls|
  {
    if calls == [] then []
    else
      var c := Last(calls);
      DeliveredTo(calls[..|calls| - 1], t) + (if c.Invoke? && c.token == t then [c.event] else [])
  }

  /** True when no call in `calls` touches the buffer or the store. */
  predicate OnlyInvocations(calls: seq<Call>) {
    forall i :: 0 <= i < |calls| ==> calls[i].Invoke?
  }

  lemma {:induction false} DeliveredToConcat(a: seq<Call>, b: seq<Call>, t: Token)
    ensures DeliveredTo(a + b, t) == DeliveredTo(a, t) + DeliveredTo(b, t)
    decreases |b|
  {
    if b == [] {
      assert a + b == a;
    } else {
      assert (a + b)[..|a + b| - 1] == a + b[..|b| - 1];
      DeliveredToConcat(a, b[..|b| - 1], t);
    }
  }

  lemma {:induction false} DeliveredToNoInvocation(calls: seq<Call>, t: Token)
    requires forall i :: 0 <= i < |calls| ==> !calls[i].Invoke?
    ensures DeliveredTo(calls, t) == []
    decreases |calls|
  {
    if calls != [] {
      DeliveredToNoInvocation(calls[..|calls| - 1], t);
    }
  }

  lemma DeliveredAfterSkip(prefix: seq<Call>, d: seq<Call>, t: Token)
    requires forall i :: 0 <= i < |prefix| ==> !prefix[i].Invoke?
    ensures DeliveredTo(prefix + d, t) == DeliveredTo(d, t)
  {
    DeliveredToNoInvocation(prefix, t);
    DeliveredToConcat(prefix, d, t);
  }

  lemma DeliveredAfterFetch(prefix: seq<Call>, d: seq<Call>, rest: seq<Call>, t: Token)
    requires forall i :: 0 <= i < |prefix| ==> !prefix[i].Invoke?
    ensures DeliveredTo(prefix + d + rest, t) == DeliveredTo(d, t) + DeliveredTo(rest, t)
  {
    var pd := prefix + d;
    DeliveredToNoInvocation(prefix, t);
    DeliveredToConcat(prefix, d, t);
    assert DeliveredTo(pd, t) == DeliveredTo(d, t);
    DeliveredToConcat(pd, rest, t);
  }

  lemma {:induction false} EventRoundDelivery(members: seq<Token>, callbacks: map<Token, Callback>, e: Event, t: Token)
    requires Distinct(members)
    ensures DeliveredTo(EventRound(members, callbacks, e), t)
         == if t in members && Receives(t, callbacks) then [e] else []
    decreases |members|
  {
    if members != [] {
      var init := members[..|members| - 1];
      var x := Last(members);
      var before := EventRound(init, callbacks, e);
      var one := InvokeOne(x, callbacks, e);
      assert EventRound(members, callbacks, e) == before + one;
      DistinctSnoc(members, t);
      EventRoundDelivery(init, callbacks, e, t);
      InvokeOneFacts(x, callbacks, e, t);
      DeliveredToConcat(before, one, t);
    }
  }

  /** A round only invokes callbacks. */
  lemma {:induction false} EventRoundOnlyInvokes(members: seq<Token>, callbacks: map<Token, Callback>, e: Event)
    ensures OnlyInvocations(EventRound(members, callbacks, e))
    decreases |members|
  {
    if members != [] {
      var init := members[..|members| - 1];
      EventRoundOnlyInvokes(init, callbacks, e);
      InvokeOneFacts(Last(members), callbacks, e, "");
      OnlyInvocationsConcat(EventRound(init, callbacks, e), InvokeOne(Last(members), callbacks, e));
    }
  }

  /** Dropping the last token keeps a group distinct, and that token was not among the others. */
  lemma DistinctSnoc(s: seq<Token>, t: Token)
    requires Distinct(s) && s != []
    ensures Distinct(s[..|s| - 1]) && Last(s) !in s[..|s| - 1]
    ensures t in s <==> t in s[..|s| - 1] || t == Last(s)
  {
    assert s == s[..|s| - 1] + [Last(s)];
  }

  /** The invocation for one token reaches only that token, and only when it has a callback. */
  lemma InvokeOneFacts(x: Token, callbacks: map<Token, Callback>, e: Event, t: Token)
    ensures DeliveredTo(InvokeOne(x, callbacks, e), t) == if x == t && Receives(x, callbacks) then [e] else []
    ensures OnlyInvocations(InvokeOne(x, callbacks, e))
  {
    var one := InvokeOne(x, callbacks, e);
    if one != [] {
      assert one[..0] == [];
    }
  }

  lemma OnlyInvocationsConcat(a: seq<Call>, b: seq<Call>)
    requires OnlyInvocations(a) && OnlyInvocations(b)
    ensures OnlyInvocations(a + b)
  {
    assert forall i :: |a| <= i < |a + b| ==> (a + b)[i] == b[i - |a|];
  }

  /** Dispatch reads neither buffer nor store: it only invokes callbacks. */
  lemma {:induction false} DispatchOnlyInvokes(members: seq<Token>, callbacks: map<Token, Callback>, evs: seq<Event>)
    ensures OnlyInvocations(DispatchCalls(members, callbacks, evs))
    decreases |evs|
  {
    if evs != [] {
      var init := evs[..|evs| - 1];
      DispatchOnlyInvokes(members, callbacks, init);
      EventRoundOnlyInvokes(members, callbacks, Last(evs));
      OnlyInvocationsConcat(DispatchCalls(members, callbacks, init), EventRound(members, callbacks, Last(evs)));
    }
  }

  /**
   * Broadcast: a member with a callback receives every event exactly once and in order,
   * whatever the other members' callbacks do (acknowledge, fail, time out or be undefined);
   * a token that is not a member receives nothing. Dispatch reads neither buffer nor store.
   */
  lemma {:induction false} DispatchDelivery(members: seq<Token>, callbacks: map<Token, Callback>, evs: seq<Event>, t: Token)
    requires Distinct(members)
    ensures DeliveredTo(DispatchCalls(members, callbacks, evs), t)
         == if t in members && Receives(t, callbacks) then evs else []
    decreases |evs|
  {
    if evs != [] {
      DispatchDelivery(members, callbacks, evs[..|evs| - 1], t);
      DispatchStep(members, callbacks, evs, t);
    }
  }

  /** One more event dispatched after the others: its round follows theirs. */
  lemma DispatchStep(members: seq<Token>, callbacks: map<Token, Callback>, evs: seq<Event>, t: Token)
    requires Distinct(members) && evs != []
    requires DeliveredTo(DispatchCalls(members, callbacks, evs[..|evs| - 1]), t)
          == if t in members && Receives(t, callbacks) then evs[..|evs| - 1] else []
    ensures DeliveredTo(DispatchCalls(members, callbacks, evs), t)
         == if t in members && Receives(t, callbacks) then evs else []
  {
    var init := evs[..|evs| - 1];
    var before := DispatchCalls(members, callbacks, init);
    var round := EventRound(members, callbacks, Last(evs));
    EventRoundDelivery(members, callbacks, Last(evs), t);
    DeliveredToConcat(before, round, t);
    SnocLast(evs);
  }

  /** One invocation of `t`'s callback per event of `evs`, in order, each ending with `ending`. */
  function InvokeEach(t: Token, evs: seq<Event>, ending: Ending): seq<Call> {
    seq(|evs|, i requires 0 <= i < |evs| => Invoke(t, evs[i], ending))
  }

  lemma InvokeEachSnoc(t: Token, evs: seq<Event>, ending: Ending)
    requires evs != []
    ensures InvokeEach(t, evs, ending) == InvokeEach(t, evs[..|evs| - 1], ending) + [Invoke(t, Last(evs), ending)]
  {
  }

  /** A round for a group of one: the single invocation, or nothing for an undefined callback. */
  lemma RoundOfOne(t: Token, cb: Callback, e: Event)
    ensures EventRound([t], map[t := cb], e) == if cb == Undefined then [] else [Invoke(t, e, EndingOf(cb))]
  {
    assert [t][..0] == [];
  }

  /**
   * Dispatch to a lone recipient (what a catch-up task does): its callback is invoked once
   * per event, in the order of the events; an undefined callback is never invoked.
   */
  lemma {:induction false} DispatchToOne(t: Token, cb: Callback, evs: seq<Event>)
    ensures DispatchCalls([t], map[t := cb], evs) == if cb == Undefined then [] else InvokeEach(t, evs, EndingOf(cb))
    decreases |evs|
  {
    if evs != [] {
      DispatchToOne(t, cb, evs[..|evs| - 1]);
      RoundOfOne(t, cb, Last(evs));
      if cb != Undefined {
        InvokeEachSnoc(t, evs, EndingOf(cb));
      }
    }
  }
}
