/**
 * The event polling subscription object: a dispatch group (tokens in subscription order and
 * the callback each registered), the running flag of the live poll loop, the loop's current
 * window, and the record of every call the object has made on the buffer, the store and the
 * callbacks. `subscribe` registers synchronously; the catch-up task it starts and each tick
 * of the live loop are methods a driver calls afterwards, each run as one atomic step.
 */
module PollingSubscription {
  import opened Wrappers
  import opened PollingModel
  import opened CatchUpModel
  import opened LiveLoopModel

  /** `s` without `t`, the order of the rest kept. */
  function Without(s: seq<Token>, t: Token): (r: seq<Token>)
    ensures forall x :: x in r <==> x in s && x != t
    ensures Distinct(s) ==> Distinct(r)
    ensures |r| <= |s|
    decreases |s|
  {
    if s == [] then []
    else
      var init := Without(s[..|s| - 1], t);
      var x := Last(s);
      assert forall y :: y in s[..|s| - 1] ==> y in s;
      assert Distinct(s) ==> Distinct(s[..|s| - 1]) && x !in s[..|s| - 1];
      if x == t then init else init + [x]
  }

  lemma AppendAssoc(a: seq<Call>, b: seq<Call>, c: seq<Call>, d: seq<Call>)
    ensures a + b + c + d == a + (b + c + d)
  {
  }

  class Subscription {
    /** pollingMaxRevisions: a window [min, max] spans max - min = windowSize. */
    const windowSize: nat
    /** The registered tokens, in the order they subscribed. */
    var members: seq<Token>
    /** The callback each registered token subscribed with. */
    var callbacks: map<Token, Callback>
    /** Whether the live poll loop is running. */
    var running: bool
    /** The window the next live tick reads. */
    var cursor: Window
    /** The revision the first subscribe of this object asked to start from. */
    var firstRequested: Option<nat>
    /** Every call made so far, in order. */
    var calls: seq<Call>

    ghost predicate Valid()
      reads this
    {
      && Distinct(members)
      && (forall t :: t in callbacks <==> t in members)
      && (running ==> members != [])
      && cursor.max == cursor.min + windowSize
    }

    constructor(windowSize: nat)
      ensures Valid()
      ensures this.windowSize == windowSize
      ensures members == [] && callbacks == map[] && !running && calls == [] && firstRequested == None
    {
      this.windowSize := windowSize;
      members := [];
      callbacks := map[];
      running := false;
      cursor := Window(0, windowSize);
      calls := [];
      firstRequested := None;
    }

    /**
     * subscribe(token, revision, onEvent): registers the token (a token already registered
     * keeps its place and takes the new callback), starts the live loop if it is not running,
     * and returns the token. It calls nothing itself. The loop starts from the first window
     * reconciled against the first revision any subscribe of this object asked for.
     */
    method Subscribe(token: Token, revision: nat, cb: Callback, log: seq<Event>) returns (r: Token)
      requires Valid() && Gapless(log)
      modifies this
      ensures Valid()
      ensures r == token
      ensures calls == old(calls)
      ensures callbacks == old(callbacks)[token := cb]
      ensures members == if token in old(members) then old(members) else old(members) + [token]
      ensures running
      ensures firstRequested == if old(firstRequested).Some? then old(firstRequested) else Some(revision)
      ensures cursor == if old(running) then old(cursor) else FirstWindow(firstRequested.value, LastRevision(log), windowSize)
    {
      if token !in members {
        members := members + [token];
      }
      callbacks := callbacks[token := cb];
      if firstRequested.None? {
        firstRequested := Some(revision);
      }
      if !running {
        running := true;
        cursor := FirstWindow(firstRequested.value, LastRevision(log), windowSize);
      }
      r := token;
    }

    /** unsubscribe(token): the token leaves the group; the loop stops once the group is empty. */
    method Unsubscribe(token: Token)
      requires Valid()
      modifies this
      ensures Valid()
      ensures members == Without(old(members), token)
      ensures callbacks == old(callbacks) - {token}
      ensures running == (old(running) && members != [])
      ensures calls == old(calls) && cursor == old(cursor) && firstRequested == old(firstRequested)
    {
      members := Without(members, token);
      callbacks := callbacks - {token};
      if members == [] {
        running := false;
      }
    }

    /** deactivate(): stops the live loop whatever the group holds. */
    method Deactivate()
      requires Valid()
      modifies this`running
      ensures Valid() && !running
    {
      running := false;
    }

    /** activate(): restarts the live loop, but only while the group has members. */
    method Activate()
      requires Valid()
      modifies this`running
      ensures Valid()
      ensures running == (members != [])
    {
      running := members != [];
    }

    /**
     * Hands each event in turn to each recipient, in order; a recipient without a callback is
     * skipped, and whatever a callback does (acknowledge, fail, time out) the next one is called.
     */
    method Deliver(recipients: seq<Token>, cbs: map<Token, Callback>, evs: seq<Event>)
      modifies this`calls
      ensures calls == old(calls) + DispatchCalls(recipients, cbs, evs)
    {
      for i := 0 to |evs|
        invariant calls == old(calls) + DispatchCalls(recipients, cbs, evs[..i])
      {
        for j := 0 to |recipients|
          invariant calls == old(calls) + DispatchCalls(recipients, cbs, evs[..i]) + EventRound(recipients[..j], cbs, evs[i])
        {
          var t := recipients[j];
          if t in cbs && cbs[t] != Undefined {
            calls := calls + [Invoke(t, evs[i], EndingOf(cbs[t]))];
          }
          assert recipients[..j + 1][..j] == recipients[..j];
        }
        assert recipients[..|recipients|] == recipients;
        assert evs[..i + 1][..i] == evs[..i];
      }
      assert evs[..|evs|] == evs;
    }

    /**
     * The catch-up task of `token`: read the last stored event, and from the first window
     * reconciled against it read the buffer, fall back to the store (offering what it returns),
     * deliver to `token` alone, and move on until a window misses in both. A token that is not
     * registered gets no task.
     */
    method CatchUp(token: Token, revision: nat, buffer: Window -> seq<Event>, log: seq<Event>)
      requires Valid() && Gapless(log) && CachedFrom(buffer, log)
      modifies this`calls
      ensures token in callbacks ==>
        calls == old(calls) + [LastEventRead] + CatchUpCalls(token, callbacks[token], FirstWindow(revision, LastRevision(log), windowSize),
                                                             windowSize, buffer, log)
      ensures token !in callbacks ==> calls == old(calls)
    {
      if token !in callbacks {
        return;
      }
      calls := calls + [LastEventRead];
      CatchUpFrom(token, callbacks[token], FirstWindow(revision, LastRevision(log), windowSize), buffer, log);
    }

    /** The windows of a catch-up task from `start` on, until one misses in the buffer and in the store. */
    method CatchUpFrom(token: Token, cb: Callback, start: Window, buffer: Window -> seq<Event>, log: seq<Event>)
      requires Gapless(log) && CachedFrom(buffer, log)
      modifies this`calls
      ensures calls == old(calls) + CatchUpCalls(token, cb, start, windowSize, buffer, log)
    {
      var w := start;
      while true
        invariant old(calls) + CatchUpCalls(token, cb, start, windowSize, buffer, log)
               == calls + CatchUpCalls(token, cb, w, windowSize, buffer, log)
        decreases Remaining(w, log)
      {
        CatchUpUnfold(token, cb, w, windowSize, buffer, log);
        ghost var before := calls;
        var evs := Fetch(w, buffer, log);
        if evs == [] {
          break;
        }
        Deliver([token], map[token := cb], evs);
        var next := NextWindow(Last(evs).revision, windowSize);
        FetchProgress(w, windowSize, buffer, log);
        AppendAssoc(before, FetchCalls(w, buffer, log), DispatchCalls([token], map[token := cb], evs),
                    CatchUpCalls(token, cb, next, windowSize, buffer, log));
        w := next;
      }
    }

    /** One window of a catch-up task: the buffer, and on a miss the store, whose events are offered to the buffer. */
    method Fetch(w: Window, buffer: Window -> seq<Event>, log: seq<Event>) returns (evs: seq<Event>)
      requires Gapless(log) && CachedFrom(buffer, log)
      modifies this`calls
      ensures evs == Fetched(w, buffer, log)
      ensures calls == old(calls) + FetchCalls(w, buffer, log)
    {
      evs := buffer(w);
      calls := calls + [BufferRead(w)];
      if evs == [] {
        evs := ReadStore(log, w);
        calls := calls + [StoreRead(w)];
        if evs != [] {
          calls := calls + [Offer(evs)];
        }
      }
    }

    /**
     * One tick of the live loop, when it runs: read the window from the store; on a hit
     * offer the events to the buffer, broadcast them to the whole group and move the window
     * past the last one.
     */
    method Tick(log: seq<Event>)
      requires Valid() && Gapless(log)
      modifies this`calls, this`cursor
      ensures Valid()
      ensures old(running) ==> calls == old(calls) + TickCalls(members, callbacks, old(cursor), log)
      ensures old(running) ==> cursor == TickCursor(old(cursor), windowSize, log)
      ensures !old(running) ==> calls == old(calls) && cursor == old(cursor)
    {
      if !running {
        return;
      }
      var evs := ReadStore(log, cursor);
      calls := calls + [StoreRead(cursor)];
      if evs != [] {
        calls := calls + [Offer(evs)];
        Deliver(members, callbacks, evs);
        cursor := NextWindow(Last(evs).revision, windowSize);
      }
    }
  }
}
