/**
 * The live poll loop that runs while the subscription has members: every tick reads the
 * current window from the store only; an empty read keeps the window, a read whose last
 * event has revision r offers the events to the buffer, broadcasts them to every member
 * and moves the window to [r + 1, r + 1 + W]. A PubSub wake only makes the next tick
 * happen sooner, so a run of the loop is a sequence of ticks.
 */
module LiveLoopModel {
  import opened PollingModel

  /** The calls one tick makes against the store as it is now (`log`). */
  function TickCalls(members: seq<Token>, callbacks: map<Token, Callback>, cursor: Window, log: seq<Event>): seq<Call>
    requires Gapless(log)
  {
    var evs := ReadStore(log, cursor);
    [StoreRead(cursor)] + if evs == [] then [] else [Offer(evs)] + DispatchCalls(members, callbacks, evs)
  }

  /** The window the tick after this one reads. */
  function TickCursor(cursor: Window, size: nat, log: seq<Event>): Window
    requires Gapless(log)
  {
    var evs := ReadStore(log, cursor);
    if evs == [] then cursor else NextWindow(Last(evs).revision, size)
  }

  /** The calls of a tick: the store read, then on a hit the offer and the broadcast. */
  lemma TickCallsShape(members: seq<Token>, callbacks: map<Token, Callback>, cursor: Window, log: seq<Event>)
    requires Gapless(log)
    ensures var evs := ReadStore(log, cursor);
      TickCalls(members, callbacks, cursor, log)
      == if evs == [] then [StoreRead(cursor)] else [StoreRead(cursor), Offer(evs)] + DispatchCalls(members, callbacks, evs)
  {
  }

  lemma PairThen(calls: seq<Call>, c0: Call, c1: Call, d: seq<Call>)
    requires calls == [c0, c1] + d && OnlyInvocations(d)
    ensures calls[0] == c0 && calls[1] == c1
    ensures forall i :: 2 <= i < |calls| ==> calls[i].Invoke?
  {
    assert forall i :: 2 <= i < |calls| ==> calls[i] == d[i - 2];
  }

  /**
   * A tick never touches the buffer: it reads the store once, for the current window, and
   * offers exactly what that read returned, when it returned anything, before delivering it.
   */
  lemma TickReadsStoreOnly(members: seq<Token>, callbacks: map<Token, Callback>, cursor: Window, log: seq<Event>)
    requires Gapless(log) && Distinct(members)
    ensures var calls := TickCalls(members, callbacks, cursor, log);
      && calls[0] == StoreRead(cursor)
      && (forall i :: 0 <= i < |calls| ==> !calls[i].BufferRead?)
      && (forall i :: 1 <= i < |calls| ==> !calls[i].StoreRead?)
      && (ReadStore(log, cursor) == [] ==> |calls| == 1)
      && (ReadStore(log, cursor) != [] ==>
            && calls[1] == Offer(ReadStore(log, cursor))
            && forall i :: 2 <= i < |calls| ==> calls[i].Invoke?)
  {
    var evs := ReadStore(log, cursor);
    TickCallsShape(members, callbacks, cursor, log);
    if evs != [] {
      DispatchOnlyInvokes(members, callbacks, evs);
      PairThen(TickCalls(members, callbacks, cursor, log), StoreRead(cursor), Offer(evs), DispatchCalls(members, callbacks, evs));
    }
  }

  /**
   * The window moves exactly past what was read: an empty read keeps it, a read ending at
   * revision r moves it to [r + 1, r + 1 + W], which is the first revision not yet read.
   */
  lemma TickMovesWindow(cursor: Window, size: nat, log: seq<Event>)
    requires Gapless(log) && cursor.min <= cursor.max && cursor.min <= |log|
    ensures var evs := ReadStore(log, cursor);
      var next := TickCursor(cursor, size, log);
      && (evs == [] ==> next == cursor)
      && (evs != [] ==> next == Window(Last(evs).revision + 1, Last(evs).revision + 1 + size))
      && next.min == cursor.min + |evs| <= |log|
      && evs == log[cursor.min .. next.min]
      && (cursor.min < |log| ==> cursor.min < next.min)
  {
  }

  /** A tick hands every member with a callback exactly the stored events of the window it read, in order. */
  lemma TickDelivers(members: seq<Token>, callbacks: map<Token, Callback>, cursor: Window, size: nat,
                     log: seq<Event>, t: Token)
    requires Gapless(log) && Distinct(members) && cursor.min <= cursor.max && cursor.min <= |log|
    ensures DeliveredTo(TickCalls(members, callbacks, cursor, log), t)
         == if t in members && Receives(t, callbacks) then log[cursor.min .. TickCursor(cursor, size, log).min] else []
  {
    var evs := ReadStore(log, cursor);
    TickMovesWindow(cursor, size, log);
    TickCallsShape(members, callbacks, cursor, log);
    if evs == [] {
      DeliveredToNoInvocation([StoreRead(cursor)], t);
    } else {
      DispatchDelivery(members, callbacks, evs, t);
      DeliveredAfterSkip([StoreRead(cursor), Offer(evs)], DispatchCalls(members, callbacks, evs), t);
    }
  }

  // ---------------------------------------------------------------------------------------
  // A run of ticks against a growing store
  // ---------------------------------------------------------------------------------------

  /** Each log in `logs` is the store as one tick sees it; the store only ever grows. */
  predicate Grows(logs: seq<seq<Event>>) {
    && (forall i :: 0 <= i < |logs| ==> Gapless(logs[i]))
    && (forall i, j :: 0 <= i <= j < |logs| ==> logs[i] <= logs[j])
  }

  /** The calls of one tick per entry of `logs`, starting from window `cursor`. */
  function LiveCalls(members: seq<Token>, callbacks: map<Token, Callback>, cursor: Window, size: nat,
                     logs: seq<seq<Event>>): seq<Call>
    requires Grows(logs)
    decreases |logs|
  {
    if logs == [] then []
    else
      TickCalls(members, callbacks, cursor, logs[0])
      + LiveCalls(members, callbacks, TickCursor(cursor, size, logs[0]), size, logs[1..])
  }

  /** The window after one tick per entry of `logs`. */
  function LiveCursor(cursor: Window, size: nat, logs: seq<seq<Event>>): Window
    requires Grows(logs)
    decreases |logs|
  {
    if logs == [] then cursor else LiveCursor(TickCursor(cursor, size, logs[0]), size, logs[1..])
  }

  lemma GrowsTail(logs: seq<seq<Event>>)
    requires Grows(logs) && logs != []
    ensures Grows(logs[1..])
  {
    var tail := logs[1..];
    assert forall i :: 0 <= i < |tail| ==> tail[i] == logs[i + 1];
  }

  /**
   * No gaps and no repeats while live: over any run of ticks against a store that only grows,
   * a member with a callback receives exactly the stored events from the first window's
   * lower bound up to the final window's lower bound, in order, each once.
   */
  lemma {:induction false} LiveDeliversWithoutGaps(members: seq<Token>, callbacks: map<Token, Callback>, cursor: Window,
                                                   size: nat, logs: seq<seq<Event>>, t: Token)
    requires Grows(logs) && logs != [] && Distinct(members)
    requires cursor.min <= cursor.max && cursor.max == cursor.min + size && cursor.min <= |logs[0]|
    ensures var fin := LiveCursor(cursor, size, logs);
      && cursor.min <= fin.min <= |Last(logs)|
      && fin.max == fin.min + size
      && DeliveredTo(LiveCalls(members, callbacks, cursor, size, logs), t)
         == if t in members && Receives(t, callbacks) then Last(logs)[cursor.min .. fin.min] else []
    decreases |logs|
  {
    var next := TickCursor(cursor, size, logs[0]);
    LiveStep(members, callbacks, cursor, size, logs, t);
    if |logs| > 1 {
      GrowsTail(logs);
      LiveDeliversWithoutGaps(members, callbacks, next, size, logs[1..], t);
      LiveJoin(members, callbacks, cursor, size, logs, t);
    }
  }

  /**
   * One tick of a run: it delivers the stored events from the window's lower bound to the
   * next window's, then the rest of the run follows from that next window.
   */
  lemma LiveStep(members: seq<Token>, callbacks: map<Token, Callback>, cursor: Window,
                 size: nat, logs: seq<seq<Event>>, t: Token)
    requires Grows(logs) && logs != [] && Distinct(members)
    requires cursor.min <= cursor.max && cursor.max == cursor.min + size && cursor.min <= |logs[0]|
    ensures var next := TickCursor(cursor, size, logs[0]);
      && cursor.min <= next.min <= |logs[0]| <= |Last(logs)|
      && next.max == next.min + size
      && LiveCursor(cursor, size, logs) == LiveCursor(next, size, logs[1..])
      && DeliveredTo(LiveCalls(members, callbacks, cursor, size, logs), t)
         == (if t in members && Receives(t, callbacks) then logs[0][cursor.min .. next.min] else [])
            + DeliveredTo(LiveCalls(members, callbacks, next, size, logs[1..]), t)
      && (|logs| == 1 ==> LiveCalls(members, callbacks, next, size, logs[1..]) == [] && Last(logs) == logs[0])
      && (|logs| > 1 ==> logs[0] <= logs[1] && Last(logs[1..]) == Last(logs))
  {
    var next := TickCursor(cursor, size, logs[0]);
    TickMovesWindow(cursor, size, logs[0]);
    TickDelivers(members, callbacks, cursor, size, logs[0], t);
    var tick := TickCalls(members, callbacks, cursor, logs[0]);
    var rest := LiveCalls(members, callbacks, next, size, logs[1..]);
    assert LiveCalls(members, callbacks, cursor, size, logs) == tick + rest;
    DeliveredToConcat(tick, rest, t);
    assert logs[0] <= Last(logs);
    if |logs| == 1 {
      assert logs[1..] == [];
    }
  }

  /** The inductive step of the run: what the first tick read, then what the rest of the run read. */
  lemma LiveJoin(members: seq<Token>, callbacks: map<Token, Callback>, cursor: Window,
                 size: nat, logs: seq<seq<Event>>, t: Token)
    requires Grows(logs) && |logs| > 1 && Distinct(members)
    requires cursor.min <= cursor.max && cursor.max == cursor.min + size && cursor.min <= |logs[0]|
    requires var next := TickCursor(cursor, size, logs[0]);
      var fin := LiveCursor(next, size, logs[1..]);
      && cursor.min <= next.min <= |logs[0]|
      && LiveCursor(cursor, size, logs) == fin
      && next.min <= fin.min <= |Last(logs)|
      && logs[0] <= Last(logs)
      && DeliveredTo(LiveCalls(members, callbacks, cursor, size, logs), t)
         == (if t in members && Receives(t, callbacks) then logs[0][cursor.min .. next.min] else [])
            + DeliveredTo(LiveCalls(members, callbacks, next, size, logs[1..]), t)
      && DeliveredTo(LiveCalls(members, callbacks, next, size, logs[1..]), t)
         == if t in members && Receives(t, callbacks) then Last(logs)[next.min .. fin.min] else []
    ensures var fin := LiveCursor(cursor, size, logs);
      DeliveredTo(LiveCalls(members, callbacks, cursor, size, logs), t)
      == if t in members && Receives(t, callbacks) then Last(logs)[cursor.min .. fin.min] else []
  {
    var next := TickCursor(cursor, size, logs[0]);
    var fin := LiveCursor(next, size, logs[1..]);
    SliceOfPrefix(logs[0], Last(logs), cursor.min, next.min);
    SplitSlice(Last(logs), cursor.min, next.min, fin.min);
  }

  /** `n` ticks against a store that does not change. */
  function Repeat(log: seq<Event>, n: nat): (logs: seq<seq<Event>>)
    ensures |logs| == n && forall i :: 0 <= i < n ==> logs[i] == log
  {
    if n == 0 then [] else [log] + Repeat(log, n - 1)
  }

  /**
   * The live loop catches up with a store that stops growing: after one tick per
   * unread revision its window starts right after the last stored event.
   */
  lemma {:induction false} LiveReachesEndOfLog(cursor: Window, size: nat, log: seq<Event>, n: nat)
    requires Gapless(log) && cursor.min <= cursor.max && cursor.min <= |log| && n >= |log| - cursor.min
    ensures Grows(Repeat(log, n))
    ensures LiveCursor(cursor, size, Repeat(log, n)).min == |log|
    decreases n
  {
    var logs := Repeat(log, n);
    if n == 0 {
    } else {
      TickMovesWindow(cursor, size, log);
      var next := TickCursor(cursor, size, log);
      assert logs[1..] == Repeat(log, n - 1);
      if cursor.min == |log| {
        assert next == cursor;
        LiveReachesEndOfLog(next, size, log, n - 1);
      } else {
        LiveReachesEndOfLog(next, size, log, n - 1);
      }
    }
  }

  /**
   * While the store holds nothing in the window, every tick polls that same window from the
   * store and does nothing else: no buffer read, no offer, no invocation, no move.
   */
  lemma {:induction false} LiveIdlePolls(members: seq<Token>, callbacks: map<Token, Callback>, cursor: Window,
                                         size: nat, log: seq<Event>, n: nat)
    requires Gapless(log) && ReadStore(log, cursor) == []
    ensures Grows(Repeat(log, n))
    ensures LiveCalls(members, callbacks, cursor, size, Repeat(log, n)) == seq(n, _ => StoreRead(cursor))
    ensures LiveCursor(cursor, size, Repeat(log, n)) == cursor
    decreases n
  {
    if n > 0 {
      assert Repeat(log, n)[1..] == Repeat(log, n - 1);
      LiveIdlePolls(members, callbacks, cursor, size, log, n - 1);
      assert seq(n, _ => StoreRead(cursor)) == [StoreRead(cursor)] + seq(n - 1, _ => StoreRead(cursor));
    }
  }
}
