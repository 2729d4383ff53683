/**
 * The catch-up task a subscribe starts for its token: starting from the reconciled first
 * window, read the buffer; on a hit deliver what it returned and move on; on a miss read
 * the store, offer a non-empty result to the buffer and deliver it; stop at the first
 * window that both the buffer and the store answer with nothing (a double miss).
 */
module CatchUpModel {
  import opened PollingModel

  /** A measure that every window after a hit lowers: the revisions left between the window and the log's end. */
  function Remaining(w: Window, log: seq<Event>): nat {
    if w.min <= |log| then |log| - w.min else 0
  }

  /** The events one catch-up step obtains for `w`: the buffer's answer, or on a buffer miss the store's. */
  function Fetched(w: Window, buffer: Window -> seq<Event>, log: seq<Event>): (evs: seq<Event>)
    requires Gapless(log) && CachedFrom(buffer, log)
    ensures ReadFrom(evs, w, log)
  {
    if buffer(w) != [] then buffer(w) else ReadStoreSound(log, w); ReadStore(log, w)
  }

  /** The buffer and store calls of one catch-up step for `w`, before anything is delivered. */
  function FetchCalls(w: Window, buffer: Window -> seq<Event>, log: seq<Event>): seq<Call>
    requires Gapless(log)
  {
    if buffer(w) != [] then [BufferRead(w)]
    else if ReadStore(log, w) != [] then [BufferRead(w), StoreRead(w), Offer(ReadStore(log, w))]
    else [BufferRead(w), StoreRead(w)]
  }

  /** The calls a catch-up task makes for `token` (whose callback is `cb`) from window `w` on. */
  function CatchUpCalls(token: Token, cb: Callback, w: Window, size: nat,
                        buffer: Window -> seq<Event>, log: seq<Event>): (calls: seq<Call>)
    requires Gapless(log) && CachedFrom(buffer, log)
    ensures |calls| >= 1 && calls[0] == BufferRead(w)
    decreases Remaining(w, log)
  {
    var evs := Fetched(w, buffer, log);
    if evs == [] then FetchCalls(w, buffer, log)
    else
      FetchCalls(w, buffer, log)
      + DispatchCalls([token], map[token := cb], evs)
      + CatchUpCalls(token, cb, NextWindow(Last(evs).revision, size), size, buffer, log)
  }

  /** A step that obtained events moves the next window past the last of them: the task gets closer to the end of the log. */
  lemma FetchProgress(w: Window, size: nat, buffer: Window -> seq<Event>, log: seq<Event>)
    requires Gapless(log) && CachedFrom(buffer, log) && Fetched(w, buffer, log) != []
    ensures Remaining(NextWindow(Last(Fetched(w, buffer, log)).revision, size), log) < Remaining(w, log)
  {
    var evs := Fetched(w, buffer, log);
    assert w.min <= evs[|evs| - 1].revision < |log|;
  }

  /** One step of the task: the fetch, then on a hit the delivery and the rest of the task from the next window. */
  lemma CatchUpUnfold(token: Token, cb: Callback, w: Window, size: nat, buffer: Window -> seq<Event>, log: seq<Event>)
    requires Gapless(log) && CachedFrom(buffer, log)
    ensures var evs := Fetched(w, buffer, log);
      CatchUpCalls(token, cb, w, size, buffer, log)
      == if evs == [] then FetchCalls(w, buffer, log)
         else FetchCalls(w, buffer, log) + DispatchCalls([token], map[token := cb], evs)
              + CatchUpCalls(token, cb, NextWindow(Last(evs).revision, size), size, buffer, log)
  {
  }

  // ---------------------------------------------------------------------------------------
  // Properties of the call sequence
  // ---------------------------------------------------------------------------------------

  /** The store is read only right after the buffer missed that same window. */
  ghost predicate StoreOnlyAfterBufferMiss(calls: seq<Call>, buffer: Window -> seq<Event>) {
    forall i :: 0 <= i < |calls| && calls[i].StoreRead? ==>
      0 < i && calls[i - 1] == BufferRead(calls[i].window) && buffer(calls[i].window) == []
  }

  /**
   * Exactly the non-empty store reads are offered to the buffer, as returned, right after the
   * read; nothing else is offered.
   */
  ghost predicate OffersAreStoreHits(calls: seq<Call>, log: seq<Event>)
    requires Gapless(log)
  {
    && (forall i :: 0 <= i < |calls| && calls[i].Offer? ==>
          0 < i && calls[i - 1].StoreRead? && calls[i].events == ReadStore(log, calls[i - 1].window) != [])
    && (forall i :: 0 <= i < |calls| && calls[i].StoreRead? && ReadStore(log, calls[i].window) != [] ==>
          i + 1 < |calls| && calls[i + 1] == Offer(ReadStore(log, calls[i].window)))
  }

  /**
   * The calls end with a window that the buffer and then the store both answered with
   * nothing, and no store read before it came back empty.
   */
  ghost predicate EndsAtFirstDoubleMiss(calls: seq<Call>, buffer: Window -> seq<Event>, log: seq<Event>)
    requires Gapless(log)
  {
    && |calls| >= 2
    && Last(calls).StoreRead?
    && calls[|calls| - 2] == BufferRead(Last(calls).window)
    && buffer(Last(calls).window) == []
    && ReadStore(log, Last(calls).window) == []
    && forall i :: 0 <= i < |calls| - 1 && calls[i].StoreRead? ==> ReadStore(log, calls[i].window) != []
  }

  // ---------------------------------------------------------------------------------------
  // One step
  // ---------------------------------------------------------------------------------------

  /** What one step of the loop does with the buffer and the store. */
  lemma FetchFacts(w: Window, buffer: Window -> seq<Event>, log: seq<Event>)
    requires Gapless(log) && CachedFrom(buffer, log)
    ensures var f := FetchCalls(w, buffer, log);
      && StoreOnlyAfterBufferMiss(f, buffer)
      && OffersAreStoreHits(f, log)
      && (forall i :: 0 <= i < |f| ==> !f[i].Invoke?)
      && f != [] && f[0] == BufferRead(w)
      && (Fetched(w, buffer, log) != [] ==>
            && !Last(f).StoreRead?
            && forall i :: 0 <= i < |f| && f[i].StoreRead? ==> ReadStore(log, f[i].window) != [])
      && (Fetched(w, buffer, log) == [] ==> EndsAtFirstDoubleMiss(f, buffer, log))
  {
    if buffer(w) != [] {
      BufferHitFacts(w, buffer, log);
    } else if ReadStore(log, w) != [] {
      StoreHitFacts(w, buffer, log);
    } else {
      DoubleMissFacts(w, buffer, log);
    }
  }

  lemma BufferHitFacts(w: Window, buffer: Window -> seq<Event>, log: seq<Event>)
    requires Gapless(log) && buffer(w) != []
    ensures var f := [BufferRead(w)];
      && StoreOnlyAfterBufferMiss(f, buffer)
      && OffersAreStoreHits(f, log)
      && (forall i :: 0 <= i < |f| ==> !f[i].Invoke?)
      && !Last(f).StoreRead?
      && forall i :: 0 <= i < |f| && f[i].StoreRead? ==> ReadStore(log, f[i].window) != []
  {
  }

  lemma StoreHitFacts(w: Window, buffer: Window -> seq<Event>, log: seq<Event>)
    requires Gapless(log) && buffer(w) == [] && ReadStore(log, w) != []
    ensures var f := [BufferRead(w), StoreRead(w), Offer(ReadStore(log, w))];
      && StoreOnlyAfterBufferMiss(f, buffer)
      && OffersAreStoreHits(f, log)
      && (forall i :: 0 <= i < |f| ==> !f[i].Invoke?)
      && !Last(f).StoreRead?
      && forall i :: 0 <= i < |f| && f[i].StoreRead? ==> ReadStore(log, f[i].window) != []
  {
    var f := [BufferRead(w), StoreRead(w), Offer(ReadStore(log, w))];
    assert forall i :: 0 <= i < |f| && f[i].StoreRead? ==> i == 1;
    assert forall i :: 0 <= i < |f| && f[i].Offer? ==> i == 2;
  }

  lemma DoubleMissFacts(w: Window, buffer: Window -> seq<Event>, log: seq<Event>)
    requires Gapless(log) && buffer(w) == [] && ReadStore(log, w) == []
    ensures var f := [BufferRead(w), StoreRead(w)];
      && StoreOnlyAfterBufferMiss(f, buffer)
      && OffersAreStoreHits(f, log)
      && (forall i :: 0 <= i < |f| ==> !f[i].Invoke?)
      && EndsAtFirstDoubleMiss(f, buffer, log)
  {
    var f := [BufferRead(w), StoreRead(w)];
    assert forall i :: 0 <= i < |f| && f[i].StoreRead? ==> i == 1;
  }

  lemma StoreOnlyAfterBufferMissConcat(a: seq<Call>, b: seq<Call>, buffer: Window -> seq<Event>)
    requires StoreOnlyAfterBufferMiss(a, buffer) && StoreOnlyAfterBufferMiss(b, buffer)
    requires b != [] ==> !b[0].StoreRead?
    ensures StoreOnlyAfterBufferMiss(a + b, buffer)
  {
    var ab := a + b;
    forall i | 0 <= i < |ab| && ab[i].StoreRead?
      ensures 0 < i && ab[i - 1] == BufferRead(ab[i].window) && buffer(ab[i].window) == []
    {
      if i >= |a| {
        assert ab[i] == b[i - |a|];
        assert ab[i - 1] == b[i - |a| - 1];
      }
    }
  }

  lemma OffersAreStoreHitsConcat(a: seq<Call>, b: seq<Call>, log: seq<Event>)
    requires Gapless(log)
    requires OffersAreStoreHits(a, log) && OffersAreStoreHits(b, log)
    requires b != [] ==> !b[0].Offer?
    requires a != [] ==> !Last(a).StoreRead?
    ensures OffersAreStoreHits(a + b, log)
  {
    var ab := a + b;
    forall i | 0 <= i < |ab| && ab[i].Offer?
      ensures 0 < i && ab[i - 1].StoreRead? && ab[i].events == ReadStore(log, ab[i - 1].window) != []
    {
      if i >= |a| {
        assert ab[i] == b[i - |a|];
        assert ab[i - 1] == b[i - |a| - 1];
      }
    }
    forall i | 0 <= i < |ab| && ab[i].StoreRead? && ReadStore(log, ab[i].window) != []
      ensures i + 1 < |ab| && ab[i + 1] == Offer(ReadStore(log, ab[i].window))
    {
      if i >= |a| {
        assert ab[i] == b[i - |a|];
        assert ab[i + 1] == b[i - |a| + 1];
      } else {
        assert ab[i] == a[i];
        assert i + 1 < |a|;
        assert ab[i + 1] == a[i + 1];
      }
    }
  }

  lemma StoreOnlyAfterBufferMissStep(prefix: seq<Call>, d: seq<Call>, rest: seq<Call>, buffer: Window -> seq<Event>)
    requires StoreOnlyAfterBufferMiss(prefix, buffer) && OnlyInvocations(d) && StoreOnlyAfterBufferMiss(rest, buffer)
    requires rest != [] ==> rest[0].BufferRead?
    ensures StoreOnlyAfterBufferMiss(prefix + d + rest, buffer)
  {
    assert StoreOnlyAfterBufferMiss(d, buffer);
    StoreOnlyAfterBufferMissConcat(prefix, d, buffer);
    StoreOnlyAfterBufferMissConcat(prefix + d, rest, buffer);
  }

  lemma OffersAreStoreHitsStep(prefix: seq<Call>, d: seq<Call>, rest: seq<Call>, log: seq<Event>)
    requires Gapless(log)
    requires OffersAreStoreHits(prefix, log) && OnlyInvocations(d) && OffersAreStoreHits(rest, log)
    requires prefix != [] && !Last(prefix).StoreRead?
    requires rest != [] ==> rest[0].BufferRead?
    ensures OffersAreStoreHits(prefix + d + rest, log)
  {
    assert OffersAreStoreHits(d, log);
    OffersAreStoreHitsConcat(prefix, d, log);
    if d != [] {
      assert Last(prefix + d) == Last(d);
    } else {
      assert prefix + d == prefix;
    }
    OffersAreStoreHitsConcat(prefix + d, rest, log);
  }

  lemma DoubleMissStep(prefix: seq<Call>, d: seq<Call>, rest: seq<Call>, buffer: Window -> seq<Event>, log: seq<Event>)
    requires Gapless(log)
    requires forall i :: 0 <= i < |prefix| && prefix[i].StoreRead? ==> ReadStore(log, prefix[i].window) != []
    requires OnlyInvocations(d)
    requires EndsAtFirstDoubleMiss(rest, buffer, log)
    ensures EndsAtFirstDoubleMiss(prefix + d + rest, buffer, log)
  {
    ThreeWayIndex(prefix, d, rest);
  }

  /** Where each position of a three-part concatenation comes from. */
  lemma ThreeWayIndex<T>(a: seq<T>, b: seq<T>, r: seq<T>)
    ensures var c := a + b + r;
      && (forall i :: 0 <= i < |a| ==> c[i] == a[i])
      && (forall i :: |a| <= i < |a| + |b| ==> c[i] == b[i - |a|])
      && (forall i :: |a| + |b| <= i < |c| ==> c[i] == r[i - |a| - |b|])
  {
  }

  /** Joining what one window delivered with what the windows after it delivered keeps the order. */
  lemma ReadFromJoin(a: seq<Event>, wa: Window, b: seq<Event>, m: nat, log: seq<Event>)
    requires ReadFrom(a, wa, log) && ReadFrom(b, Window(m, |log|), log)
    requires wa.min <= m
    requires a != [] ==> Last(a).revision < m
    ensures ReadFrom(a + b, Window(wa.min, |log|), log)
  {
    var ab := a + b;
    forall i, j | 0 <= i < j < |ab|
      ensures ab[i].revision < ab[j].revision
    {
      if j < |a| {
      } else if i < |a| {
        assert ab[j] == b[j - |a|];
        if i < |a| - 1 {
          assert a[i].revision < Last(a).revision;
        }
      } else {
        assert ab[i] == b[i - |a|] && ab[j] == b[j - |a|];
      }
    }
    forall i | 0 <= i < |ab|
      ensures wa.min <= ab[i].revision <= |log| && ab[i].revision < |log| && log[ab[i].revision] == ab[i]
    {
      if i >= |a| {
        assert ab[i] == b[i - |a|];
      }
    }
  }

  // ---------------------------------------------------------------------------------------
  // The whole task
  // ---------------------------------------------------------------------------------------

  /** The store is consulted only for a window the buffer has just missed. */
  lemma {:induction false} CatchUpReadsStoreOnlyOnBufferMiss(token: Token, cb: Callback, w: Window, size: nat,
                                                             buffer: Window -> seq<Event>, log: seq<Event>)
    requires Gapless(log) && CachedFrom(buffer, log)
    ensures StoreOnlyAfterBufferMiss(CatchUpCalls(token, cb, w, size, buffer, log), buffer)
    decreases Remaining(w, log)
  {
    var evs := Fetched(w, buffer, log);
    FetchFacts(w, buffer, log);
    if evs != [] {
      var next := NextWindow(Last(evs).revision, size);
      CatchUpReadsStoreOnlyOnBufferMiss(token, cb, next, size, buffer, log);
      DispatchOnlyInvokes([token], map[token := cb], evs);
      StoreOnlyAfterBufferMissStep(FetchCalls(w, buffer, log), DispatchCalls([token], map[token := cb], evs),
                                   CatchUpCalls(token, cb, next, size, buffer, log), buffer);
    }
  }

  /**
   * Every non-empty store read is offered to the buffer exactly as returned, right after the
   * read and so before any of it is delivered; nothing else is ever offered.
   */
  lemma {:induction false} CatchUpOffersEveryStoreHit(token: Token, cb: Callback, w: Window, size: nat,
                                                      buffer: Window -> seq<Event>, log: seq<Event>)
    requires Gapless(log) && CachedFrom(buffer, log)
    ensures OffersAreStoreHits(CatchUpCalls(token, cb, w, size, buffer, log), log)
    decreases Remaining(w, log)
  {
    var evs := Fetched(w, buffer, log);
    FetchFacts(w, buffer, log);
    if evs != [] {
      var next := NextWindow(Last(evs).revision, size);
      CatchUpOffersEveryStoreHit(token, cb, next, size, buffer, log);
      DispatchOnlyInvokes([token], map[token := cb], evs);
      OffersAreStoreHitsStep(FetchCalls(w, buffer, log), DispatchCalls([token], map[token := cb], evs),
                             CatchUpCalls(token, cb, next, size, buffer, log), log);
    }
  }

  /** A catch-up task stops at the first window that both the buffer and the store miss, and only there. */
  lemma {:induction false} CatchUpEndsAtFirstDoubleMiss(token: Token, cb: Callback, w: Window, size: nat,
                                                        buffer: Window -> seq<Event>, log: seq<Event>)
    requires Gapless(log) && CachedFrom(buffer, log)
    ensures EndsAtFirstDoubleMiss(CatchUpCalls(token, cb, w, size, buffer, log), buffer, log)
    decreases Remaining(w, log)
  {
    var evs := Fetched(w, buffer, log);
    FetchFacts(w, buffer, log);
    if evs != [] {
      var next := NextWindow(Last(evs).revision, size);
      CatchUpEndsAtFirstDoubleMiss(token, cb, next, size, buffer, log);
      DispatchOnlyInvokes([token], map[token := cb], evs);
      DoubleMissStep(FetchCalls(w, buffer, log), DispatchCalls([token], map[token := cb], evs),
                     CatchUpCalls(token, cb, next, size, buffer, log), buffer, log);
    }
  }

  /** What one step of the task delivers: the fetched events to `token` when it has a callback, nothing to anyone else. */
  lemma CatchUpStepDelivery(token: Token, cb: Callback, w: Window, size: nat,
                            buffer: Window -> seq<Event>, log: seq<Event>, t: Token)
    requires Gapless(log) && CachedFrom(buffer, log) && Fetched(w, buffer, log) != []
    ensures var evs := Fetched(w, buffer, log);
      DeliveredTo(CatchUpCalls(token, cb, w, size, buffer, log), t)
      == (if t == token && cb != Undefined then evs else [])
         + DeliveredTo(CatchUpCalls(token, cb, NextWindow(Last(evs).revision, size), size, buffer, log), t)
  {
    var evs := Fetched(w, buffer, log);
    var one := map[token := cb];
    FetchCallsInvokeNothing(w, buffer, log);
    CatchUpUnfold(token, cb, w, size, buffer, log);
    DispatchDelivery([token], one, evs, t);
    DeliveredAfterFetch(FetchCalls(w, buffer, log), DispatchCalls([token], one, evs),
                        CatchUpCalls(token, cb, NextWindow(Last(evs).revision, size), size, buffer, log), t);
  }

  /**
   * Whatever the buffer holds, a catch-up task delivers only to its own token, and only when
   * that token has a callback: stored events from the first window's lower bound on, each
   * at most once and in ascending order of revision.
   */
  lemma {:induction false} CatchUpDeliversAscending(token: Token, cb: Callback, w: Window, size: nat,
                                                    buffer: Window -> seq<Event>, log: seq<Event>, t: Token)
    requires Gapless(log) && CachedFrom(buffer, log)
    ensures t != token || cb == Undefined ==> DeliveredTo(CatchUpCalls(token, cb, w, size, buffer, log), t) == []
    ensures ReadFrom(DeliveredTo(CatchUpCalls(token, cb, w, size, buffer, log), t), Window(w.min, |log|), log)
    decreases Remaining(w, log)
  {
    var evs := Fetched(w, buffer, log);
    if evs != [] {
      var next := NextWindow(Last(evs).revision, size);
      AscendingMovesForward(w, size, buffer, log);
      CatchUpDeliversAscending(token, cb, next, size, buffer, log, t);
      AscendingStep(token, cb, w, size, buffer, log, t);
    } else {
      CatchUpStopDelivery(token, cb, w, size, buffer, log, t);
    }
  }

  /** After a hit the next window starts past the last event fetched, so the measure drops. */
  lemma AscendingMovesForward(w: Window, size: nat, buffer: Window -> seq<Event>, log: seq<Event>)
    requires Gapless(log) && CachedFrom(buffer, log) && Fetched(w, buffer, log) != []
    ensures var evs := Fetched(w, buffer, log);
      var next := NextWindow(Last(evs).revision, size);
      Remaining(next, log) < Remaining(w, log) && w.min <= next.min && Last(evs).revision < next.min
  {
    var evs := Fetched(w, buffer, log);
    assert evs[|evs| - 1] == Last(evs);
  }

  /** The inductive step of the ascending order: this step's events, then later ones. */
  lemma AscendingStep(token: Token, cb: Callback, w: Window, size: nat,
                      buffer: Window -> seq<Event>, log: seq<Event>, t: Token)
    requires Gapless(log) && CachedFrom(buffer, log) && Fetched(w, buffer, log) != []
    requires var next := NextWindow(Last(Fetched(w, buffer, log)).revision, size);
      var later := DeliveredTo(CatchUpCalls(token, cb, next, size, buffer, log), t);
      && (t != token || cb == Undefined ==> later == [])
      && ReadFrom(later, Window(next.min, |log|), log)
    ensures t != token || cb == Undefined ==> DeliveredTo(CatchUpCalls(token, cb, w, size, buffer, log), t) == []
    ensures ReadFrom(DeliveredTo(CatchUpCalls(token, cb, w, size, buffer, log), t), Window(w.min, |log|), log)
  {
    var evs := Fetched(w, buffer, log);
    var next := NextWindow(Last(evs).revision, size);
    CatchUpStepDelivery(token, cb, w, size, buffer, log, t);
    AscendingMovesForward(w, size, buffer, log);
    var mine := if t == token && cb != Undefined then evs else [];
    ReadFromJoin(mine, w, DeliveredTo(CatchUpCalls(token, cb, next, size, buffer, log), t), next.min, log);
  }

  /**
   * No gaps: when the buffer answers every window with a run of consecutive revisions from
   * its lower bound, a catch-up task from a window inside the log delivers every stored
   * event from that window's lower bound to the end of the log, in order, exactly once.
   */
  lemma {:induction false} CatchUpDeliversHistory(token: Token, cb: Callback, w: Window, size: nat,
                                                  buffer: Window -> seq<Event>, log: seq<Event>)
    requires Gapless(log) && ServesPrefixes(buffer, log)
    requires cb != Undefined && w.min <= w.max && w.min <= |log|
    ensures DeliveredTo(CatchUpCalls(token, cb, w, size, buffer, log), token) == log[w.min..]
    decreases Remaining(w, log)
  {
    var evs := Fetched(w, buffer, log);
    if evs != [] {
      var next := NextWindow(Last(evs).revision, size);
      HitMovesForward(w, size, buffer, log);
      CatchUpDeliversHistory(token, cb, next, size, buffer, log);
      HistoryStep(token, cb, w, size, buffer, log, evs, next);
    } else {
      CatchUpStopDelivery(token, cb, w, size, buffer, log, token);
    }
  }

  /** After a hit the next window still starts inside the log, and strictly later. */
  lemma HitMovesForward(w: Window, size: nat, buffer: Window -> seq<Event>, log: seq<Event>)
    requires Gapless(log) && ServesPrefixes(buffer, log)
    requires w.min <= w.max && w.min <= |log| && Fetched(w, buffer, log) != []
    ensures var evs := Fetched(w, buffer, log);
      var next := NextWindow(Last(evs).revision, size);
      && next.min <= next.max && w.min < next.min <= |log| && Remaining(next, log) < Remaining(w, log)
      && w.min + |evs| == next.min && evs == log[w.min .. next.min]
  {
    FetchedRun(w, buffer, log);
  }

  /** The inductive step of the history: this step's run, then the whole rest of the log. */
  lemma HistoryStep(token: Token, cb: Callback, w: Window, size: nat,
                    buffer: Window -> seq<Event>, log: seq<Event>, evs: seq<Event>, next: Window)
    requires Gapless(log) && CachedFrom(buffer, log) && cb != Undefined
    requires evs == Fetched(w, buffer, log) && evs != [] && next == NextWindow(Last(evs).revision, size)
    requires w.min + |evs| == next.min <= |log| && evs == log[w.min .. next.min]
    requires DeliveredTo(CatchUpCalls(token, cb, next, size, buffer, log), token) == log[next.min..]
    ensures DeliveredTo(CatchUpCalls(token, cb, w, size, buffer, log), token) == log[w.min..]
  {
    CatchUpStepDelivery(token, cb, w, size, buffer, log, token);
    JoinRuns(log, w.min, evs, next.min, DeliveredTo(CatchUpCalls(token, cb, next, size, buffer, log), token),
             DeliveredTo(CatchUpCalls(token, cb, w, size, buffer, log), token));
  }

  /** A run that reaches `m` followed by the log from `m` on is the log from the run's start on. */
  lemma JoinRuns(log: seq<Event>, a: nat, run: seq<Event>, m: nat, rest: seq<Event>, whole: seq<Event>)
    requires a <= m <= |log| && run == log[a..m] && rest == log[m..] && whole == run + rest
    ensures whole == log[a..]
  {
  }

  /** A step that fetches nothing ends the task without delivering anything. */
  lemma CatchUpStopDelivery(token: Token, cb: Callback, w: Window, size: nat,
                            buffer: Window -> seq<Event>, log: seq<Event>, t: Token)
    requires Gapless(log) && CachedFrom(buffer, log) && Fetched(w, buffer, log) == []
    ensures DeliveredTo(CatchUpCalls(token, cb, w, size, buffer, log), t) == []
  {
    CatchUpUnfold(token, cb, w, size, buffer, log);
    FetchCallsInvokeNothing(w, buffer, log);
    DeliveredToNoInvocation(FetchCalls(w, buffer, log), t);
  }

  lemma FetchCallsInvokeNothing(w: Window, buffer: Window -> seq<Event>, log: seq<Event>)
    requires Gapless(log)
    ensures forall i :: 0 <= i < |FetchCalls(w, buffer, log)| ==> !FetchCalls(w, buffer, log)[i].Invoke?
  {
  }

  /** Against a buffer that serves prefixes, each step obtains the next run of the log, and nothing only at its end. */
  lemma FetchedRun(w: Window, buffer: Window -> seq<Event>, log: seq<Event>)
    requires Gapless(log) && ServesPrefixes(buffer, log)
    requires w.min <= w.max && w.min <= |log|
    ensures var evs := Fetched(w, buffer, log);
      && w.min + |evs| <= |log|
      && evs == log[w.min .. w.min + |evs|]
      && (evs == [] <==> w.min == |log|)
      && (evs != [] ==> Last(evs).revision + 1 == w.min + |evs|)
  {
    var evs := Fetched(w, buffer, log);
    if buffer(w) == [] {
      assert evs == ReadStore(log, w);
    }
  }
}
