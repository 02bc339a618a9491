/** The sliding-log rate limiter (api/middleware/rate_limit.py). Each client
    owns a list of request times under "rate_limit:" + client id; a check
    counts the entries newer than one window, denies when that count reaches
    the limit, and otherwise pushes the current time and restarts the key's
    expiry. Times are whole seconds. */
module RateLimit {
  import opened Wrappers
  import opened Backend
  import ConversationStore
  import opened Http

  const Prefix := "rate_limit:"

  /** The window length, and the expiry given to a client's key, in seconds. */
  const Window := 60

  /** The limit of the limiter the middleware uses. */
  const DefaultLimit := 60

  function Key(clientId: string): string
  {
    Namespaced(Prefix, clientId)
  }

  /** The two namespaces never meet, so the limiter and the conversation store
      cannot see each other's keys. */
  lemma NamespacesDisjoint(clientId: string, id: string)
    ensures Key(clientId) != ConversationStore.Key(id)
    ensures !HasPrefix(Key(clientId), ConversationStore.Prefix)
    ensures !HasPrefix(ConversationStore.Key(id), Prefix)
  {
    assert Key(clientId)[0] == 'r';
    assert ConversationStore.Key(id)[0] == 'c';
  }

  /** Number of entries of xs strictly above lo. */
  function CountAbove(xs: seq<int>, lo: int): nat
  {
    if xs == [] then 0 else (if xs[0] > lo then 1 else 0) + CountAbove(xs[1..], lo)
  }

  /** Number of entries of xs in the window (w - Window, w]. */
  function WindowCount(xs: seq<int>, w: int): nat
  {
    if xs == [] then 0
    else (if w - Window < xs[0] <= w then 1 else 0) + WindowCount(xs[1..], w)
  }

  /** The local filtering step: the stored times newer than now - Window, in
      their stored order. */
  function Recent(ts: seq<int>, now: int): (r: seq<int>)
    ensures |r| == CountAbove(ts, now - Window)
    ensures forall x :: x in r <==> x in ts && x > now - Window
  {
    if ts == [] then []
    else (if ts[0] > now - Window then [ts[0]] else []) + Recent(ts[1..], now)
  }

  /** The list LRANGE returns for a key that holds a list (empty otherwise). */
  function StoredLog(s: Store, k: string, now: int): seq<int>
  {
    if LiveKey(s, k, now) && s[k].value.List? then s[k].value.items else []
  }

  datatype Verdict = Verdict(limited: bool, store: Store)

  /** RateLimiter.is_rate_limited(client_id) at clock time now. */
  function IsRateLimited(s: Store, clientId: string, now: int, limit: int): (r: Result<Verdict, StoreError>)
    ensures r.Failure? <==> LiveKey(s, Key(clientId), now) && s[Key(clientId)].value.Record?
    ensures r.Success? ==>
      (r.value.limited <==> CountAbove(StoredLog(s, Key(clientId), now), now - Window) >= limit)
    ensures r.Success? && r.value.limited ==> r.value.store == s
    ensures r.Success? && !r.value.limited ==>
      r.value.store == s[Key(clientId) := Entry(List([now] + StoredLog(s, Key(clientId), now)), Some(now + Window))]
    ensures r.Success? && !r.value.limited ==>
      WindowCount(r.value.store[Key(clientId)].value.items, now) <= limit
  {
    var key := Key(clientId);
    match LRange(s, key, now)
    case Failure(e) => Failure(e)
    case Success(stored) =>
      assert stored == StoredLog(s, key, now);
      var recent := Recent(stored, now);
      if |recent| >= limit then Success(Verdict(true, s))
      else
        match LPush(s, key, now, now)
        case Failure(e) => Failure(e)
        case Success(pushed) =>
          WindowCountBelowCountAbove(stored, now);
          var expired := Expire(pushed, key, Window, now);
          assert LiveKey(pushed, key, now);
          assert pushed[key].value == List([now] + stored) by {
            if !LiveKey(s, key, now) {
              assert [now] + stored == [now];
            }
          }
          SameExceptAt(s, expired, key, Entry(List([now] + stored), Some(now + Window)));
          Success(Verdict(false, expired))
  }

  /** A check touches its own client's key and nothing else. */
  lemma CheckWritesOnlyOwnKey(s: Store, clientId: string, now: int, limit: int)
    requires IsRateLimited(s, clientId, now, limit).Success?
    ensures IsRateLimited(s, clientId, now, limit).value.store - {Key(clientId)} == s - {Key(clientId)}
  {
  }

  /** A check reads only its own client's key: two stores that agree there give
      the same verdict and leave the same entry there. */
  lemma CheckReadsOnlyOwnKey(s1: Store, s2: Store, clientId: string, now: int, limit: int)
    requires Key(clientId) in s1 <==> Key(clientId) in s2
    requires Key(clientId) in s1 ==> s1[Key(clientId)] == s2[Key(clientId)]
    ensures IsRateLimited(s1, clientId, now, limit).Success? <==> IsRateLimited(s2, clientId, now, limit).Success?
    ensures IsRateLimited(s1, clientId, now, limit).Success? ==>
      && IsRateLimited(s1, clientId, now, limit).value.limited == IsRateLimited(s2, clientId, now, limit).value.limited
      && (Key(clientId) in IsRateLimited(s1, clientId, now, limit).value.store <==> Key(clientId) in IsRateLimited(s2, clientId, now, limit).value.store)
      && (Key(clientId) in IsRateLimited(s1, clientId, now, limit).value.store ==>
          IsRateLimited(s1, clientId, now, limit).value.store[Key(clientId)] == IsRateLimited(s2, clientId, now, limit).value.store[Key(clientId)])
  {
  }

  /** A check leaves every conversation key exactly as it was. */
  lemma CheckKeepsConversations(s: Store, clientId: string, now: int, limit: int, id: string)
    requires IsRateLimited(s, clientId, now, limit).Success?
    ensures ConversationStore.GetConversation(IsRateLimited(s, clientId, now, limit).value.store, id, now)
         == ConversationStore.GetConversation(s, id, now)
    ensures ConversationStore.WellFormed(s) ==> ConversationStore.WellFormed(IsRateLimited(s, clientId, now, limit).value.store)
  {
    NamespacesDisjoint(clientId, id);
    var s' := IsRateLimited(s, clientId, now, limit).value.store;
    if ConversationStore.WellFormed(s) {
      forall k | k in s' && HasPrefix(k, ConversationStore.Prefix)
        ensures s'[k].value.Record? && ConversationStore.Key(s'[k].value.conv.id) == k
      {
        if k == Key(clientId) {
          assert false;
        }
      }
    }
  }

  /** Rate-limit keys hold lists: what the limiter keeps true of its namespace. */
  ghost predicate WellFormed(s: Store)
  {
    forall k :: k in s && HasPrefix(k, Prefix) ==> s[k].value.List?
  }

  /** On a store whose rate-limit keys hold lists a check never fails, and it
      keeps that so; saving a conversation keeps it too. */
  lemma WellFormedPreserved(s: Store, clientId: string, now: int, limit: int, c: Records.Conversation)
    requires WellFormed(s)
    ensures IsRateLimited(s, clientId, now, limit).Success?
    ensures WellFormed(IsRateLimited(s, clientId, now, limit).value.store)
    ensures WellFormed(ConversationStore.SaveConversation(s, c))
  {
    NamespacesDisjoint(clientId, c.id);
    var s' := ConversationStore.SaveConversation(s, c);
    forall k | k in s' && HasPrefix(k, Prefix)
      ensures s'[k].value.List?
    {
      if k == ConversationStore.Key(c.id) {
        assert false;
      }
    }
  }

  const TooManyRequests := Response(429, Throttled("Too many requests", "Please try again in a minute"))

  /** rate_limit_middleware with the default limiter: a throttled request gets
      429 and never reaches the handler; any other request gets exactly the
      handler's response. A backend failure propagates (no fail-open). */
  function RateLimitMiddleware(s: Store, host: string, now: int, handler: Store -> (Response, Store)): (r: Result<(Response, Store), StoreError>)
    ensures r.Failure? <==> LiveKey(s, Key(host), now) && s[Key(host)].value.Record?
    ensures r.Success? && CountAbove(StoredLog(s, Key(host), now), now - Window) >= DefaultLimit ==>
      r.value == (TooManyRequests, s)
    ensures r.Success? && CountAbove(StoredLog(s, Key(host), now), now - Window) < DefaultLimit ==>
      r.value == handler(s[Key(host) := Entry(List([now] + StoredLog(s, Key(host), now)), Some(now + Window))])
  {
    match IsRateLimited(s, host, now, DefaultLimit)
    case Failure(e) => Failure(e)
    case Success(v) =>
      if v.limited then Success((TooManyRequests, s))
      else Success(handler(v.store))
  }

  // ---------------------------------------------------------------------
  // Counting facts

  lemma {:induction false} CountAboveAppend(a: seq<int>, b: seq<int>, lo: int)
    ensures CountAbove(a + b, lo) == CountAbove(a, lo) + CountAbove(b, lo)
  {
    if a != [] {
      assert (a + b)[0] == a[0];
      assert (a + b)[1..] == a[1..] + b;
      CountAboveAppend(a[1..], b, lo);
    } else {
      assert a + b == b;
    }
  }

  lemma {:induction false} CountAboveNone(xs: seq<int>, lo: int)
    requires forall i :: 0 <= i < |xs| ==> xs[i] <= lo
    ensures CountAbove(xs, lo) == 0
  {
    if xs != [] {
      CountAboveNone(xs[1..], lo);
    }
  }

  lemma {:induction false} CountAboveAntitone(xs: seq<int>, lo1: int, lo2: int)
    requires lo1 <= lo2
    ensures CountAbove(xs, lo2) <= CountAbove(xs, lo1)
  {
    if xs != [] {
      CountAboveAntitone(xs[1..], lo1, lo2);
    }
  }

  lemma {:induction false} WindowCountBelowCountAbove(xs: seq<int>, w: int)
    ensures WindowCount(xs, w) <= CountAbove(xs, w - Window)
  {
    if xs != [] {
      WindowCountBelowCountAbove(xs[1..], w);
    }
  }

  // ---------------------------------------------------------------------
  // Runs of checks for one client

  /** The store after a run of checks, and the admitted times, newest first. */
  datatype Run = Run(store: Store, admitted: seq<int>)

  /** One client's checks at the given times, in order. */
  function RunChecks(s: Store, clientId: string, limit: int, times: seq<int>): Result<Run, StoreError>
    decreases |times|
  {
    if times == [] then Success(Run(s, []))
    else
      match RunChecks(s, clientId, limit, times[..|times| - 1])
      case Failure(e) => Failure(e)
      case Success(run) =>
        var t := times[|times| - 1];
        match IsRateLimited(run.store, clientId, t, limit)
        case Failure(e) => Failure(e)
        case Success(v) =>
          Success(Run(v.store, if v.limited then run.admitted else [t] + run.admitted))
  }

  /** What a run keeps true of the client's key: it holds the newest-first
      admitted times down to some point k, with expiry one window after the
      newest; everything below k was dropped by an expiry and is more than a
      window older than the entry just above it. */
  ghost predicate LogInvariant(s: Store, k: string, admitted: seq<int>)
  {
    if admitted == [] then k !in s
    else
      && (forall i :: 0 <= i < |admitted| ==> admitted[i] <= admitted[0])
      && k in s
      && s[k].expiry == Some(admitted[0] + Window)
      && s[k].value.List?
      && 1 <= |s[k].value.items| <= |admitted|
      && s[k].value.items == admitted[..|s[k].value.items|]
      && (forall i :: |s[k].value.items| <= i < |admitted| ==>
            admitted[i] < admitted[|s[k].value.items| - 1] - Window)
  }

  /** Under the invariant, the limiter's count at time t is the number of
      admitted times newer than t - Window. */
  lemma StoredCountIsAdmittedCount(s: Store, k: string, admitted: seq<int>, t: int)
    requires LogInvariant(s, k, admitted)
    requires admitted != [] ==> admitted[0] <= t
    ensures CountAbove(StoredLog(s, k, t), t - Window) == CountAbove(admitted, t - Window)
  {
    if admitted == [] {
    } else if LiveKey(s, k, t) {
      var n := |s[k].value.items|;
      assert admitted == admitted[..n] + admitted[n..];
      CountAboveAppend(admitted[..n], admitted[n..], t - Window);
      CountAboveNone(admitted[n..], t - Window);
    } else {
      CountAboveNone(admitted, t - Window);
    }
  }

  /** One more check keeps the invariant. */
  lemma StepKeepsInvariant(s: Store, clientId: string, admitted: seq<int>, t: int, limit: int)
    requires LogInvariant(s, Key(clientId), admitted)
    requires admitted != [] ==> admitted[0] <= t
    ensures IsRateLimited(s, clientId, t, limit).Success?
    ensures
      var v := IsRateLimited(s, clientId, t, limit).value;
      LogInvariant(v.store, Key(clientId), if v.limited then admitted else [t] + admitted)
  {
  }

  /** Admitting t when fewer than `limit` admitted times are newer than
      t - Window keeps every window within the limit. */
  lemma AdmitKeepsBound(admitted: seq<int>, t: int, limit: int)
    requires forall w :: WindowCount(admitted, w) <= limit
    requires CountAbove(admitted, t - Window) < limit
    ensures forall w :: WindowCount([t] + admitted, w) <= limit
  {
    forall w
      ensures WindowCount([t] + admitted, w) <= limit
    {
      assert ([t] + admitted)[1..] == admitted;
      if w - Window < t <= w {
        WindowCountBelowCountAbove(admitted, w);
        CountAboveAntitone(admitted, t - Window, w - Window);
      }
    }
  }

  /** Every window holds at most `limit` of the admitted times. */
  ghost predicate Bounded(admitted: seq<int>, limit: int)
  {
    forall w :: WindowCount(admitted, w) <= limit
  }

  /** What holds after a run whose last check was at time `last`. */
  ghost predicate GoodRun(run: Run, clientId: string, limit: int, last: int)
  {
    && LogInvariant(run.store, Key(clientId), run.admitted)
    && Bounded(run.admitted, if limit < 0 then 0 else limit)
    && (run.admitted != [] ==> run.admitted[0] <= last)
  }

  /** One more check at a time no earlier than the last keeps a run good. */
  lemma StepKeepsGood(run: Run, clientId: string, limit: int, last: int, t: int)
    requires GoodRun(run, clientId, limit, last)
    requires last <= t
    ensures IsRateLimited(run.store, clientId, t, limit).Success?
    ensures var v := IsRateLimited(run.store, clientId, t, limit).value;
      GoodRun(Run(v.store, if v.limited then run.admitted else [t] + run.admitted), clientId, limit, t)
  {
    StepKeepsInvariant(run.store, clientId, run.admitted, t, limit);
    var v := IsRateLimited(run.store, clientId, t, limit).value;
    if !v.limited {
      StoredCountIsAdmittedCount(run.store, Key(clientId), run.admitted, t);
      AdmitKeepsBound(run.admitted, t, if limit < 0 then 0 else limit);
    }
  }

  /** The guarantee of the sliding log: starting from a client with no key and
      with a clock that never goes back, no window (w - Window, w] ever holds
      more than `limit` admitted requests, whatever w is. */
  lemma {:induction false} SlidingLogBound(s: Store, clientId: string, limit: int, times: seq<int>)
    requires Key(clientId) !in s
    requires forall i, j :: 0 <= i < j < |times| ==> times[i] <= times[j]
    ensures var r := RunChecks(s, clientId, limit, times);
      && r.Success?
      && Bounded(r.value.admitted, if limit < 0 then 0 else limit)
      && (times != [] ==> GoodRun(r.value, clientId, limit, times[|times| - 1]))
  {
    if times != [] {
      var prefix := times[..|times| - 1];
      var t := times[|times| - 1];
      SlidingLogBound(s, clientId, limit, prefix);
      var run := RunChecks(s, clientId, limit, prefix).value;
      var last := if prefix == [] then t else prefix[|prefix| - 1];
      assert GoodRun(run, clientId, limit, last);
      StepKeepsGood(run, clientId, limit, last, t);
    }
  }
}
