/** The sliding-window limiter of `src/asic/api/rate_limit.py`: a bounded table of per-key hit
    queues with lazy pruning and an O(1) "nothing can expire yet" shortcut, proved to answer
    exactly as a limiter that keeps the whole admission log and no table at all.

    Time is a `real`; the clock readings of successive calls never decrease. */
module RateLimiting {

  datatype Config = Config(limit: int, window: real, maxKeys: int) {
    predicate Accepted() { limit >= 1 && window > 0.0 && maxKeys >= 1 }
  }

  /** A clock reading, or "minus infinity" before the first one. */
  datatype Instant = MinusInfinity | At(time: real) {
    predicate NotAfter(t: real) { MinusInfinity? || time <= t }
  }

  datatype Hit = Hit(key: string, at: real)
  datatype Call = Call(key: string, now: real)

  // ---------- The reference limiter: a function of the full admission log ----------

  /** The admissions of `key` later than `cutoff`, oldest first. */
  ghost function LiveTimes(log: seq<Hit>, key: string, cutoff: real): seq<real>
  {
    if log == [] then []
    else
      var rest := LiveTimes(log[..|log| - 1], key, cutoff);
      var last := log[|log| - 1];
      if last.key == key && last.at > cutoff then rest + [last.at] else rest
  }

  ghost function LiveKeys(log: seq<Hit>, cutoff: real): set<string>
  {
    if log == [] then {}
    else
      LiveKeys(log[..|log| - 1], cutoff)
      + if log[|log| - 1].at > cutoff then {log[|log| - 1].key} else {}
  }

  /** Admitting `key` would make it one live key too many. */
  ghost predicate KeyCeilingReached(c: Config, log: seq<Hit>, key: string, cutoff: real)
  {
    |LiveKeys(log, cutoff) - {key}| >= c.maxKeys
  }

  ghost predicate ReferenceAdmits(c: Config, log: seq<Hit>, key: string, now: real)
  {
    && |LiveTimes(log, key, now - c.window)| < c.limit
    && !KeyCeilingReached(c, log, key, now - c.window)
  }

  ghost predicate NonDecreasing(calls: seq<Call>)
  {
    forall i, j :: 0 <= i < j < |calls| ==> calls[i].now <= calls[j].now
  }

  /** The admission log after a sequence of calls, by the reference limiter alone. */
  ghost function ReferenceLog(c: Config, calls: seq<Call>): seq<Hit>
  {
    if calls == [] then []
    else
      var log := ReferenceLog(c, calls[..|calls| - 1]);
      var call := calls[|calls| - 1];
      if ReferenceAdmits(c, log, call.key, call.now) then log + [Hit(call.key, call.now)] else log
  }

  ghost function ReferenceAnswers(c: Config, calls: seq<Call>): seq<bool>
  {
    if calls == [] then []
    else
      var init, call := calls[..|calls| - 1], calls[|calls| - 1];
      ReferenceAnswers(c, init) + [ReferenceAdmits(c, ReferenceLog(c, init), call.key, call.now)]
  }

  // ---------- Filtering facts ----------

  /** The elements of a queue later than `cutoff`, in order. */
  ghost function Later(queue: seq<real>, cutoff: real): seq<real>
  {
    if queue == [] then []
    else
      var rest := Later(queue[..|queue| - 1], cutoff);
      if queue[|queue| - 1] > cutoff then rest + [queue[|queue| - 1]] else rest
  }

  ghost predicate SortedTimes(queue: seq<real>)
  {
    |queue| <= 1
    || (queue[|queue| - 2] <= queue[|queue| - 1] && SortedTimes(queue[..|queue| - 1]))
  }

  ghost function Newest(queue: seq<real>): real
  {
    if queue == [] then 0.0 else queue[|queue| - 1]
  }

  lemma {:induction false} SortedTail(queue: seq<real>)
    requires SortedTimes(queue) && queue != []
    ensures SortedTimes(queue[1..]) && queue[0] <= Newest(queue)
  {
    if |queue| > 1 {
      SortedTail(queue[..|queue| - 1]);
      assert queue[1..][..|queue| - 2] == queue[..|queue| - 1][1..];
    }
  }

  lemma {:induction false} LaterAppend(queue: seq<real>, t: real, cutoff: real)
    ensures Later(queue + [t], cutoff) == Later(queue, cutoff) + (if t > cutoff then [t] else [])
  {
    assert (queue + [t])[..|queue|] == queue;
  }

  lemma NothingLater(cutoff: real)
    ensures Later([], cutoff) == [] && SortedTimes([])
  {
  }

  lemma {:induction false} LaterAll(queue: seq<real>, cutoff: real)
    requires SortedTimes(queue) && (queue != [] ==> queue[0] > cutoff)
    ensures Later(queue, cutoff) == queue
  {
    NothingLater(cutoff);
    if queue != [] {
      var init, last := queue[..|queue| - 1], queue[|queue| - 1];
      SortedTail(queue);
      assert SortedTimes(init) && last > cutoff;
      hide SortedTimes, Later, Newest;
      LaterAll(init, cutoff);
      LaterAppend(init, last, cutoff);
      assert queue == init + [last];
    }
  }

  /** Dropping an expired head does not change what is later than the cutoff. */
  lemma {:induction false} LaterDropHead(queue: seq<real>, cutoff: real)
    requires queue != [] && queue[0] <= cutoff
    ensures Later(queue[1..], cutoff) == Later(queue, cutoff)
  {
    if |queue| > 1 {
      LaterDropHead(queue[..|queue| - 1], cutoff);
      assert queue[1..][..|queue| - 2] == queue[..|queue| - 1][1..];
    }
  }

  lemma {:induction false} LaterTwice(queue: seq<real>, early: real, late: real)
    requires early <= late
    ensures Later(Later(queue, early), late) == Later(queue, late)
  {
    if queue != [] {
      var init, last := queue[..|queue| - 1], queue[|queue| - 1];
      LaterTwice(init, early, late);
      LaterAppend(Later(init, early), last, late);
    }
  }

  lemma {:induction false} LiveTimesShrink(log: seq<Hit>, key: string, early: real, late: real)
    requires early <= late
    ensures LiveTimes(log, key, late) == Later(LiveTimes(log, key, early), late)
  {
    if log != [] {
      var last := log[|log| - 1];
      LiveTimesShrink(log[..|log| - 1], key, early, late);
      LaterAppend(LiveTimes(log[..|log| - 1], key, early), last.at, late);
    }
  }

  lemma LiveTimesAppend(log: seq<Hit>, h: Hit, key: string, cutoff: real)
    ensures LiveTimes(log + [h], key, cutoff)
         == LiveTimes(log, key, cutoff) + (if h.key == key && h.at > cutoff then [h.at] else [])
  {
    assert (log + [h])[..|log|] == log;
  }

  lemma {:induction false} LiveTimesNonEmpty(log: seq<Hit>, key: string, cutoff: real)
    ensures LiveTimes(log, key, cutoff) != [] <==> key in LiveKeys(log, cutoff)
  {
    if log != [] {
      var init, last := log[..|log| - 1], log[|log| - 1];
      LiveTimesNonEmpty(init, key, cutoff);
    }
  }

  // ---------- The table against the log ----------

  /** Every tracked queue is non-empty, sorted, in the past and within the limit. */
  ghost predicate QueueOk(c: Config, queue: seq<real>, now: real)
  {
    && 0 < |queue| <= c.limit
    && SortedTimes(queue)
    && Newest(queue) <= now
  }

  ghost predicate Agrees(hits: map<string, seq<real>>, log: seq<Hit>, k: string, cutoff: real)
  {
    LiveTimes(log, k, cutoff) == if k in hits then Later(hits[k], cutoff) else []
  }

  ghost predicate AgreeFrom(hits: map<string, seq<real>>, log: seq<Hit>, cutoff: real)
  {
    forall k :: Agrees(hits, log, k, cutoff)
  }

  /** The table and the log agree on everything inside the window that ends at `now`. */
  ghost predicate Consistent(c: Config, hits: map<string, seq<real>>, log: seq<Hit>, now: real)
  {
    && (forall k :: k in hits ==> QueueOk(c, hits[k], now))
    && AgreeFrom(hits, log, now - c.window)
  }

  /** No tracked key can expire before `pruneNotBefore`. */
  ghost predicate ShortcutSound(c: Config, hits: map<string, seq<real>>, pruneNotBefore: Instant, now: real)
  {
    && pruneNotBefore.NotAfter(now + c.window)
    && (forall k :: k in hits ==> pruneNotBefore.NotAfter(Newest(hits[k]) + c.window))
  }

  lemma ClockAdvances(c: Config, hits: map<string, seq<real>>, log: seq<Hit>, before: real, now: real)
    requires Consistent(c, hits, log, before) && before <= now
    ensures Consistent(c, hits, log, now)
    ensures forall p :: ShortcutSound(c, hits, p, before) ==> ShortcutSound(c, hits, p, now)
  {
    var early, late := before - c.window, now - c.window;
    forall k ensures Agrees(hits, log, k, late) {
      assert Agrees(hits, log, k, early);
      LiveTimesShrink(log, k, early, late);
      if k in hits { LaterTwice(hits[k], early, late); }
    }
  }

  lemma FreshTableConsistent(c: Config, now: real)
    ensures Consistent(c, map[], [], now) && ShortcutSound(c, map[], MinusInfinity, now)
  {
    var cutoff := now - c.window;
    forall k ensures Agrees(map[], [], k, cutoff) {}
  }

  lemma {:induction false} LaterNewest(queue: seq<real>, cutoff: real)
    requires SortedTimes(queue)
    ensures |Later(queue, cutoff)| <= |queue|
    ensures Later(queue, cutoff) != [] <==> queue != [] && Newest(queue) > cutoff
    ensures Later(queue, cutoff) != [] ==> Newest(Later(queue, cutoff)) == Newest(queue)
    ensures SortedTimes(Later(queue, cutoff))
  {
    if queue != [] {
      var init, last := queue[..|queue| - 1], queue[|queue| - 1];
      LaterNewest(init, cutoff);
      if last > cutoff {
        assert (Later(init, cutoff) + [last])[..|Later(init, cutoff)|] == Later(init, cutoff);
      }
    }
  }

  /** A key is live in the log exactly when the table tracks it with an unexpired newest hit. */
  lemma LiveKeysFromTable(c: Config, hits: map<string, seq<real>>, log: seq<Hit>, now: real)
    requires Consistent(c, hits, log, now)
    ensures LiveKeys(log, now - c.window) == set k | k in hits && Newest(hits[k]) > now - c.window
  {
    var cutoff := now - c.window;
    forall k ensures k in LiveKeys(log, cutoff) <==> k in hits && Newest(hits[k]) > cutoff {
      LiveTimesNonEmpty(log, k, cutoff);
      assert Agrees(hits, log, k, cutoff);
      if k in hits { LaterNewest(hits[k], cutoff); }
    }
  }

  ghost function Unexpired(hits: map<string, seq<real>>, cutoff: real): map<string, seq<real>>
  {
    map k | k in hits && hits[k] != [] && Newest(hits[k]) > cutoff :: hits[k]
  }

  lemma PruningKeepsAgreement(c: Config, hits: map<string, seq<real>>, log: seq<Hit>, now: real)
    requires Consistent(c, hits, log, now)
    ensures Consistent(c, Unexpired(hits, now - c.window), log, now)
  {
    hide LiveTimes;
    var cutoff := now - c.window;
    var kept := Unexpired(hits, cutoff);
    forall k ensures Agrees(kept, log, k, cutoff) {
      assert Agrees(hits, log, k, cutoff);
      if k in hits { LaterNewest(hits[k], cutoff); }
    }
  }

  lemma PrunedKeysAreLive(c: Config, hits: map<string, seq<real>>, log: seq<Hit>, now: real)
    requires Consistent(c, hits, log, now)
    ensures Unexpired(hits, now - c.window).Keys == LiveKeys(log, now - c.window)
    ensures |Unexpired(hits, now - c.window).Keys| <= |hits.Keys|
  {
    hide AgreeFrom;
    LiveKeysFromTable(c, hits, log, now);
    CardinalityMonotone(Unexpired(hits, now - c.window).Keys, hits.Keys);
  }

  lemma {:induction false} CardinalityMonotone<T>(a: set<T>, b: set<T>)
    requires a <= b
    ensures |a| <= |b|
  {
    assert b == a + (b - a);
  }

  /** The O(1) shortcut: before `pruneNotBefore` a prune would remove nothing. */
  lemma ShortcutSkipsNothing(c: Config, hits: map<string, seq<real>>, log: seq<Hit>, pruneNotBefore: Instant, now: real)
    requires Consistent(c, hits, log, now) && ShortcutSound(c, hits, pruneNotBefore, now)
    requires !pruneNotBefore.NotAfter(now)
    ensures Unexpired(hits, now - c.window) == hits
  {
    forall k | k in hits ensures Newest(hits[k]) > now - c.window {
      assert QueueOk(c, hits[k], now);
    }
    assert Unexpired(hits, now - c.window) == hits;
  }

  lemma NewShortcut(c: Config, hits: map<string, seq<real>>, oldest: real, now: real)
    requires forall k :: k in hits ==> QueueOk(c, hits[k], now)
    requires forall k :: k in hits ==> oldest <= Newest(hits[k])
    requires exists k :: k in hits && oldest == Newest(hits[k])
    ensures ShortcutSound(c, hits, At(oldest + c.window), now)
  {
    var k :| k in hits && oldest == Newest(hits[k]);
    assert QueueOk(c, hits[k], now);
  }

  /** Whether the key is tracked or not, a table with room answers the key-ceiling question. */
  lemma OtherKeysBounded(c: Config, hits: map<string, seq<real>>, log: seq<Hit>, key: string, now: real)
    requires Consistent(c, hits, log, now)
    requires |hits.Keys| <= c.maxKeys && HasRoom(c, hits, key)
    ensures !KeyCeilingReached(c, log, key, now - c.window)
  {
    LiveKeysFromTable(c, hits, log, now);
    var others := LiveKeys(log, now - c.window) - {key};
    CardinalityMonotone(others, hits.Keys - {key});
  }

  function Pushed(queue: seq<real>, t: real): seq<real> { queue + [t] }

  lemma PushedSorted(queue: seq<real>, now: real)
    requires SortedTimes(queue) && (queue != [] ==> Newest(queue) <= now)
    ensures SortedTimes(Pushed(queue, now)) && Newest(Pushed(queue, now)) == now
  {
    assert Pushed(queue, now)[..|queue|] == queue;
  }

  lemma TrackedQueueAgrees(c: Config, hits: map<string, seq<real>>, log: seq<Hit>, key: string, now: real)
    requires Consistent(c, hits, log, now)
    ensures LiveTimes(log, key, now - c.window) == if key in hits then Later(hits[key], now - c.window) else []
    ensures key in hits ==> QueueOk(c, hits[key], now)
  {
    hide Later, LiveTimes, SortedTimes, Newest, QueueOk;
    assert Agrees(hits, log, key, now - c.window);
  }

  /** The queue a call pops down to is the key's live history. */
  lemma PoppedQueue(c: Config, hits: map<string, seq<real>>, log: seq<Hit>, key: string, now: real, queue: seq<real>)
    requires Consistent(c, hits, log, now)
    requires queue == Later(if key in hits then hits[key] else [], now - c.window)
    ensures queue == LiveTimes(log, key, now - c.window) && |queue| <= |if key in hits then hits[key] else []|
    ensures queue != [] ==> key in hits && QueueOk(c, queue, now) && Newest(queue) == Newest(hits[key])
    ensures |queue| < c.limit ==> QueueOk(c, Pushed(queue, now), now)
  {
    hide Later, LiveTimes, SortedTimes, Newest, Consistent;
    TrackedQueueAgrees(c, hits, log, key, now);
    if key in hits {
      LaterNewest(hits[key], now - c.window);
      PushedSorted(queue, now);
    } else {
      NothingLater(now - c.window);
      PushedSorted([], now);
    }
  }

  lemma TrackedQueueSorted(c: Config, hits: map<string, seq<real>>, log: seq<Hit>, key: string, now: real)
    requires Consistent(c, hits, log, now)
    ensures SortedTimes(if key in hits then hits[key] else [])
  {
    assert key in hits ==> QueueOk(c, hits[key], now);
  }

  lemma ShortcutKept(c: Config, hits: map<string, seq<real>>, p: Instant, key: string, now: real, queue: seq<real>)
    requires ShortcutSound(c, hits, p, now)
    requires Newest(queue) == now || (key in hits && Newest(queue) == Newest(hits[key]))
    ensures ShortcutSound(c, hits[key := queue], p, now)
  {
  }

  /** A refused call leaves the queue popped down to the live hits. */
  lemma QueueTrimmed(c: Config, hits: map<string, seq<real>>, log: seq<Hit>, key: string, now: real, queue: seq<real>)
    requires Consistent(c, hits, log, now)
    requires queue == LiveTimes(log, key, now - c.window) && QueueOk(c, queue, now)
    ensures Consistent(c, hits[key := queue], log, now)
  {
    hide Later, LiveTimes, QueueOk;
    var cutoff := now - c.window;
    var trimmed := hits[key := queue];
    LiveTimesShrink(log, key, cutoff, cutoff);
    forall k ensures Agrees(trimmed, log, k, cutoff) {
      assert Agrees(hits, log, k, cutoff);
    }
  }

  lemma AppendAgrees(hits: map<string, seq<real>>, log: seq<Hit>, key: string, now: real, cutoff: real,
      queue: seq<real>)
    requires AgreeFrom(hits, log, cutoff) && now > cutoff
    requires queue == LiveTimes(log, key, cutoff)
    ensures AgreeFrom(hits[key := Pushed(queue, now)], log + [Hit(key, now)], cutoff)
  {
    hide Later, LiveTimes;
    var extended, log' := hits[key := Pushed(queue, now)], log + [Hit(key, now)];
    LiveTimesShrink(log, key, cutoff, cutoff);
    LaterAppend(queue, now, cutoff);
    forall k ensures Agrees(extended, log', k, cutoff) {
      assert Agrees(hits, log, k, cutoff);
      LiveTimesAppend(log, Hit(key, now), k, cutoff);
    }
  }

  /** An admitted call appends the same instant to the queue and to the log. */
  lemma QueueExtended(c: Config, hits: map<string, seq<real>>, log: seq<Hit>, key: string, now: real, queue: seq<real>)
    requires Consistent(c, hits, log, now) && c.window > 0.0
    requires queue == LiveTimes(log, key, now - c.window)
    requires QueueOk(c, Pushed(queue, now), now)
    ensures Consistent(c, hits[key := Pushed(queue, now)], log + [Hit(key, now)], now)
  {
    AppendAgrees(hits, log, key, now, now - c.window, queue);
  }

  // ---------- The limiter itself ----------

  lemma UpdatedTwice<K, V>(m: map<K, V>, k: K, v: V, w: V)
    ensures m[k := v][k := w] == m[k := w]
    ensures k in m && m[k] == v ==> m[k := v] == m
  {
  }

  /** No admission lies after the latest reading. */
  ghost predicate InPast(log: seq<Hit>, latest: real)
  {
    forall i :: 0 <= i < |log| ==> log[i].at <= latest
  }

  lemma InPastStays(log: seq<Hit>, before: real, key: string, now: real)
    requires InPast(log, before) && before <= now
    ensures InPast(log, now) && InPast(log + [Hit(key, now)], now)
  {
  }

  ghost predicate Untouched(hits: map<string, seq<real>>, log: seq<Hit>)
  {
    hits == map[] && log == []
  }

  /** What the table promises at the instant `now`. */
  ghost predicate TableOk(c: Config, hits: map<string, seq<real>>, log: seq<Hit>, p: Instant, now: real)
  {
    && |hits.Keys| <= c.maxKeys
    && InPast(log, now)
    && Consistent(c, hits, log, now)
    && ShortcutSound(c, hits, p, now)
  }

  /** The key is tracked or there is a place for it. */
  ghost predicate HasRoom(c: Config, hits: map<string, seq<real>>, key: string)
  {
    key in hits || |hits.Keys| < c.maxKeys
  }

  lemma TableBounded(c: Config, hits: map<string, seq<real>>, log: seq<Hit>, p: Instant, now: real)
    requires TableOk(c, hits, log, p, now)
    ensures |hits.Keys| <= c.maxKeys
  {
  }

  lemma RoomForKey(c: Config, hits: map<string, seq<real>>, key: string, queue: seq<real>)
    requires |hits.Keys| <= c.maxKeys && HasRoom(c, hits, key)
    ensures |hits[key := queue].Keys| <= c.maxKeys
  {
    assert hits[key := queue].Keys == hits.Keys + {key};
    if key in hits {
      assert hits.Keys + {key} == hits.Keys;
    }
  }

  /** The table as it stands is the table at a later reading; before the first it is empty. */
  lemma TableAdvances(c: Config, hits: map<string, seq<real>>, log: seq<Hit>, p: Instant, latest: Instant, now: real)
    requires c.Accepted() && latest.NotAfter(now)
    requires latest.MinusInfinity? ==> Untouched(hits, log) && p.MinusInfinity?
    requires latest.At? ==> TableOk(c, hits, log, p, latest.time)
    ensures TableOk(c, hits, log, p, now)
  {
    hide Consistent, ShortcutSound;
    if latest.At? {
      InPastStays(log, latest.time, "", now);
      ClockAdvances(c, hits, log, latest.time, now);
    } else {
      FreshTableConsistent(c, now);
    }
  }

  /** Under a consistent table the two ways of putting the rule agree. */
  lemma TableDecides(c: Config, hits: map<string, seq<real>>, log: seq<Hit>, p: Instant, key: string, now: real)
    requires TableOk(c, hits, log, p, now)
    ensures ReferenceAdmits(c, log, key, now) <==> UnderLimits(c, log, key, now)
    ensures ReferenceAdmits(c, log, key, now) <==>
            |LiveTimes(log, key, now - c.window)| < c.limit && !KeyCeilingReached(c, log, key, now - c.window)
  {
    hide Consistent, ShortcutSound, LiveTimes, KeyCeilingReached, UnderLimits;
    AdmitsIffUnderLimits(c, log, key, now);
  }

  lemma RoomMeansUnderCeiling(c: Config, hits: map<string, seq<real>>, log: seq<Hit>, p: Instant, key: string,
      now: real)
    requires TableOk(c, hits, log, p, now) && HasRoom(c, hits, key)
    ensures !KeyCeilingReached(c, log, key, now - c.window)
  {
    hide Consistent, ShortcutSound, KeyCeilingReached;
    OtherKeysBounded(c, hits, log, key, now);
  }

  /** The refusing half of a call. */
  lemma RefusedCall(c: Config, hits: map<string, seq<real>>, log: seq<Hit>, p: Instant, key: string, now: real,
      queue: seq<real>)
    requires c.Accepted() && TableOk(c, hits, log, p, now) && HasRoom(c, hits, key)
    requires queue == Later(if key in hits then hits[key] else [], now - c.window) && |queue| >= c.limit
    ensures TableOk(c, hits[key := queue], log, p, now)
    ensures |LiveTimes(log, key, now - c.window)| >= c.limit
  {
    hide Consistent, ShortcutSound, LiveTimes, Later, QueueOk;
    PoppedQueue(c, hits, log, key, now, queue);
    QueueTrimmed(c, hits, log, key, now, queue);
    ShortcutKept(c, hits, p, key, now, queue);
    RoomForKey(c, hits, key, queue);
  }

  /** The admitting half of a call. */
  lemma AdmittedCall(c: Config, hits: map<string, seq<real>>, log: seq<Hit>, p: Instant, key: string,
      now: real, queue: seq<real>)
    requires c.Accepted() && TableOk(c, hits, log, p, now) && HasRoom(c, hits, key)
    requires queue == Later(if key in hits then hits[key] else [], now - c.window) && |queue| < c.limit
    ensures TableOk(c, hits[key := Pushed(queue, now)], log + [Hit(key, now)], p, now)
    ensures |LiveTimes(log, key, now - c.window)| < c.limit
  {
    hide Consistent, ShortcutSound, LiveTimes, Later, QueueOk;
    InPastStays(log, now, key, now);
    PoppedQueue(c, hits, log, key, now, queue);
    QueueExtended(c, hits, log, key, now, queue);
    ShortcutKept(c, hits, p, key, now, Pushed(queue, now));
    RoomForKey(c, hits, key, Pushed(queue, now));
  }

  /** Refused or admitted, the table keeps its promise, and the log says which of the two it is. */
  lemma CallDecided(c: Config, hits: map<string, seq<real>>, log: seq<Hit>, p: Instant, key: string, now: real,
      queue: seq<real>)
    requires c.Accepted() && TableOk(c, hits, log, p, now) && HasRoom(c, hits, key)
    requires queue == Later(if key in hits then hits[key] else [], now - c.window)
    ensures |queue| < c.limit <==> |LiveTimes(log, key, now - c.window)| < c.limit
    ensures if |queue| < c.limit
            then TableOk(c, hits[key := Pushed(queue, now)], log + [Hit(key, now)], p, now)
            else TableOk(c, hits[key := queue], log, p, now)
  {
    hide TableOk, HasRoom, Later, LiveTimes;
    if |queue| < c.limit {
      AdmittedCall(c, hits, log, p, key, now, queue);
    } else {
      RefusedCall(c, hits, log, p, key, now, queue);
    }
  }

  /** The inner `while hits and hits[0] <= cutoff: hits.popleft()` loop. */
  method PopExpired(queue: seq<real>, cutoff: real) returns (rest: seq<real>)
    requires SortedTimes(queue)
    ensures rest == Later(queue, cutoff)
  {
    rest := queue;
    while rest != [] && rest[0] <= cutoff
      invariant SortedTimes(rest)
      invariant Later(rest, cutoff) == Later(queue, cutoff)
      decreases |rest|
    {
      LaterDropHead(rest, cutoff);
      SortedTail(rest);
      rest := rest[1..];
    }
    LaterAll(rest, cutoff);
  }

  class RateLimiter {
    const config: Config
    var hits: map<string, seq<real>>
    var pruneNotBefore: Instant
    /** Every admission ever made, and the reading of the latest call. */
    ghost var log: seq<Hit>
    ghost var lastNow: Instant

    ghost predicate Valid()
      reads this
    {
      && config.Accepted()
      && (lastNow.MinusInfinity? ==> Untouched(hits, log) && pruneNotBefore.MinusInfinity?)
      && (lastNow.At? ==> TableOk(config, hits, log, pruneNotBefore, lastNow.time))
    }

    constructor (config: Config)
      requires config.Accepted()
      ensures Valid() && this.config == config && log == [] && lastNow.MinusInfinity?
    {
      this.config := config;
      hits := map[];
      pruneNotBefore := MinusInfinity;
      log := [];
      lastNow := MinusInfinity;
    }

    /** `admit`: the answer is the reference limiter's, and the log grows exactly on success. */
    method Admit(key: string, now: real) returns (ok: bool)
      requires Valid() && lastNow.NotAfter(now)
      modifies this
      ensures Valid() && lastNow == At(now)
      ensures ok <==> ReferenceAdmits(config, old(log), key, now)
      ensures ok <==> UnderLimits(config, old(log), key, now)
      ensures log == if ok then old(log) + [Hit(key, now)] else old(log)
    {
      hide TableOk, Untouched, UnderLimits, ReferenceAdmits;
      TableAdvances(config, hits, log, pruneNotBefore, lastNow, now);
      TableDecides(config, hits, log, pruneNotBefore, key, now);
      lastNow := At(now);
      ok := Decide(key, now);
    }

    /** `admit` under the lock, with the reading taken. */
    method Decide(key: string, now: real) returns (ok: bool)
      requires config.Accepted() && lastNow == At(now)
      requires TableOk(config, hits, log, pruneNotBefore, now)
      modifies this`hits, this`log, this`pruneNotBefore
      ensures TableOk(config, hits, log, pruneNotBefore, now)
      ensures ok <==> ReferenceAdmits(config, old(log), key, now)
      ensures log == if ok then old(log) + [Hit(key, now)] else old(log)
    {
      hide TableOk, HasRoom, LiveTimes, KeyCeilingReached;
      var room := MakeRoom(key, now - config.window);
      if !room {
        return false;
      }
      RoomMeansUnderCeiling(config, hits, log, pruneNotBefore, key, now);
      ok := Record(key, now);
    }

    /** The first half of `admit`: a new key is refused only when the table is full of live keys. */
    method MakeRoom(key: string, cutoff: real) returns (room: bool)
      requires config.Accepted() && lastNow.At? && cutoff == lastNow.time - config.window
      requires TableOk(config, hits, log, pruneNotBefore, lastNow.time)
      modifies this`hits, this`pruneNotBefore
      ensures TableOk(config, hits, log, pruneNotBefore, lastNow.time)
      ensures room ==> HasRoom(config, hits, key)
      ensures !room ==> KeyCeilingReached(config, log, key, cutoff)
    {
      hide Consistent, ShortcutSound, LiveKeys;
      if key !in hits {
        if |hits.Keys| >= config.maxKeys {
          PruningKeepsAgreement(config, hits, log, lastNow.time);
          PrunedKeysAreLive(config, hits, log, lastNow.time);
          if pruneNotBefore.NotAfter(cutoff + config.window) {
            Prune(cutoff);
          } else {
            ShortcutSkipsNothing(config, hits, log, pruneNotBefore, lastNow.time);
          }
          if |hits.Keys| >= config.maxKeys {
            assert LiveKeys(log, cutoff) - {key} == hits.Keys;
            return false;
          }
        }
      }
      return true;
    }

    /** The second half of `admit`: pop what has left the window, then count. */
    method Record(key: string, now: real) returns (ok: bool)
      requires config.Accepted() && TableOk(config, hits, log, pruneNotBefore, now)
      requires HasRoom(config, hits, key)
      modifies this`hits, this`log
      ensures TableOk(config, hits, log, pruneNotBefore, now)
      ensures ok <==> |LiveTimes(old(log), key, now - config.window)| < config.limit
      ensures log == if ok then old(log) + [Hit(key, now)] else old(log)
    {
      TrackedQueueSorted(config, hits, log, key, now);
      hide TableOk, HasRoom, Untouched, LiveTimes, Later, SortedTimes, Pushed;
      ghost var table := hits;
      var queue := PopKey(key, now - config.window);
      CallDecided(config, table, log, pruneNotBefore, key, now, queue);
      if |queue| >= config.limit {
        return false;
      }
      UpdatedTwice(table, key, queue, Pushed(queue, now));
      hits := hits[key := Pushed(queue, now)];
      log := log + [Hit(key, now)];
      return true;
    }

    /** Tracks the key and drops its hits that have left the window. */
    method PopKey(key: string, cutoff: real) returns (queue: seq<real>)
      requires SortedTimes(if key in hits then hits[key] else [])
      modifies this`hits
      ensures queue == Later(if key in old(hits) then old(hits)[key] else [], cutoff)
      ensures hits == old(hits)[key := queue]
    {
      hide Later, SortedTimes;
      ghost var table := hits;
      if key !in hits {
        hits := hits[key := []];
      }
      UpdatedTwice(table, key, [], []);
      ghost var tracking := hits;
      queue := PopExpired(hits[key], cutoff);
      UpdatedTwice(table, key, tracking[key], queue);
      hits := hits[key := queue];
    }

    /** `_prune`: drops every expired key; if the table is still full, remembers when the least
        recently used key can first expire. */
    method Prune(cutoff: real)
      requires config.Accepted() && lastNow.At? && cutoff == lastNow.time - config.window
      requires Consistent(config, hits, log, lastNow.time)
      requires ShortcutSound(config, hits, pruneNotBefore, lastNow.time)
      modifies this`hits, this`pruneNotBefore
      ensures hits == Unexpired(old(hits), cutoff)
      ensures ShortcutSound(config, hits, pruneNotBefore, lastNow.time)
    {
      hide AgreeFrom;
      hits := DropExpired(hits, cutoff);
      if |hits.Keys| >= config.maxKeys {
        var oldest := OldestNewest(hits);
        NewShortcut(config, hits, oldest, lastNow.time);
        pruneNotBefore := At(oldest + config.window);
      }
    }

    /** `tracked_keys` */
    method TrackedKeys() returns (n: nat)
      requires Valid()
      ensures n == |hits.Keys| <= config.maxKeys
    {
      if lastNow.At? { TableBounded(config, hits, log, pruneNotBefore, lastNow.time); }
      n := |hits.Keys|;
    }
  }

  /** The deletion loop of `_prune`. */
  method DropExpired(hits: map<string, seq<real>>, cutoff: real) returns (kept: map<string, seq<real>>)
    ensures kept == Unexpired(hits, cutoff)
  {
    var doomed := set k | k in hits && (hits[k] == [] || hits[k][|hits[k]| - 1] <= cutoff);
    ghost var all := doomed;
    kept := hits;
    while doomed != {}
      invariant kept - doomed == hits - all
      decreases doomed
    {
      var k :| k in doomed;
      kept := kept - {k};
      doomed := doomed - {k};
    }
    assert kept == kept - doomed;
  }

  /** `min(h[-1] for h in self._hits.values())` */
  method OldestNewest(hits: map<string, seq<real>>) returns (oldest: real)
    requires hits != map[] && forall k :: k in hits ==> hits[k] != []
    ensures forall k :: k in hits ==> oldest <= Newest(hits[k])
    ensures exists k :: k in hits && oldest == Newest(hits[k])
  {
    var todo := hits.Keys;
    var first :| first in todo;
    ghost var least := first;
    oldest := hits[first][|hits[first]| - 1];
    todo := todo - {first};
    while todo != {}
      invariant todo <= hits.Keys
      invariant least in hits && oldest == Newest(hits[least])
      invariant forall k :: k in hits && k !in todo ==> oldest <= Newest(hits[k])
      decreases todo
    {
      var k :| k in todo;
      var newest := hits[k][|hits[k]| - 1];
      if newest < oldest {
        oldest := newest;
        least := k;
      }
      todo := todo - {k};
    }
  }

  lemma ReferenceStep(c: Config, calls: seq<Call>, i: nat, admits: bool)
    requires i < |calls|
    requires admits <==> ReferenceAdmits(c, ReferenceLog(c, calls[..i]), calls[i].key, calls[i].now)
    ensures ReferenceLog(c, calls[..i + 1])
         == if admits then ReferenceLog(c, calls[..i]) + [Hit(calls[i].key, calls[i].now)]
            else ReferenceLog(c, calls[..i])
    ensures ReferenceAnswers(c, calls[..i + 1]) == ReferenceAnswers(c, calls[..i]) + [admits]
  {
    assert calls[..i + 1][..i] == calls[..i];
  }

  /** The constructor as its callers meet it: `null` stands for the ValueError. */
  method Create(config: Config) returns (limiter: RateLimiter?)
    ensures limiter == null <==> config.limit < 1 || config.window <= 0.0 || config.maxKeys < 1
    ensures limiter != null ==> fresh(limiter) && limiter.Valid() && limiter.config == config
    ensures limiter != null ==> limiter.log == [] && limiter.lastNow.MinusInfinity?
  {
    if config.limit < 1 || config.window <= 0.0 || config.maxKeys < 1 {
      return null;
    }
    limiter := new RateLimiter(config);
  }

  /** Every run: the answers of the bounded table are those of the reference limiter. */
  method ServeAll(config: Config, calls: seq<Call>) returns (answers: seq<bool>)
    requires config.Accepted() && NonDecreasing(calls)
    ensures answers == ReferenceAnswers(config, calls)
    ensures |answers| == |calls|
    ensures forall i :: 0 <= i < |calls| ==>
              (answers[i] <==> UnderLimits(config, History(calls[..i], answers[..i]), calls[i].key, calls[i].now))
  {
    AnswersMean(config, calls);
    hide UnderLimits;
    answers := [];
    var limiter := new RateLimiter(config);
    for i := 0 to |calls|
      invariant limiter.Valid() && fresh(limiter) && limiter.config == config
      invariant i == 0 ==> limiter.lastNow.MinusInfinity?
      invariant i > 0 ==> limiter.lastNow == At(calls[i - 1].now)
      invariant limiter.log == ReferenceLog(config, calls[..i])
      invariant answers == ReferenceAnswers(config, calls[..i])
    {
      var ok := limiter.Admit(calls[i].key, calls[i].now);
      ReferenceStep(config, calls, i, ok);
      answers := answers + [ok];
    }
    assert calls[..|calls|] == calls;
  }

  // ---------- What the answers guarantee ----------

  /** The admissions of `key` in the half-open window `(from, to]`. */
  ghost function Admissions(log: seq<Hit>, key: string, from: real, to: real): nat
  {
    if log == [] then 0
    else
      var last := log[|log| - 1];
      Admissions(log[..|log| - 1], key, from, to)
      + if last.key == key && from < last.at <= to then 1 else 0
  }

  ghost function KeysIn(log: seq<Hit>, from: real, to: real): set<string>
  {
    if log == [] then {}
    else
      KeysIn(log[..|log| - 1], from, to)
      + if from < log[|log| - 1].at <= to then {log[|log| - 1].key} else {}
  }

  /** The rule of the limiter in terms of what was admitted: fewer than `limit` admissions of the key
      in the window that ends now, and fewer than `maxKeys` other keys admitted in it. */
  ghost predicate UnderLimits(c: Config, log: seq<Hit>, key: string, now: real)
  {
    && Admissions(log, key, now - c.window, now) < c.limit
    && |KeysIn(log, now - c.window, now) - {key}| < c.maxKeys
  }

  lemma {:induction false} LiveIsAdmitted(log: seq<Hit>, key: string, cutoff: real, now: real)
    requires InPast(log, now)
    ensures |LiveTimes(log, key, cutoff)| == Admissions(log, key, cutoff, now)
    ensures LiveKeys(log, cutoff) == KeysIn(log, cutoff, now)
  {
    if log != [] {
      assert log[|log| - 1].at <= now;
      LiveIsAdmitted(log[..|log| - 1], key, cutoff, now);
    }
  }

  lemma AdmitsIffUnderLimits(c: Config, log: seq<Hit>, key: string, now: real)
    requires InPast(log, now)
    ensures ReferenceAdmits(c, log, key, now) <==> UnderLimits(c, log, key, now)
  {
    hide LiveTimes, LiveKeys, Admissions, KeysIn;
    LiveIsAdmitted(log, key, now - c.window, now);
  }

  /** The admissions that a sequence of answers amounts to. */
  ghost function History(calls: seq<Call>, answers: seq<bool>): seq<Hit>
    requires |calls| == |answers|
  {
    if calls == [] then []
    else
      var n := |calls| - 1;
      History(calls[..n], answers[..n]) + if answers[n] then [Hit(calls[n].key, calls[n].now)] else []
  }

  lemma {:induction false} AnswersAreHistory(c: Config, calls: seq<Call>)
    ensures |ReferenceAnswers(c, calls)| == |calls|
    ensures ReferenceLog(c, calls) == History(calls, ReferenceAnswers(c, calls))
  {
    hide ReferenceAdmits;
    if calls != [] {
      var init, answers := calls[..|calls| - 1], ReferenceAnswers(c, calls);
      AnswersAreHistory(c, init);
      assert answers[..|calls| - 1] == ReferenceAnswers(c, init);
    }
  }

  lemma {:induction false} AnswersOfPrefix(c: Config, calls: seq<Call>, i: nat)
    requires i <= |calls|
    ensures |ReferenceAnswers(c, calls)| == |calls|
    ensures ReferenceAnswers(c, calls[..i]) == ReferenceAnswers(c, calls)[..i]
    decreases |calls|
  {
    hide ReferenceAdmits, ReferenceLog;
    if i == |calls| {
      assert calls[..i] == calls;
      AnswersLength(c, calls);
    } else {
      var init := calls[..|calls| - 1];
      AnswersOfPrefix(c, init, i);
      assert init[..i] == calls[..i];
    }
  }

  lemma {:induction false} AnswersLength(c: Config, calls: seq<Call>)
    ensures |ReferenceAnswers(c, calls)| == |calls|
  {
    if calls != [] { AnswersLength(c, calls[..|calls| - 1]); }
  }

  lemma {:induction false} LogInPast(c: Config, calls: seq<Call>, now: real)
    requires forall i :: 0 <= i < |calls| ==> calls[i].now <= now
    ensures InPast(ReferenceLog(c, calls), now)
  {
    hide ReferenceAdmits;
    if calls != [] { LogInPast(c, calls[..|calls| - 1], now); }
  }

  lemma AnswerMeans(c: Config, calls: seq<Call>, i: nat)
    requires NonDecreasing(calls) && i < |calls| && |ReferenceAnswers(c, calls)| == |calls|
    ensures ReferenceAnswers(c, calls)[i] <==>
            UnderLimits(c, History(calls[..i], ReferenceAnswers(c, calls)[..i]), calls[i].key, calls[i].now)
  {
    var upTo := calls[..i + 1];
    AnswersOfPrefix(c, calls, i + 1);
    AnswersOfPrefix(c, calls, i);
    AnswersAreHistory(c, calls[..i]);
    LogInPast(c, calls[..i], calls[i].now);
    AdmitsIffUnderLimits(c, ReferenceLog(c, calls[..i]), calls[i].key, calls[i].now);
    assert upTo[..i] == calls[..i] && upTo[i] == calls[i];
    hide UnderLimits, ReferenceAdmits, ReferenceLog, History;
    assert ReferenceAnswers(c, upTo)[i] == ReferenceAdmits(c, ReferenceLog(c, calls[..i]), calls[i].key, calls[i].now);
  }

  /** Every answer of the reference limiter is decided by its own earlier answers. */
  lemma AnswersMean(c: Config, calls: seq<Call>)
    requires NonDecreasing(calls)
    ensures |ReferenceAnswers(c, calls)| == |calls|
    ensures forall i :: 0 <= i < |calls| ==>
              (ReferenceAnswers(c, calls)[i] <==>
               UnderLimits(c, History(calls[..i], ReferenceAnswers(c, calls)[..i]), calls[i].key, calls[i].now))
  {
    AnswersLength(c, calls);
    hide UnderLimits, History, ReferenceAnswers, NonDecreasing;
    forall i | 0 <= i < |calls|
      ensures ReferenceAnswers(c, calls)[i] <==>
              UnderLimits(c, History(calls[..i], ReferenceAnswers(c, calls)[..i]), calls[i].key, calls[i].now)
    {
      AnswerMeans(c, calls, i);
    }
  }

  lemma {:induction false} AdmissionsAtMostLive(log: seq<Hit>, key: string, cutoff: real, from: real, to: real)
    requires cutoff <= from
    ensures Admissions(log, key, from, to) <= |LiveTimes(log, key, cutoff)|
  {
    if log != [] { AdmissionsAtMostLive(log[..|log| - 1], key, cutoff, from, to); }
  }

  lemma AdmissionsAfter(c: Config, log: seq<Hit>, call: Call, key: string, end: real)
    requires Admissions(log, key, end - c.window, end) <= c.limit
    requires |LiveTimes(log, call.key, call.now - c.window)| < c.limit
    ensures Admissions(log + [Hit(call.key, call.now)], key, end - c.window, end) <= c.limit
  {
    assert (log + [Hit(call.key, call.now)])[..|log|] == log;
    if call.now <= end {
      AdmissionsAtMostLive(log, key, call.now - c.window, end - c.window, end);
    }
  }

  lemma {:induction false} KeysInAreLive(log: seq<Hit>, cutoff: real, from: real, to: real)
    requires cutoff <= from
    ensures KeysIn(log, from, to) <= LiveKeys(log, cutoff)
  {
    if log != [] { KeysInAreLive(log[..|log| - 1], cutoff, from, to); }
  }

  lemma {:induction false} OneMoreKey(keys: set<string>, live: set<string>, key: string, max: int)
    requires keys <= live && |live - {key}| < max
    ensures |keys| <= max && |keys + {key}| <= max
  {
    var others := live - {key};
    assert |others + {key}| == |others| + 1;
    CardinalityMonotone(keys, others + {key});
    CardinalityMonotone(keys + {key}, others + {key});
  }

  lemma KeysInAppend(log: seq<Hit>, h: Hit, from: real, to: real)
    ensures KeysIn(log + [h], from, to)
         == if from < h.at <= to then KeysIn(log, from, to) + {h.key} else KeysIn(log, from, to)
  {
    assert (log + [h])[..|log|] == log;
  }

  lemma WindowKeysAfter(c: Config, log: seq<Hit>, call: Call, end: real)
    requires |KeysIn(log, end - c.window, end)| <= c.maxKeys
    requires !KeyCeilingReached(c, log, call.key, call.now - c.window)
    ensures |KeysIn(log + [Hit(call.key, call.now)], end - c.window, end)| <= c.maxKeys
  {
    hide KeysIn, LiveKeys;
    KeysInAppend(log, Hit(call.key, call.now), end - c.window, end);
    if call.now <= end {
      KeysInAreLive(log, call.now - c.window, end - c.window, end);
      OneMoreKey(KeysIn(log, end - c.window, end), LiveKeys(log, call.now - c.window), call.key, c.maxKeys);
    }
  }

  /** Over every run, no window of the configured length, wherever it ends, holds more than
      `limit` admissions of one key, nor admissions of more than `maxKeys` distinct keys. */
  lemma {:induction false} EveryWindowIsBounded(c: Config, calls: seq<Call>, key: string, end: real)
    requires c.Accepted()
    ensures Admissions(ReferenceLog(c, calls), key, end - c.window, end) <= c.limit
    ensures |KeysIn(ReferenceLog(c, calls), end - c.window, end)| <= c.maxKeys
  {
    hide Admissions, KeysIn, LiveTimes, KeyCeilingReached;
    if calls != [] {
      var init, call := calls[..|calls| - 1], calls[|calls| - 1];
      var log := ReferenceLog(c, init);
      EveryWindowIsBounded(c, init, key, end);
      if ReferenceAdmits(c, log, call.key, call.now) {
        AdmissionsAfter(c, log, call, key, end);
        WindowKeysAfter(c, log, call, end);
      }
    } else {
      NothingInEmptyLog(key, end - c.window, end);
    }
  }

  lemma NothingInEmptyLog(key: string, from: real, to: real)
    ensures Admissions([], key, from, to) == 0 && KeysIn([], from, to) == {}
  {
  }
}
