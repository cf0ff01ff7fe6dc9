/** `JwksClient.key_for`: a key-set cache shared by any number of threads. The lock is held only
    for the three short sections below, never across the network fetch, and every thread works
    with the clock reading it took on entry, so readings reach the lock in any order. */
module JwksCaching {
  import KSP = KeySetParsing
  import opened Wrappers

  type Kid = string

  datatype Config = Config(ttl: real, minRefresh: real, maxStale: real)

  /** A parsed key set and the reading its fetch was started with. */
  datatype KeySet = KeySet(keys: map<Kid, KSP.Key>, fetchedAt: real)

  /** The three mutable fields of the client. */
  datatype Cache = Cache(keys: Option<KeySet>, lastAttempt: Option<real>, refreshing: bool)

  /** A served answer remembers the key set it was read from. */
  datatype Answer =
    | Served(key: KSP.Key, source: KeySet)
    | KeysUnavailable
    | KeyIdUnknown
    | Crashed

  /** What a fetch brings back: a key set, a `KeySetError`, or an exception the client does not
      catch (its `finally` block still runs). */
  datatype Fetched = Keys(keys: map<Kid, KSP.Key>) | KeySetError | OtherError

  /** What the issuer sends, as far as `_fetch` can tell. */
  datatype Response = TransportFailed | NotOk | NotJson | Json(document: KSP.Document)

  /** A fetched key set is the parse of an accepted document. */
  ghost predicate FromDocument(f: Fetched)
  {
    f.Keys? ==> IsParsed(f.keys)
  }

  ghost predicate IsParsed(keys: map<Kid, KSP.Key>)
  {
    exists entries: seq<KSP.Entry> :: KSP.Acceptable(entries) && KSP.HoldsExactly(keys, entries)
  }

  datatype Verdict = Answered(answer: Answer) | MustFetch | MustReread

  // ---------- The three locked sections, as functions of the fields ----------

  predicate FreshHit(cfg: Config, c: Cache, kid: Kid, now: real)
  {
    c.keys.Some? && now - c.keys.value.fetchedAt < cfg.ttl && kid in c.keys.value.keys
  }

  predicate MayRefresh(cfg: Config, c: Cache, now: real)
  {
    !c.refreshing && (c.lastAttempt.None? || now - c.lastAttempt.value >= cfg.minRefresh)
  }

  function EnterVerdict(cfg: Config, c: Cache, kid: Kid, now: real): Verdict
  {
    if FreshHit(cfg, c, kid, now) then Answered(Served(c.keys.value.keys[kid], c.keys.value))
    else if MayRefresh(cfg, c, now) then MustFetch
    else MustReread
  }

  function AfterEnter(cfg: Config, c: Cache, kid: Kid, now: real): Cache
  {
    if EnterVerdict(cfg, c, kid, now).MustFetch?
    then c.(lastAttempt := Some(now), refreshing := true)
    else c
  }

  function AfterFetch(cfg: Config, c: Cache, now: real, f: Fetched): Cache
  {
    var keys :=
      if f.Keys? then Some(KeySet(f.keys, now))
      else if c.keys.None? || now - c.keys.value.fetchedAt > cfg.maxStale then None
      else c.keys;
    c.(keys := keys, refreshing := false)
  }

  function FinalAnswer(cfg: Config, c: Cache, kid: Kid, now: real): Answer
  {
    if c.keys.None? || now - c.keys.value.fetchedAt > cfg.maxStale then KeysUnavailable
    else if kid !in c.keys.value.keys then KeyIdUnknown
    else Served(c.keys.value.keys[kid], c.keys.value)
  }

  // ---------- The client object ----------

  class JwksClient {
    const cfg: Config
    var keys: Option<KeySet>
    var lastAttempt: Option<real>
    var refreshing: bool

    constructor (cfg: Config)
      ensures this.cfg == cfg && State() == Cache(None, None, false)
    {
      this.cfg := cfg;
      keys, lastAttempt, refreshing := None, None, false;
    }

    ghost function State(): Cache
      reads this
    {
      Cache(keys, lastAttempt, refreshing)
    }

    /** First locked section. */
    method Enter(kid: Kid, now: real) returns (v: Verdict)
      modifies this
      ensures v == EnterVerdict(cfg, old(State()), kid, now)
      ensures State() == AfterEnter(cfg, old(State()), kid, now)
      ensures v.Answered? <==>
                old(keys).Some? && now - old(keys).value.fetchedAt < cfg.ttl && kid in old(keys).value.keys
      ensures v.Answered? ==> v.answer == Served(old(keys).value.keys[kid], old(keys).value)
      ensures v.MustFetch? <==>
                && !v.Answered? && !old(refreshing)
                && (old(lastAttempt) == None || now - old(lastAttempt).value >= cfg.minRefresh)
      ensures v.MustFetch? ==> refreshing && lastAttempt == Some(now) && keys == old(keys)
      ensures !v.MustFetch? ==> State() == old(State())
    {
      var cached := keys;
      if cached.Some? && now - cached.value.fetchedAt < cfg.ttl && kid in cached.value.keys {
        return Answered(Served(cached.value.keys[kid], cached.value));
      }
      var refresh := !refreshing && (lastAttempt.None? || now - lastAttempt.value >= cfg.minRefresh);
      if refresh {
        lastAttempt := Some(now);
        refreshing := true;
        return MustFetch;
      }
      return MustReread;
    }

    /** `_fetch`, between the first two sections: whatever goes wrong before the document is parsed,
        and a document that `_parse` refuses, is a `KeySetError`. */
    method Fetch(response: Response) returns (f: Fetched)
      ensures f.Keys? <==> response.Json? && response.document.KeyList? && KSP.Acceptable(response.document.entries)
      ensures f.Keys? ==> KSP.HoldsExactly(f.keys, response.document.entries)
      ensures FromDocument(f) && (!f.Keys? ==> f == KeySetError)
    {
      if !response.Json? {
        return KeySetError;
      }
      var parsed := KSP.Parse(response.document);
      if parsed.None? {
        return KeySetError;
      }
      return Keys(parsed.value);
    }

    /** Second locked section, in the `finally` block of the fetch. */
    method FinishFetch(now: real, f: Fetched)
      modifies this
      ensures State() == AfterFetch(cfg, old(State()), now, f)
      ensures !refreshing && lastAttempt == old(lastAttempt) && (f.Keys? ==> keys == Some(KeySet(f.keys, now)))
      ensures !f.Keys? ==>
                keys == if old(keys).Some? && now - old(keys).value.fetchedAt <= cfg.maxStale then old(keys) else None
    {
      refreshing := false;
      if f.Keys? {
        keys := Some(KeySet(f.keys, now));
      } else if keys.None? || now - keys.value.fetchedAt > cfg.maxStale {
        keys := None;
      }
    }

    /** Third locked section and the checks after it. */
    method Reread(kid: Kid, now: real) returns (a: Answer)
      ensures a == FinalAnswer(cfg, State(), kid, now)
      ensures a.KeysUnavailable? <==> keys == None || now - keys.value.fetchedAt > cfg.maxStale
      ensures !a.KeysUnavailable? ==>
                a == if kid in keys.value.keys then Served(keys.value.keys[kid], keys.value) else KeyIdUnknown
    {
      var current := keys;
      if current.None? || now - current.value.fetchedAt > cfg.maxStale {
        return KeysUnavailable;
      }
      if kid !in current.value.keys {
        return KeyIdUnknown;
      }
      return Served(current.value.keys[kid], current.value);
    }
  }

  // ---------- Any number of threads ----------

  type Tid = nat

  /** Where one call of `key_for` stands; `now` is the reading it took before the first lock. */
  datatype Pc =
    | Idle
    | Called(kid: Kid, now: real)
    | Fetching(kid: Kid, now: real)
    | Rereading(kid: Kid, now: real)
    | Done(kid: Kid, now: real, answer: Answer)

  /** `attempts`, `installed` and `fetched` only record what happened. */
  datatype System = System(
    cache: Cache, pc: map<Tid, Pc>,
    attempts: seq<real>, installed: seq<real>, fetched: set<KeySet>)

  datatype Action =
    | Call(t: Tid, kid: Kid, now: real)
    | Enter(t: Tid)
    | EndFetch(t: Tid, result: Fetched)
    | Reread(t: Tid)

  ghost const Initial := System(Cache(None, None, false), map[], [], [], {})

  ghost function PcOf(s: System, t: Tid): Pc
  {
    if t in s.pc then s.pc[t] else Idle
  }

  ghost predicate Enabled(s: System, a: Action)
  {
    match a
    case Call(t, kid, now) => PcOf(s, t).Idle? || PcOf(s, t).Done?
    case Enter(t) => PcOf(s, t).Called?
    case EndFetch(t, f) => PcOf(s, t).Fetching?
    case Reread(t) => PcOf(s, t).Rereading?
  }

  ghost function Step(cfg: Config, s: System, a: Action): System
    requires Enabled(s, a)
  {
    match a
    case Call(t, kid, now) => s.(pc := s.pc[t := Called(kid, now)])
    case Enter(t) =>
      var Called(kid, now) := PcOf(s, t);
      var v := EnterVerdict(cfg, s.cache, kid, now);
      var next := match v
        case Answered(answer) => Done(kid, now, answer)
        case MustFetch => Fetching(kid, now)
        case MustReread => Rereading(kid, now);
      s.(cache := AfterEnter(cfg, s.cache, kid, now),
         pc := s.pc[t := next],
         attempts := if v.MustFetch? then s.attempts + [now] else s.attempts)
    case EndFetch(t, f) =>
      var Fetching(kid, now) := PcOf(s, t);
      var next := if f.OtherError? then Done(kid, now, Crashed) else Rereading(kid, now);
      s.(cache := AfterFetch(cfg, s.cache, now, f),
         pc := s.pc[t := next],
         installed := if f.Keys? then s.installed + [now] else s.installed,
         fetched := if f.Keys? then s.fetched + {KeySet(f.keys, now)} else s.fetched)
    case Reread(t) =>
      var Rereading(kid, now) := PcOf(s, t);
      s.(pc := s.pc[t := Done(kid, now, FinalAnswer(cfg, s.cache, kid, now))])
  }

  /** The actions are possible one after the other from `s`. */
  ghost predicate Runs(cfg: Config, s: System, actions: seq<Action>)
    decreases |actions|
  {
    actions == [] || (Enabled(s, actions[0]) && Runs(cfg, Step(cfg, s, actions[0]), actions[1..]))
  }

  ghost function After(cfg: Config, s: System, actions: seq<Action>): System
    requires Runs(cfg, s, actions)
    decreases |actions|
  {
    if actions == [] then s else After(cfg, Step(cfg, s, actions[0]), actions[1..])
  }

  // ---------- What every interleaving keeps ----------

  ghost function Last(times: seq<real>): real
  {
    if times == [] then 0.0 else times[|times| - 1]
  }

  ghost predicate SpacedBy(times: seq<real>, gap: real)
  {
    forall i {:trigger times[i]} :: 0 < i < |times| ==> times[i] - times[i - 1] >= gap
  }

  ghost predicate Increasing(times: seq<real>)
  {
    forall i, j :: 0 <= i < j < |times| ==> times[i] < times[j]
  }

  /** The flag is up exactly while one thread is fetching, and that thread's reading is the
      latest recorded attempt. */
  ghost predicate SingleFlight(s: System)
  {
    && (s.cache.refreshing <==> exists t :: PcOf(s, t).Fetching?)
    && (forall t, u :: PcOf(s, t).Fetching? && PcOf(s, u).Fetching? ==> t == u)
    && (forall t :: PcOf(s, t).Fetching? ==> s.cache.lastAttempt == Some(PcOf(s, t).now))
  }

  ghost predicate AttemptsRecorded(cfg: Config, s: System)
  {
    && SpacedBy(s.attempts, cfg.minRefresh)
    && s.cache.lastAttempt == (if s.attempts == [] then None else Some(Last(s.attempts)))
  }

  ghost predicate InstallsRecorded(s: System)
  {
    && Increasing(s.installed)
    && (s.installed != [] ==>
          && s.attempts != []
          && Last(s.installed) <= Last(s.attempts)
          && (s.cache.refreshing ==> Last(s.installed) < Last(s.attempts)))
    && (s.cache.keys.Some? ==>
          s.installed != [] && s.cache.keys.value.fetchedAt == Last(s.installed))
  }

  ghost predicate CacheFetched(s: System)
  {
    s.cache.keys.Some? ==> s.cache.keys.value in s.fetched
  }

  ghost predicate ServedHonestly(cfg: Config, s: System, t: Tid)
  {
    var p := PcOf(s, t);
    p.Done? && p.answer.Served? ==>
      && p.answer.source in s.fetched
      && p.kid in p.answer.source.keys && p.answer.source.keys[p.kid] == p.answer.key
      && (p.now - p.answer.source.fetchedAt < cfg.ttl || p.now - p.answer.source.fetchedAt <= cfg.maxStale)
  }

  ghost predicate Invariant(cfg: Config, s: System)
  {
    && SingleFlight(s)
    && AttemptsRecorded(cfg, s)
    && (cfg.minRefresh > 0.0 ==> InstallsRecorded(s))
    && CacheFetched(s)
    && (forall t :: ServedHonestly(cfg, s, t))
  }

  lemma StepKeepsSingleFlight(cfg: Config, s: System, a: Action)
    requires Enabled(s, a) && SingleFlight(s)
    ensures SingleFlight(Step(cfg, s, a))
  {
    var s' := Step(cfg, s, a);
    forall u | u != a.t ensures PcOf(s', u) == PcOf(s, u) {}
    if s'.cache.refreshing {
      if s.cache.refreshing && !a.EndFetch? {
        var t :| PcOf(s, t).Fetching?;
        assert PcOf(s', t).Fetching?;
      } else {
        assert PcOf(s', a.t).Fetching?;
      }
    }
  }

  lemma StepKeepsAttempts(cfg: Config, s: System, a: Action)
    requires Enabled(s, a) && AttemptsRecorded(cfg, s)
    ensures AttemptsRecorded(cfg, Step(cfg, s, a))
  {
    hide EnterVerdict;
    if a.Enter? {
      var now := PcOf(s, a.t).now;
      if MayRefresh(cfg, s.cache, now) {
        assert SpacedBy(s.attempts + [now], cfg.minRefresh);
      }
      EnterFetchesOnlyWhenAllowed(cfg, s.cache, PcOf(s, a.t).kid, now);
    }
  }

  lemma EnterFetchesOnlyWhenAllowed(cfg: Config, c: Cache, kid: Kid, now: real)
    ensures EnterVerdict(cfg, c, kid, now).MustFetch? ==> MayRefresh(cfg, c, now)
    ensures EnterVerdict(cfg, c, kid, now).MustFetch? <== MayRefresh(cfg, c, now) && !FreshHit(cfg, c, kid, now)
  {
  }

  /** A fetch installs under the reading of the latest attempt, which is later than any set
      installed before. */
  lemma StepKeepsInstalls(cfg: Config, s: System, a: Action)
    requires Enabled(s, a) && cfg.minRefresh > 0.0
    requires SingleFlight(s) && AttemptsRecorded(cfg, s) && InstallsRecorded(s)
    ensures InstallsRecorded(Step(cfg, s, a))
  {
    if a.EndFetch? {
      var now := PcOf(s, a.t).now;
      assert s.cache.lastAttempt == Some(now) && s.cache.refreshing;
      if a.result.Keys? {
        forall i, j | 0 <= i < j < |s.installed + [now]|
          ensures (s.installed + [now])[i] < (s.installed + [now])[j]
        {
          if j == |s.installed| && i < j - 1 {
            assert s.installed[i] < s.installed[j - 1];
          }
        }
      }
    } else if a.Enter? {
      EnterFetchesOnlyWhenAllowed(cfg, s.cache, PcOf(s, a.t).kid, PcOf(s, a.t).now);
    }
  }

  lemma StepKeepsHonesty(cfg: Config, s: System, a: Action, t: Tid)
    requires Enabled(s, a) && CacheFetched(s) && ServedHonestly(cfg, s, t)
    ensures ServedHonestly(cfg, Step(cfg, s, a), t) && CacheFetched(Step(cfg, s, a))
  {
  }

  /** Every interleaving of any number of threads keeps the invariant. */
  lemma {:induction false} EveryRunKeepsInvariant(cfg: Config, s: System, actions: seq<Action>)
    requires Invariant(cfg, s) && Runs(cfg, s, actions)
    ensures Invariant(cfg, After(cfg, s, actions))
    decreases |actions|
  {
    hide SingleFlight, AttemptsRecorded, InstallsRecorded, ServedHonestly, CacheFetched, Step;
    if actions != [] {
      var a := actions[0];
      StepKeepsSingleFlight(cfg, s, a);
      StepKeepsAttempts(cfg, s, a);
      if cfg.minRefresh > 0.0 { StepKeepsInstalls(cfg, s, a); }
      StepKeepsHonesty(cfg, s, a, a.t);
      forall t ensures ServedHonestly(cfg, Step(cfg, s, a), t) {
        StepKeepsHonesty(cfg, s, a, t);
      }
      EveryRunKeepsInvariant(cfg, Step(cfg, s, a), actions[1..]);
    }
  }

  /** Reachable from the start, by any interleaving. */
  ghost predicate Reachable(cfg: Config, s: System)
  {
    exists actions :: Runs(cfg, Initial, actions) && After(cfg, Initial, actions) == s
  }

  lemma ReachableInvariant(cfg: Config, s: System)
    requires Reachable(cfg, s)
    ensures Invariant(cfg, s)
  {
    var actions :| Runs(cfg, Initial, actions) && After(cfg, Initial, actions) == s;
    EveryRunKeepsInvariant(cfg, Initial, actions);
  }

  /** Every set installed was started later than all sets installed before it. */
  ghost predicate InstallsIncrease(cfg: Config)
  {
    forall s :: Reachable(cfg, s) ==> Increasing(s.installed)
  }

  /** Two fetches of a set without the wanted key, both started at time zero. */
  ghost function TwinFetches(): seq<Action>
  {
    var half := [Call(0, "k", 0.0), Enter(0), EndFetch(0, Keys(map[]))];
    half + [Reread(0)] + half
  }

  lemma TwinFetchesRun(cfg: Config)
    requires cfg.minRefresh <= 0.0
    ensures Runs(cfg, Initial, TwinFetches()) && After(cfg, Initial, TwinFetches()).installed == [0.0, 0.0]
  {
    var acts := TwinFetches();
    var s1 := Step(cfg, Initial, acts[0]);
    var s2 := Step(cfg, s1, acts[1]);
    var s3 := Step(cfg, s2, acts[2]);
    var s4 := Step(cfg, s3, acts[3]);
    var s5 := Step(cfg, s4, acts[4]);
    var s6 := Step(cfg, s5, acts[5]);
    var s7 := Step(cfg, s6, acts[6]);
    hide Step, Enabled;
    RunsFrom(cfg, s6, acts, 6, s7);
    RunsFrom(cfg, s5, acts, 5, s6);
    RunsFrom(cfg, s4, acts, 4, s5);
    RunsFrom(cfg, s3, acts, 3, s4);
    RunsFrom(cfg, s2, acts, 2, s3);
    RunsFrom(cfg, s1, acts, 1, s2);
    RunsFrom(cfg, Initial, acts, 0, s1);
    assert acts[0..] == acts;
  }

  /** A run from its last action backwards. */
  lemma RunsFrom(cfg: Config, s: System, actions: seq<Action>, i: nat, s': System)
    requires i < |actions| && Enabled(s, actions[i]) && Step(cfg, s, actions[i]) == s'
    requires Runs(cfg, s', actions[i + 1..])
    ensures Runs(cfg, s, actions[i..]) && After(cfg, s, actions[i..]) == After(cfg, s', actions[i + 1..])
  {
    assert actions[i..][1..] == actions[i + 1..];
  }

  /** Installed key sets follow one another in time exactly when refreshes are throttled at all. */
  lemma InstallsIncreaseIff(cfg: Config)
    ensures InstallsIncrease(cfg) <==> cfg.minRefresh > 0.0
  {
    if cfg.minRefresh > 0.0 {
      forall s | Reachable(cfg, s) ensures Increasing(s.installed) {
        ReachableInvariant(cfg, s);
      }
    } else {
      TwinFetchesRun(cfg);
      var s := After(cfg, Initial, TwinFetches());
      assert Reachable(cfg, s);
      assert !(s.installed[0] < s.installed[1]);
    }
  }

  // ---------- Throttling ----------

  ghost function CountWithin(times: seq<real>, from: real, to: real): nat
  {
    if times == [] then 0
    else
      CountWithin(times[..|times| - 1], from, to)
      + if from <= Last(times) <= to then 1 else 0
  }

  lemma {:induction false} CountBefore(times: seq<real>, from: real, to: real, cap: real)
    requires forall i :: 0 <= i < |times| ==> times[i] <= cap
    requires cap <= to
    ensures CountWithin(times, from, to) == CountWithin(times, from, cap)
  {
    if times != [] { CountBefore(times[..|times| - 1], from, to, cap); }
  }

  lemma {:induction false} SpacedBelowLast(times: seq<real>, gap: real, i: nat)
    requires SpacedBy(times, gap) && gap > 0.0 && i < |times| - 1
    ensures times[i] <= Last(times) - gap
    decreases |times| - i
  {
    assert times[i + 1] - times[i] >= gap;
    if i + 1 < |times| - 1 { SpacedBelowLast(times, gap, i + 1); }
  }

  ghost function Gaps(n: int, gap: real): real
  {
    n as real * gap
  }

  lemma OneMoreGap(n: int, gap: real)
    ensures Gaps(n, gap) == Gaps(n - 1, gap) + gap && Gaps(0, gap) == 0.0
  {
    assert n as real == (n - 1) as real + 1.0;
  }

  lemma {:induction false} SpacedCount(times: seq<real>, gap: real, from: real, to: real)
    requires SpacedBy(times, gap) && gap > 0.0 && CountWithin(times, from, to) > 0
    ensures Gaps(CountWithin(times, from, to) - 1, gap) <= to - from
    decreases |times|
  {
    hide Gaps;
    var init := times[..|times| - 1];
    assert SpacedBy(init, gap);
    if from <= Last(times) <= to {
      var cap := Last(times) - gap;
      forall i | 0 <= i < |init| ensures init[i] <= cap { SpacedBelowLast(times, gap, i); }
      CountBefore(init, from, to, cap);
      var n := CountWithin(init, from, cap);
      assert CountWithin(times, from, to) == n + 1;
      OneMoreGap(n, gap);
      if n > 0 {
        SpacedCount(init, gap, from, cap);
      }
    } else {
      SpacedCount(init, gap, from, to);
    }
  }

  lemma MulMonotone(x: real, y: real, gap: real)
    requires gap > 0.0 && x < y
    ensures x * gap < y * gap
  {
    assert (y - x) * gap > 0.0;
  }

  lemma CountFromGaps(n: int, gap: real, length: real)
    requires gap > 0.0 && Gaps(n, gap) <= length
    ensures n <= (length / gap).Floor
  {
    var q := length / gap;
    assert q * gap == length;
    if q < n as real {
      MulMonotone(q, n as real, gap);
    }
  }

  /** In every run, a period of length L holds at most floor(L / minRefresh) + 1 recorded fetch
      attempts, wherever it starts. */
  lemma FetchesAreThrottled(cfg: Config, s: System, from: real, length: real)
    requires cfg.minRefresh > 0.0 && Reachable(cfg, s) && length >= 0.0
    ensures CountWithin(s.attempts, from, from + length) <= (length / cfg.minRefresh).Floor + 1
  {
    ReachableInvariant(cfg, s);
    var n := CountWithin(s.attempts, from, from + length);
    if n > 0 {
      SpacedCount(s.attempts, cfg.minRefresh, from, from + length);
      CountFromGaps(n - 1, cfg.minRefresh, length);
    }
  }

  // ---------- Staleness ----------

  /** Every answer ever served comes from a fetched set no older than `maxStale`, by the reading
      of the thread that got it. */
  ghost predicate NeverTooStale(cfg: Config)
  {
    forall s, t :: Reachable(cfg, s) && PcOf(s, t).Done? && PcOf(s, t).answer.Served? ==>
      && PcOf(s, t).answer.source in s.fetched
      && PcOf(s, t).now - PcOf(s, t).answer.source.fetchedAt <= cfg.maxStale
  }

  lemma StaleBoundHolds(cfg: Config)
    requires cfg.ttl <= cfg.maxStale
    ensures NeverTooStale(cfg)
  {
    forall s, t | Reachable(cfg, s) && PcOf(s, t).Done? && PcOf(s, t).answer.Served?
      ensures PcOf(s, t).answer.source in s.fetched
      ensures PcOf(s, t).now - PcOf(s, t).answer.source.fetchedAt <= cfg.maxStale
    {
      ReachableInvariant(cfg, s);
      assert ServedHonestly(cfg, s, t);
    }
  }

  /** A run that serves a key `age` seconds old from the fresh-cache path. */
  ghost function AgedRun(age: real): seq<Action>
  {
    [Call(0, "k", 0.0), Enter(0), EndFetch(0, Keys(map["k" := KSP.Key(0)])), Call(1, "k", age), Enter(1)]
  }

  lemma AgedRunServes(cfg: Config, age: real)
    requires age < cfg.ttl
    ensures Runs(cfg, Initial, AgedRun(age))
    ensures PcOf(After(cfg, Initial, AgedRun(age)), 1)
         == Done("k", age, Served(KSP.Key(0), KeySet(map["k" := KSP.Key(0)], 0.0)))
  {
    var acts := AgedRun(age);
    var s1 := Step(cfg, Initial, acts[0]);
    var s2 := Step(cfg, s1, acts[1]);
    var s3 := Step(cfg, s2, acts[2]);
    var s4 := Step(cfg, s3, acts[3]);
    var s5 := Step(cfg, s4, acts[4]);
    hide Step, Enabled;
    RunsFrom(cfg, s4, acts, 4, s5);
    RunsFrom(cfg, s3, acts, 3, s4);
    RunsFrom(cfg, s2, acts, 2, s3);
    RunsFrom(cfg, s1, acts, 1, s2);
    RunsFrom(cfg, Initial, acts, 0, s1);
    assert acts[0..] == acts;
  }

  /** The staleness bound is a matter of configuration: it holds exactly when `ttl <= maxStale`,
      because the fresh-cache path compares against `ttl` only. */
  lemma StaleBoundIff(cfg: Config)
    ensures NeverTooStale(cfg) <==> cfg.ttl <= cfg.maxStale
  {
    if cfg.ttl <= cfg.maxStale {
      StaleBoundHolds(cfg);
    } else {
      var age := (cfg.ttl + cfg.maxStale) / 2.0;
      AgedRunServes(cfg, age);
      var s := After(cfg, Initial, AgedRun(age));
      assert Reachable(cfg, s);
      assert PcOf(s, 1).Done? && PcOf(s, 1).answer.Served?;
    }
  }

  // ---------- From the document to the caller ----------

  ghost predicate AllFromDocuments(actions: seq<Action>)
  {
    forall i :: 0 <= i < |actions| && actions[i].EndFetch? ==> FromDocument(actions[i].result)
  }

  ghost predicate FetchedSetsParsed(s: System)
  {
    forall ks :: ks in s.fetched ==> IsParsed(ks.keys)
  }

  lemma {:induction false} RunKeepsParsed(cfg: Config, s: System, actions: seq<Action>)
    requires Runs(cfg, s, actions) && AllFromDocuments(actions) && FetchedSetsParsed(s)
    ensures FetchedSetsParsed(After(cfg, s, actions))
    decreases |actions|
  {
    hide IsParsed;
    if actions != [] {
      var a := actions[0];
      assert a.EndFetch? ==> FromDocument(a.result);
      RunKeepsParsed(cfg, Step(cfg, s, a), actions[1..]);
    }
  }

  /** The key is that of a signing entry, under its own `kid`, of a document the parser accepts. */
  ghost predicate IsSigningKey(kid: Kid, key: KSP.Key)
  {
    exists entries, i :: IsSigningEntry(entries, i, kid, key)
  }

  ghost predicate IsSigningEntry(entries: seq<KSP.Entry>, i: nat, kid: Kid, key: KSP.Key)
  {
    && KSP.Acceptable(entries) && i < |entries| && KSP.Signing(entries[i])
    && entries[i].kid == KSP.Text(kid) && entries[i].material == Some(key)
  }

  lemma ParsedKeyIsSigning(keys: map<Kid, KSP.Key>, kid: Kid)
    requires IsParsed(keys) && kid in keys
    ensures IsSigningKey(kid, keys[kid])
  {
    var entries: seq<KSP.Entry> :| KSP.Acceptable(entries) && KSP.HoldsExactly(keys, entries);
    var i :| 0 <= i < |entries| && KSP.Signing(entries[i]) && entries[i].kid == KSP.Text(kid);
    assert KSP.WellFormed(entries[i]);
    assert IsSigningEntry(entries, i, kid, keys[kid]);
  }

  /** From end to end, over every interleaving: each key that is served is the key of a signing entry,
      under its own `kid`, of a document that was fetched and accepted, and that fetch started no
      longer ago than the caller's path allows. */
  lemma ServedKeysAreSigningKeys(cfg: Config, actions: seq<Action>, t: Tid)
    requires Runs(cfg, Initial, actions) && AllFromDocuments(actions)
    requires PcOf(After(cfg, Initial, actions), t).Done? && PcOf(After(cfg, Initial, actions), t).answer.Served?
    ensures var s, p := After(cfg, Initial, actions), PcOf(After(cfg, Initial, actions), t);
            var age := p.now - p.answer.source.fetchedAt;
            && p.answer.source in s.fetched && IsParsed(p.answer.source.keys)
            && IsSigningKey(p.kid, p.answer.key)
            && (age < cfg.ttl || age <= cfg.maxStale)
  {
    var s, p := After(cfg, Initial, actions), PcOf(After(cfg, Initial, actions), t);
    RunKeepsParsed(cfg, Initial, actions);
    assert Reachable(cfg, s);
    ReachableInvariant(cfg, s);
    assert ServedHonestly(cfg, s, t);
    hide IsParsed, IsSigningKey;
    ParsedKeyIsSigning(p.answer.source.keys, p.kid);
  }

  /** However a fetch ends, the refresh is over and only its own call moves on: to the last section, or
      out of the client with an exception it does not catch. */
  lemma FetchAlwaysEnds(cfg: Config, s: System, t: Tid, f: Fetched)
    requires PcOf(s, t).Fetching?
    ensures var p, s' := PcOf(s, t), Step(cfg, s, EndFetch(t, f));
            && !s'.cache.refreshing && s'.cache.lastAttempt == s.cache.lastAttempt && s'.attempts == s.attempts
            && PcOf(s', t) == (if f == OtherError then Done(p.kid, p.now, Crashed) else Rereading(p.kid, p.now))
            && (forall u :: u != t ==> PcOf(s', u) == PcOf(s, u))
            && s'.installed == s.installed + (if f.Keys? then [p.now] else [])
  {
  }

  // ---------- New keys are found ----------

  /** From every reachable state in which nobody is fetching and the last attempt, if any, is
      `minRefresh` back, a call for a key that is not freshly cached fetches; and if the issuer then
      answers with a set that holds the key, the call ends with it. (For a negative `maxStale` not
      even a set fetched at that instant is served.) */
  lemma RefreshFindsKey(cfg: Config, s: System, t: Tid, keys: map<Kid, KSP.Key>)
    requires Reachable(cfg, s) && PcOf(s, t).Called? && forall u :: !PcOf(s, u).Fetching?
    requires s.attempts == [] || PcOf(s, t).now - s.attempts[|s.attempts| - 1] >= cfg.minRefresh
    requires s.cache.keys.Some? ==>
               PcOf(s, t).now - s.cache.keys.value.fetchedAt >= cfg.ttl || PcOf(s, t).kid !in s.cache.keys.value.keys
    requires PcOf(s, t).kid in keys
    ensures var p, actions := PcOf(s, t), [Enter(t), EndFetch(t, Keys(keys)), Reread(t)];
            && Runs(cfg, s, actions)
            && After(cfg, s, actions).attempts == s.attempts + [p.now]
            && PcOf(After(cfg, s, actions), t) ==
                 Done(p.kid, p.now,
                      if cfg.maxStale >= 0.0 then Served(keys[p.kid], KeySet(keys, p.now)) else KeysUnavailable)
  {
    var acts := [Enter(t), EndFetch(t, Keys(keys)), Reread(t)];
    ReachableInvariant(cfg, s);
    assert !s.cache.refreshing;
    var s1 := Step(cfg, s, acts[0]);
    var s2 := Step(cfg, s1, acts[1]);
    var s3 := Step(cfg, s2, acts[2]);
    hide Step, Enabled, Reachable, Invariant;
    RunsFrom(cfg, s2, acts, 2, s3);
    RunsFrom(cfg, s1, acts, 1, s2);
    RunsFrom(cfg, s, acts, 0, s1);
    assert acts[0..] == acts;
  }

  // ---------- Availability during an issuer outage ----------

  /** No thread has yet read a clock beyond the point where `set` must be dropped. */
  ghost predicate ReadingsWithin(cfg: Config, s: System, ks: KeySet)
  {
    forall t :: (PcOf(s, t).Called? || PcOf(s, t).Fetching? || PcOf(s, t).Rereading?) ==>
      PcOf(s, t).now - ks.fetchedAt <= cfg.maxStale
  }

  /** No fetch succeeds, and no new call reads a clock beyond the bound. */
  ghost predicate Outage(cfg: Config, actions: seq<Action>, ks: KeySet)
  {
    forall i :: 0 <= i < |actions| ==>
      && (actions[i].EndFetch? ==> !actions[i].result.Keys?)
      && (actions[i].Call? ==> actions[i].now - ks.fetchedAt <= cfg.maxStale)
  }

  /** A finished call of the outage was answered from `ks`, or its own fetch raised. */
  ghost predicate AnsweredFrom(p: Pc, ks: KeySet, crashed: bool)
  {
    p.Done? ==> p.answer == (if p.kid in ks.keys then Served(ks.keys[p.kid], ks) else KeyIdUnknown)
                || (crashed && p.answer.Crashed?)
  }

  /** During an outage that starts with `ks` cached, whatever the interleaving and however fetches
      fail: the cache keeps `ks`, and every call that ends during the outage is answered from `ks`,
      so a cached `kid` is always served, unless the call's own fetch raised an exception that the
      client does not catch. Calls that had already ended keep their answers. */
  lemma {:induction false} OutageServesCachedKeys(cfg: Config, s: System, actions: seq<Action>, ks: KeySet)
    requires s.cache.keys == Some(ks) && ReadingsWithin(cfg, s, ks)
    requires Runs(cfg, s, actions) && Outage(cfg, actions, ks)
    ensures After(cfg, s, actions).cache.keys == Some(ks)
    ensures forall t :: PcOf(After(cfg, s, actions), t) == PcOf(s, t)
                     || AnsweredFrom(PcOf(After(cfg, s, actions), t), ks, EndFetch(t, OtherError) in actions)
    decreases |actions|
  {
    if actions != [] {
      var a, rest := actions[0], actions[1..];
      var s' := Step(cfg, s, a);
      OutageStep(cfg, s, a, ks);
      OutageServesCachedKeys(cfg, s', rest, ks);
      var end := After(cfg, s', rest);
      forall t
        ensures PcOf(end, t) == PcOf(s, t) || AnsweredFrom(PcOf(end, t), ks, EndFetch(t, OtherError) in actions)
      {
        assert PcOf(end, t) == PcOf(s', t) || AnsweredFrom(PcOf(end, t), ks, EndFetch(t, OtherError) in rest);
      }
    }
  }

  lemma OutageStep(cfg: Config, s: System, a: Action, ks: KeySet)
    requires s.cache.keys == Some(ks) && ReadingsWithin(cfg, s, ks)
    requires Enabled(s, a) && Outage(cfg, [a], ks)
    ensures Step(cfg, s, a).cache.keys == Some(ks) && ReadingsWithin(cfg, Step(cfg, s, a), ks)
    ensures forall t :: PcOf(Step(cfg, s, a), t) == PcOf(s, t)
                     || AnsweredFrom(PcOf(Step(cfg, s, a), t), ks, a == EndFetch(t, OtherError))
  {
    assert [a][0] == a;
    var s' := Step(cfg, s, a);
    assert PcOf(s, a.t).Fetching? ==> PcOf(s, a.t).now - ks.fetchedAt <= cfg.maxStale;
    forall t ensures PcOf(s', t) == PcOf(s, t) || AnsweredFrom(PcOf(s', t), ks, a == EndFetch(t, OtherError)) {
      assert PcOf(s, t).Rereading? ==> PcOf(s, t).now - ks.fetchedAt <= cfg.maxStale;
    }
  }
}
