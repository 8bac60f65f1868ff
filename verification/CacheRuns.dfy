// The server cache under concurrent lookups: threads interleave freely, a refresh runs under the
// write lock, a read under the read lock.
module CacheRuns {
  import opened Wrappers
  import opened Servers
  import opened Instances

  type Thread = nat

  /** A listing that was fetched: the clock at the freshness check of the refresh that asked for it
      and when it arrived. */
  datatype Completion = Completion(listing: seq<Server>, checked: Time, at: Time)

  /** Where a lookup is; `checked` is the clock at its freshness check. */
  datatype Phase =
    | Idle
    | Checking                                                               // holds the write lock
    | Fetching(checked: Time)                                                // holds it; the cache is stale
    | Indexed(checked: Time, fetched: Completion, newCache: map<string, Server>)  // holds it; new index built
    | Swapped(checked: Time, fetched: Completion)                            // holds it; cacheTime not yet set
    | Reading(checked: Time)                                                 // lock released, refresh succeeded

  datatype State = State(
    clock: Time,
    cache: map<string, Server>,
    cacheTime: Time,
    holder: Option<Thread>,
    phases: map<Thread, Phase>,
    source: Completion,          // the listing behind the cache
    completed: seq<Completion>)  // listings fetched so far

  datatype Action =
    | Tick(now: Time)
    | Lock(t: Thread)
    | FindFresh(t: Thread)
    | FindStale(t: Thread)
    | FetchFails(t: Thread)
    | FetchSucceeds(t: Thread, listing: seq<Server>, newCache: map<string, Server>)
    | SwapCache(t: Thread)
    | SetTime(t: Thread)
    | Read(t: Thread, ip: string, found: Option<Server>)
    | Finish(t: Thread)

  function PhaseOf(s: State, t: Thread): Phase
  {
    if t in s.phases then s.phases[t] else Idle
  }

  predicate HoldsLock(p: Phase)
  {
    p.Checking? || p.Fetching? || p.Indexed? || p.Swapped?
  }

  ghost predicate Step(s: State, a: Action, s': State, ttl: Time)
  {
    match a
    case Tick(now) => s.clock <= now && s' == s.(clock := now)
    case Lock(t) =>
      PhaseOf(s, t).Idle? && s.holder.None? &&
      s' == s.(holder := Some(t), phases := s.phases[t := Checking])
    case FindFresh(t) =>
      PhaseOf(s, t).Checking? && s.clock - s.cacheTime < ttl &&
      s' == s.(holder := None, phases := s.phases[t := Reading(s.clock)])
    case FindStale(t) =>
      PhaseOf(s, t).Checking? && s.clock - s.cacheTime >= ttl &&
      s' == s.(phases := s.phases[t := Fetching(s.clock)])
    case FetchFails(t) =>
      PhaseOf(s, t).Fetching? &&
      s' == s.(holder := None, phases := s.phases[t := Idle])
    case FetchSucceeds(t, listing, newCache) =>
      PhaseOf(s, t).Fetching? && IsIndexOf(newCache, listing) &&
      var fetched := Completion(listing, PhaseOf(s, t).checked, s.clock);
      s' == s.(phases := s.phases[t := Indexed(PhaseOf(s, t).checked, fetched, newCache)],
               completed := s.completed + [fetched])
    case SwapCache(t) =>
      PhaseOf(s, t).Indexed? &&
      s' == s.(cache := PhaseOf(s, t).newCache, source := PhaseOf(s, t).fetched,
               phases := s.phases[t := Swapped(PhaseOf(s, t).checked, PhaseOf(s, t).fetched)])
    case SetTime(t) =>
      PhaseOf(s, t).Swapped? &&
      s' == s.(cacheTime := s.clock, holder := None, phases := s.phases[t := Reading(PhaseOf(s, t).checked)])
    case Read(t, ip, found) =>
      PhaseOf(s, t).Reading? && s.holder.None? && found == LookUp(s.cache, ip) && s' == s
    case Finish(t) =>
      PhaseOf(s, t).Reading? && s' == s.(phases := s.phases[t := Idle])
  }

  /** The clock starts at least one time to live after the zero time. */
  ghost predicate Init(s: State, ttl: Time)
  {
    && s.clock >= ttl > 0 && s.cache == map[] && s.cacheTime == 0 && s.holder.None?
    && s.phases == map[] && s.source == Completion([], 0, 0) && s.completed == []
  }

  /*** The invariant ***/

  /** The lock excludes. */
  ghost predicate Exclusive(s: State)
  {
    forall t: Thread :: HoldsLock(PhaseOf(s, t)) <==> s.holder == Some(t)
  }

  ghost predicate NoSwapPending(s: State)
  {
    forall t: Thread :: !PhaseOf(s, t).Swapped?
  }

  /** The listing arrived after the freshness check that led to it and by the given time. */
  ghost predicate Arrived(s: State, c: Completion, time: Time)
  {
    c in s.completed && c.checked <= c.at <= time
  }

  /** The cache is always the index of one listing, which arrived by cacheTime except in the moment
      between the two assignments of a refresh. */
  ghost predicate WholeListing(s: State)
  {
    && IsIndexOf(s.cache, s.source.listing)
    && (s.cacheTime > 0 && NoSwapPending(s) ==> Arrived(s, s.source, s.cacheTime))
    && (forall t: Thread :: PhaseOf(s, t).Swapped? ==>
          PhaseOf(s, t).fetched == s.source && Arrived(s, s.source, s.clock))
    && (forall t: Thread :: PhaseOf(s, t).Indexed? ==>
          IsIndexOf(PhaseOf(s, t).newCache, PhaseOf(s, t).fetched.listing) &&
              Arrived(s, PhaseOf(s, t).fetched, s.clock))
  }

  predicate HasChecked(p: Phase)
  {
    p.Fetching? || p.Indexed? || p.Swapped? || p.Reading?
  }

  /** A reader's freshness check came less than a time to live after cacheTime, or before it. */
  ghost predicate FreshForReaders(s: State, ttl: Time)
  {
    && 0 < ttl <= s.clock && 0 <= s.cacheTime <= s.clock
    && (forall t: Thread :: HasChecked(PhaseOf(s, t)) ==> ttl <= PhaseOf(s, t).checked <= s.clock)
    && (forall t: Thread :: PhaseOf(s, t).Reading? ==> PhaseOf(s, t).checked - s.cacheTime < ttl)
  }

  ghost predicate Inv(s: State, ttl: Time)
  {
    Exclusive(s) && WholeListing(s) && FreshForReaders(s, ttl)
  }

  lemma OtherThreadsStay(s: State, a: Action, s': State, ttl: Time)
    requires Step(s, a, s', ttl)
    ensures forall t: Thread {:trigger PhaseOf(s', t)} :: a.Tick? || t != a.t ==> PhaseOf(s', t) == PhaseOf(s, t)
  {
  }

  lemma StepKeepsExclusive(s: State, a: Action, s': State, ttl: Time)
    requires Exclusive(s) && Step(s, a, s', ttl)
    ensures Exclusive(s')
  {
  }

  lemma StepKeepsFresh(s: State, a: Action, s': State, ttl: Time)
    requires FreshForReaders(s, ttl) && Step(s, a, s', ttl)
    ensures FreshForReaders(s', ttl)
    ensures s.cacheTime <= s'.cacheTime
  {
    OtherThreadsStay(s, a, s', ttl);
    assert !a.Tick? && HasChecked(PhaseOf(s, a.t)) ==> ttl <= PhaseOf(s, a.t).checked <= s.clock;
  }

  lemma SwapIsPending(s: State, a: Action, s': State, ttl: Time)
    requires Step(s, a, s', ttl)
    ensures a.SwapCache? ==> !NoSwapPending(s')
  {
    if a.SwapCache? {
      assert PhaseOf(s', a.t).Swapped?;
    }
  }

  /** While no swap is pending only SetTime changes cacheTime, and only SwapCache the source. */
  lemma StepKeepsSource(s: State, a: Action, s': State, ttl: Time)
    requires Inv(s, ttl) && Step(s, a, s', ttl)
    ensures s.completed <= s'.completed && s.clock <= s'.clock
    ensures a.SetTime? ==> PhaseOf(s, a.t).fetched == s.source == s'.source && s'.cacheTime == s.clock
    ensures !a.SetTime? ==> s'.cacheTime == s.cacheTime
    ensures NoSwapPending(s') && !a.SetTime? ==> NoSwapPending(s) && s'.source == s.source
  {
    OtherThreadsStay(s, a, s', ttl);
    SwapIsPending(s, a, s', ttl);
    if NoSwapPending(s') && !a.SetTime? {
      forall t: Thread ensures !PhaseOf(s, t).Swapped? {
        assert !PhaseOf(s', t).Swapped?;
      }
    }
  }

  lemma StepKeepsWhole(s: State, a: Action, s': State, ttl: Time)
    requires Inv(s, ttl) && Step(s, a, s', ttl)
    ensures WholeListing(s')
  {
    hide IsIndexOf;
    StepKeepsSource(s, a, s', ttl);
    OtherThreadsStay(s, a, s', ttl);
    assert forall c :: c in s.completed ==> c in s'.completed;
    if !a.Tick? {
      assert PhaseOf(s, a.t).Indexed? ==> Arrived(s, PhaseOf(s, a.t).fetched, s.clock);
      assert PhaseOf(s, a.t).Swapped? ==> Arrived(s, s.source, s.clock);
      assert HasChecked(PhaseOf(s, a.t)) ==> PhaseOf(s, a.t).checked <= s.clock;
    }
    if a.SwapCache? {
      forall t: Thread | t != a.t ensures !PhaseOf(s', t).Swapped? {
        assert PhaseOf(s, a.t).Indexed? && s.holder == Some(a.t);
      }
    }
  }

  lemma StepKeepsInv(s: State, a: Action, s': State, ttl: Time)
    requires Inv(s, ttl) && Step(s, a, s', ttl)
    ensures Inv(s', ttl)
  {
    StepKeepsExclusive(s, a, s', ttl);
    StepKeepsFresh(s, a, s', ttl);
    StepKeepsWhole(s, a, s', ttl);
  }

  /*** Runs ***/

  /** Consecutive steps from any state. */
  ghost predicate Path(states: seq<State>, actions: seq<Action>, ttl: Time)
  {
    && |states| == |actions| + 1
    && forall i | 0 <= i < |actions| :: Step(states[i], actions[i], states[i + 1], ttl)
  }

  ghost predicate Run(states: seq<State>, actions: seq<Action>, ttl: Time)
  {
    Path(states, actions, ttl) && Init(states[0], ttl)
  }

  lemma {:induction false} RunKeepsInv(states: seq<State>, actions: seq<Action>, ttl: Time, i: nat)
    requires Run(states, actions, ttl) && i < |states|
    ensures Inv(states[i], ttl)
  {
    hide Inv, Step;
    if i == 0 {
      InitHasInv(states[0], ttl);
    } else {
      RunKeepsInv(states, actions, ttl, i - 1);
      StepKeepsInv(states[i - 1], actions[i - 1], states[i], ttl);
    }
  }

  lemma InitHasInv(s: State, ttl: Time)
    requires Init(s, ttl)
    ensures Inv(s, ttl)
  {
  }

  lemma ReaderSeesNoSwap(s: State, a: Action, s': State, ttl: Time)
    requires Inv(s, ttl) && Step(s, a, s', ttl) && a.Read?
    ensures NoSwapPending(s) && s.cacheTime > 0
  {
    assert forall t: Thread :: PhaseOf(s, t).Swapped? ==> s.holder == Some(t);
  }

  /*** Freshness ***/

  /** Every refresh sets cacheTime at most d after its listing arrived. */
  ghost predicate Prompt(states: seq<State>, actions: seq<Action>, d: Time)
    requires |states| == |actions| + 1
  {
    forall k | 0 <= k < |actions| && actions[k].SetTime? && PhaseOf(states[k], actions[k].t).Swapped? ::
      states[k].clock - PhaseOf(states[k], actions[k].t).fetched.at <= d
  }

  /** Step k is the one that set the cacheTime of s, and its refresh fetched the listing of s. */
  ghost predicate SetBy(states: seq<State>, actions: seq<Action>, s: State, k: nat)
    requires |states| == |actions| + 1
  {
    && k < |actions| && actions[k].SetTime? && s.cacheTime == states[k].clock
    && PhaseOf(states[k], actions[k].t).Swapped? && PhaseOf(states[k], actions[k].t).fetched == s.source
  }

  /** Unless a swap is pending, the listing behind the cache is the one fetched by the very refresh
      that set cacheTime. */
  lemma {:induction false} SourceSetsTime(states: seq<State>, actions: seq<Action>, ttl: Time, i: nat) returns (k: nat)
    requires Run(states, actions, ttl) && i < |states|
    requires states[i].cacheTime > 0 && NoSwapPending(states[i])
    ensures k < i && SetBy(states, actions, states[i], k)
  {
    hide Inv, Step, NoSwapPending;
    if i == 0 {
      assert false;
    } else {
      RunKeepsInv(states, actions, ttl, i - 1);
      StepKeepsSource(states[i - 1], actions[i - 1], states[i], ttl);
      if actions[i - 1].SetTime? {
        k := i - 1;
        SetTimeSwapped(states[k], actions[k], states[i], ttl);
      } else {
        k := SourceSetsTime(states, actions, ttl, i - 1);
      }
    }
  }

  lemma SetTimeSwapped(s: State, a: Action, s': State, ttl: Time)
    requires Step(s, a, s', ttl) && a.SetTime?
    ensures PhaseOf(s, a.t).Swapped?
  {
  }

  /** Every read in every schedule answers from the complete index of one listing, the one fetched
      by the refresh that set cacheTime, after that refresh's own freshness check.  It arrived less
      than ttl + d before the reader's freshness check, or later, when every refresh sets cacheTime
      at most d after its listing arrived. */
  lemma ReadsAreFreshAndWhole(states: seq<State>, actions: seq<Action>, ttl: Time, d: Time, i: nat) returns (k: nat)
    requires Run(states, actions, ttl) && i < |actions| && actions[i].Read?
    ensures var s, a := states[i], actions[i];
      && PhaseOf(s, a.t).Reading? && PhaseOf(s, a.t).checked - s.cacheTime < ttl
      && k < i && SetBy(states, actions, s, k)
      && Arrived(s, s.source, s.cacheTime) && a.found == LastOwner(s.source.listing, a.ip)
      && (Prompt(states, actions, d) ==> PhaseOf(s, a.t).checked - s.source.at < ttl + d)
  {
    RunKeepsInv(states, actions, ttl, i);
    var s, a := states[i], actions[i];
    assert Step(s, a, states[i + 1], ttl);
    ReaderSeesNoSwap(s, a, states[i + 1], ttl);
    k := SourceSetsTime(states, actions, ttl, i);
  }

  /** The read's listing arrived less than a time to live before the reader's freshness check, or
      later. */
  ghost predicate MeetsTtl(s: State, a: Action, ttl: Time)
  {
    a.Read? && PhaseOf(s, a.t).Reading? ==> PhaseOf(s, a.t).checked - s.source.at < ttl
  }

  /** In all runs with refreshes that prompt, all reads meet the time to live. */
  ghost predicate AlwaysMeetsTtl(ttl: Time, d: Time)
  {
    forall states, actions, i | Run(states, actions, ttl) && Prompt(states, actions, d) && 0 <= i < |actions| ::
      MeetsTtl(states[i], actions[i], ttl)
  }

  /** The time to live bounds the age of the listings if and only if no time passes between the
      arrival of a listing and the setting of cacheTime. */
  lemma TtlHoldsIffPrompt(ttl: Time, d: Time)
    requires ttl > 0 && d >= 0
    ensures AlwaysMeetsTtl(ttl, d) <==> d == 0
  {
    if d == 0 {
      forall states: seq<State>, actions: seq<Action>, i | Run(states, actions, ttl) &&
          Prompt(states, actions, d) && 0 <= i < |actions|
        ensures MeetsTtl(states[i], actions[i], ttl)
      {
        if actions[i].Read? {
          var _ := ReadsAreFreshAndWhole(states, actions, ttl, d, i);
        }
      }
    } else {
      var states, actions := LateRun(ttl, d);
      assert !MeetsTtl(states[9], actions[9], ttl);
    }
  }

  /** The listing arrives at ttl and cacheTime is set d later; a reader checks just before the time
      to live has passed and gets a listing that is ttl + d - 1 old: the bound is tight. */
  lemma LateRun(ttl: Time, d: Time) returns (states: seq<State>, actions: seq<Action>)
    requires ttl > 0 && d >= 0
    ensures Run(states, actions, ttl) && Prompt(states, actions, d)
    ensures |actions| == 10 && actions[9].Read? && PhaseOf(states[9], actions[9].t).Reading?
    ensures PhaseOf(states[9], actions[9].t).checked - states[9].source.at == ttl + d - 1
  {
    hide Path, Prompt, IsIndexOf;
    var s0 := State(ttl, map[], 0, None, map[], Completion([], 0, 0), []);
    NoSteps(s0, ttl, d);
    states, actions := LateRefresh(s0, ttl, d);
    var s6 := states[6];
    var s7 := s6.(clock := ttl + d + ttl - 1);
    var s8 := s7.(holder := Some(1), phases := s7.phases[1 := Checking]);
    var s9 := s8.(holder := None, phases := s8.phases[1 := Reading(s7.clock)]);
    states, actions := Extended(states, actions, Tick(s7.clock), s7, ttl, d);
    states, actions := Extended(states, actions, Lock(1), s8, ttl, d);
    states, actions := Extended(states, actions, FindFresh(1), s9, ttl, d);
    states, actions := Extended(states, actions, Read(1, "", None), s9, ttl, d);
  }

  /** The refresh of that run, which sets cacheTime d after its listing arrived. */
  lemma LateRefresh(s0: State, ttl: Time, d: Time) returns (states: seq<State>, actions: seq<Action>)
    requires ttl > 0 && d >= 0 && Path([s0], [], ttl) && Prompt([s0], [], d)
    requires s0 == State(ttl, map[], 0, None, map[], Completion([], 0, 0), [])
    ensures |actions| == 6 && |states| == 7 && Path(states, actions, ttl) && Prompt(states, actions, d) &&
              states[0] == s0
    ensures var c := Completion([], ttl, ttl);
      states[6] == State(ttl + d, map[], ttl + d, None, map[0 := Reading(ttl)], c, [c])
  {
    hide Path, Prompt, IsIndexOf;
    EmptyIndex();
    var c := Completion([], ttl, ttl);
    var s3 := State(ttl, map[], 0, Some(0), map[0 := Indexed(ttl, c, map[])], Completion([], 0, 0), [c]);
    var s4 := s3.(source := c, phases := map[0 := Swapped(ttl, c)]);
    var s5 := s4.(clock := ttl + d);
    var s6 := s5.(cacheTime := ttl + d, holder := None, phases := map[0 := Reading(ttl)]);
    states, actions := LateFetch(s0, s3, ttl, d);
    assert s4.phases == s3.phases[0 := Swapped(ttl, c)] && s6.phases == s5.phases[0 := Reading(ttl)];
    states, actions := Extended(states, actions, SwapCache(0), s4, ttl, d);
    states, actions := Extended(states, actions, Tick(s5.clock), s5, ttl, d);
    states, actions := Extended(states, actions, SetTime(0), s6, ttl, d);
  }

  lemma LateFetch(s0: State, s3: State, ttl: Time, d: Time) returns (states: seq<State>, actions: seq<Action>)
    requires ttl > 0 && IsIndexOf(map[], []) && Path([s0], [], ttl) && Prompt([s0], [], d)
    requires s0 == State(ttl, map[], 0, None, map[], Completion([], 0, 0), [])
    requires var c := Completion([], ttl, ttl);
      s3 == State(ttl, map[], 0, Some(0), map[0 := Indexed(ttl, c, map[])], Completion([], 0, 0), [c])
    ensures |actions| == 3 && |states| == 4 && Path(states, actions, ttl) && Prompt(states, actions, d)
    ensures states[0] == s0 && states[3] == s3
  {
    hide Path, Prompt, IsIndexOf;
    var s1 := s0.(holder := Some(0), phases := map[0 := Checking]);
    var s2 := s1.(phases := map[0 := Fetching(ttl)]);
    assert s1.phases == s0.phases[0 := Checking] && s2.phases == s1.phases[0 := Fetching(ttl)];
    assert s3.phases == s2.phases[0 := s3.phases[0]] && s3.completed == s2.completed + s3.completed;
    states, actions := Extended([s0], [], Lock(0), s1, ttl, d);
    states, actions := Extended(states, actions, FindStale(0), s2, ttl, d);
    states, actions := Extended(states, actions, FetchSucceeds(0, [], map[]), s3, ttl, d);
  }

  lemma EmptyIndex()
    ensures IsIndexOf(map[], [])
  {
  }

  lemma NoSteps(s: State, ttl: Time, d: Time)
    ensures Path([s], [], ttl) && Prompt([s], [], d)
  {
  }

  /** One more step of a path. */
  lemma Extended(states: seq<State>, actions: seq<Action>, a: Action, s: State, ttl: Time, d: Time)
    returns (states': seq<State>, actions': seq<Action>)
    requires Path(states, actions, ttl) && Prompt(states, actions, d)
    requires Step(states[|actions|], a, s, ttl)
    requires a.SetTime? && PhaseOf(states[|actions|], a.t).Swapped? ==>
               states[|actions|].clock - PhaseOf(states[|actions|], a.t).fetched.at <= d
    ensures states' == states + [s] && actions' == actions + [a]
    ensures Path(states', actions', ttl) && Prompt(states', actions', d)
  {
    hide Step;
    states', actions' := states + [s], actions + [a];
    forall i | 0 <= i < |actions| ensures states'[i] == states[i] && actions'[i] == actions[i] {
    }
    forall i | 0 <= i < |actions'| ensures Step(states'[i], actions'[i], states'[i + 1], ttl) {
      assert i < |actions| ==> Step(states[i], actions[i], states[i + 1], ttl);
    }
  }

  lemma {:induction false} CacheTimeNeverGoesBack(states: seq<State>, actions: seq<Action>, ttl: Time, i: nat, j: nat)
    requires Run(states, actions, ttl) && i <= j < |states|
    ensures states[i].cacheTime <= states[j].cacheTime
  {
    hide Inv, Step;
    if i == j {
    } else {
      CacheTimeNeverGoesBack(states, actions, ttl, i, j - 1);
      RunKeepsInv(states, actions, ttl, j - 1);
      InvIsFresh(states[j - 1], ttl);
      StepKeepsFresh(states[j - 1], actions[j - 1], states[j], ttl);
    }
  }

  lemma InvIsFresh(s: State, ttl: Time)
    requires Inv(s, ttl)
    ensures FreshForReaders(s, ttl)
  {
  }

  /** Before a fetch fails, its thread has been checking or fetching ever since it took the lock. */
  lemma {:induction false} FetchingSince(states: seq<State>, actions: seq<Action>, ttl: Time, t: Thread, k: nat, j: nat)
    requires Run(states, actions, ttl) && k <= j < |actions|
    requires PhaseOf(states[j], t).Fetching?
    requires forall m | k <= m < j :: actions[m] != Lock(t)
    ensures PhaseOf(states[k], t).Checking? || PhaseOf(states[k], t).Fetching?
    decreases j - k
  {
    if k == j {
    } else {
      FetchingSince(states, actions, ttl, t, k + 1, j);
      assert Step(states[k], actions[k], states[k + 1], ttl);
    }
  }

  lemma HolderProtects(s: State, a: Action, s': State, ttl: Time, t: Thread)
    requires Inv(s, ttl) && Step(s, a, s', ttl)
    requires PhaseOf(s, t).Checking? || PhaseOf(s, t).Fetching?
    ensures s'.cache == s.cache && s'.cacheTime == s.cacheTime
  {
  }

  /** A refresh that fails changes nothing, and nobody changes anything while it runs. */
  lemma {:induction false} FailedRefreshChangesNothing(states: seq<State>, actions: seq<Action>, ttl: Time,
                                                       t: Thread, i: nat, j: nat)
    requires Run(states, actions, ttl) && i < j < |actions|
    requires actions[i] == Lock(t) && actions[j] == FetchFails(t)
    requires forall m | i < m < j :: actions[m] != Lock(t)
    ensures states[j + 1].cache == states[i].cache && states[j + 1].cacheTime == states[i].cacheTime
  {
    assert Step(states[j], actions[j], states[j + 1], ttl);
    assert Step(states[i], actions[i], states[i + 1], ttl);
    Protected(states, actions, ttl, t, i + 1, j);
  }

  lemma {:induction false} Protected(states: seq<State>, actions: seq<Action>, ttl: Time, t: Thread, k: nat, j: nat)
    requires Run(states, actions, ttl) && k <= j < |actions|
    requires PhaseOf(states[j], t).Fetching?
    requires forall m | k <= m < j :: actions[m] != Lock(t)
    ensures states[j].cache == states[k].cache && states[j].cacheTime == states[k].cacheTime
    decreases j - k
  {
    hide Step, Inv;
    if k == j {
    } else {
      FetchingSince(states, actions, ttl, t, k, j);
      RunKeepsInv(states, actions, ttl, k);
      HolderProtects(states[k], actions[k], states[k + 1], ttl, t);
      Protected(states, actions, ttl, t, k + 1, j);
    }
  }

  /*** The sequential refresh ***/

  /** A thread that found the cache stale fetches, swaps and sets the time undisturbed. */
  lemma RefetchIsPath(states: seq<State>, actions: seq<Action>, t: Thread, ttl: Time, listing: seq<Server>, later: Time,
                      newCache: map<string, Server>)
    returns (states': seq<State>, actions': seq<Action>)
    requires |states| == |actions| + 1 && Path(states, actions, ttl) &&
              Prompt(states, actions, later - states[|actions|].clock)
    requires var s := states[|actions|];
      PhaseOf(s, t).Fetching? && s.clock <= later && IsIndexOf(newCache, listing)
    ensures |states'| == |actions'| + 1 && Path(states', actions', ttl) && states'[0] == states[0]
    ensures var s, last := states[|actions|], states'[|actions'|];
      && last.cache == newCache && last.cacheTime == later && last.holder.None?
      && PhaseOf(last, t) == Reading(PhaseOf(s, t).checked)
  {
    hide IsIndexOf, Path, Prompt;
    var s := states[|actions|];
    var now, d, checked := s.clock, later - s.clock, PhaseOf(s, t).checked;
    var c := Completion(listing, checked, now);
    var s4 := s.(phases := s.phases[t := Indexed(checked, c, newCache)], completed := s.completed + [c]);
    var s5 := s4.(clock := later);
    var s6 := s5.(cache := newCache, source := c, phases := s5.phases[t := Swapped(checked, c)]);
    var s7 := s6.(cacheTime := later, holder := None, phases := s6.phases[t := Reading(checked)]);
    states', actions' := Extended(states, actions, FetchSucceeds(t, listing, newCache), s4, ttl, d);
    states', actions' := Extended(states', actions', Tick(later), s5, ttl, d);
    states', actions' := Extended(states', actions', SwapCache(t), s6, ttl, d);
    states', actions' := Extended(states', actions', SetTime(t), s7, ttl, d);
  }

  /** What RefreshCache does, undisturbed, is a path of these steps: the sequential method is one
      schedule of the concurrent one. */
  lemma RefreshIsPath(s: State, t: Thread, ttl: Time, now: Time, listing: Option<seq<Server>>, later: Time, ok: bool,
                      after: map<string, Server>, timeAfter: Time)
    returns (states: seq<State>, actions: seq<Action>)
    requires PhaseOf(s, t).Idle? && s.holder.None? && s.clock <= now <= later
    requires Refreshed(s.cache, s.cacheTime, ttl, now, listing, later, ok, after, timeAfter)
    ensures |states| == |actions| + 1 && Path(states, actions, ttl) && states[0] == s
    ensures var last := states[|actions|];
      && last.cache == after && last.cacheTime == timeAfter && last.holder.None?
      && PhaseOf(last, t) == if ok then Reading(now) else Idle
  {
    hide IsIndexOf, Path, Prompt;
    var d := later - now;
    NoSteps(s, ttl, d);
    var s1 := s.(clock := now);
    var s2 := s1.(holder := Some(t), phases := s1.phases[t := Checking]);
    states, actions := Extended([s], [], Tick(now), s1, ttl, d);
    states, actions := Extended(states, actions, Lock(t), s2, ttl, d);
    if now - s.cacheTime < ttl {
      var s3 := s2.(holder := None, phases := s2.phases[t := Reading(now)]);
      states, actions := Extended(states, actions, FindFresh(t), s3, ttl, d);
    } else {
      var s3 := s2.(phases := s2.phases[t := Fetching(now)]);
      states, actions := Extended(states, actions, FindStale(t), s3, ttl, d);
      if listing.None? {
        var s4 := s3.(holder := None, phases := s3.phases[t := Idle]);
        states, actions := Extended(states, actions, FetchFails(t), s4, ttl, d);
      } else {
        states, actions := RefetchIsPath(states, actions, t, ttl, listing.value, later, after);
      }
    }
  }
}
