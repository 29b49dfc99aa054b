/** The blockhash prefetch protocol: what each step between two awaits does, over the pending
    fetches, starts and timers that may interleave in any order. */
module HotPath {
  import opened Outcomes

  datatype FetchPhase = InFlight | Settled | Cleared

  /** A `fetchBlockhash` call: `Settled` once its promise has, `Cleared` after its `finally`. */
  datatype Fetch = Fetch(generation: nat, phase: FetchPhase, failed: bool)

  datatype StartPhase = Waiting | Continued | Finished

  /** A `start` call that went past its guards, and the fetch that it awaits. */
  datatype Startup = Startup(generation: nat, fetch: nat, phase: StartPhase)

  datatype Timer = Timer(generation: nat, live: bool)

  datatype Data = Data(blockhash: string, lastValidBlockHeight: nat, fetchedAt: int, monotonicMs: real)

  datatype Metrics = Metrics(prefetchCount: nat, prefetchErrors: nat, lastPrefetchTime: int)

  /** How a race between the response and its timeout ended. */
  datatype Response = Success(data: Data, callbackThrows: bool) | Failure

  datatype State = State(
    enabled: bool, generation: nat, isRunning: bool, starting: Option<nat>, prefetching: Option<nat>,
    prefetchTimer: Option<nat>, currentData: Option<Data>, metrics: Metrics,
    fetches: seq<Fetch>, starts: seq<Startup>, timers: seq<Timer>)

  datatype Event =
    | Start
    | Stop
    | Tick(timer: nat)
    | Settle(fetch: nat, response: Response)
    | ClearFetch(fetch: nat)
    | ContinueStart(start: nat)
    | FinishStart(start: nat)

  function Init(enabled: bool): State {
    State(enabled, 0, false, None, None, None, None, Metrics(0, 0, 0), [], [], [])
  }

  /** A fetch for a generation, unless one already holds the slot. */
  function Prefetch(s: State, generation: nat): State {
    if s.prefetching.Some? then s
    else s.(fetches := s.fetches + [Fetch(generation, InFlight, false)], prefetching := Some(|s.fetches|))
  }

  function OnStart(s: State): State {
    if !s.enabled || s.isRunning || s.starting.Some? then s
    else
      var t := Prefetch(s.(generation := s.generation + 1), s.generation + 1);
      t.(starts := t.starts + [Startup(t.generation, t.prefetching.value, Waiting)], starting := Some(|t.starts|))
  }

  function OnStop(s: State): State {
    s.(isRunning := false, generation := s.generation + 1, starting := None, prefetching := None, prefetchTimer := None,
       timers := if s.prefetchTimer.Some? then Cancel(s.timers, s.prefetchTimer.value) else s.timers)
  }

  function Cancel(timers: seq<Timer>, timer: nat): seq<Timer> {
    if timer < |timers| then timers[timer := timers[timer].(live := false)] else timers
  }

  function OnTick(s: State, timer: nat): State {
    if timer < |s.timers| && s.timers[timer].live then Prefetch(s, s.timers[timer].generation) else s
  }

  /** A response lands in the cache and the metrics only in its own generation. */
  function OnSettle(s: State, fetch: nat, response: Response): State {
    if !(fetch < |s.fetches| && s.fetches[fetch].phase.InFlight?) then s
    else
      var current := s.fetches[fetch].generation == s.generation;
      match response
      case Failure =>
        s.(fetches := s.fetches[fetch := s.fetches[fetch].(phase := Settled, failed := true)],
           metrics := if current then s.metrics.(prefetchErrors := s.metrics.prefetchErrors + 1) else s.metrics)
      case Success(data, callbackThrows) =>
        var failed := current && callbackThrows;
        var errors := s.metrics.prefetchErrors + if failed then 1 else 0;
        s.(fetches := s.fetches[fetch := s.fetches[fetch].(phase := Settled, failed := failed)],
           currentData := if current then Some(data) else s.currentData,
           metrics := if current then Metrics(s.metrics.prefetchCount + 1, errors, data.fetchedAt) else s.metrics)
  }

  function OnClearFetch(s: State, fetch: nat): State {
    if !(fetch < |s.fetches| && s.fetches[fetch].phase.Settled?) then s
    else s.(fetches := s.fetches[fetch := s.fetches[fetch].(phase := Cleared)],
            prefetching := if s.prefetching == Some(fetch) then None else s.prefetching)
  }

  /** A start resumes once its fetch has cleared the slot. */
  function OnContinueStart(s: State, start: nat): State {
    if !(start < |s.starts| && s.starts[start].phase.Waiting?) then s
    else
      var it := s.starts[start];
      if !(it.fetch < |s.fetches| && s.fetches[it.fetch].phase.Cleared?) then s
      else
        var t := s.(starts := s.starts[start := it.(phase := Continued)]);
        if s.fetches[it.fetch].failed || it.generation != s.generation then t
        else t.(isRunning := true, prefetchTimer := Some(|s.timers|), timers := s.timers + [Timer(it.generation, true)])
  }

  function OnFinishStart(s: State, start: nat): State {
    if !(start < |s.starts| && s.starts[start].phase.Continued?) then s
    else s.(starts := s.starts[start := s.starts[start].(phase := Finished)],
            starting := if s.starting == Some(start) then None else s.starting)
  }

  function Step(s: State, e: Event): State {
    match e
    case Start => OnStart(s)
    case Stop => OnStop(s)
    case Tick(timer) => OnTick(s, timer)
    case Settle(fetch, response) => OnSettle(s, fetch, response)
    case ClearFetch(fetch) => OnClearFetch(s, fetch)
    case ContinueStart(start) => OnContinueStart(s, start)
    case FinishStart(start) => OnFinishStart(s, start)
  }

  function Run(s: State, events: seq<Event>): State
    decreases |events|
  {
    if events == [] then s else Run(Step(s, events[0]), events[1..])
  }

  /** The fetch in the slot is of the current generation and still on its way to `finally`; no
      other fetch of its generation is. */
  ghost predicate SlotOk(s: State) {
    && (s.prefetching.Some? ==>
        && s.prefetching.value < |s.fetches|
        && s.fetches[s.prefetching.value].generation == s.generation
        && !s.fetches[s.prefetching.value].phase.Cleared?)
    && (forall f | 0 <= f < |s.fetches| :: s.fetches[f].generation <= s.generation)
    && (forall f | 0 <= f < |s.fetches| && !s.fetches[f].phase.Cleared? && s.fetches[f].generation == s.generation ::
          s.prefetching == Some(f))
  }

  /** At most one fetch of each generation is outstanding. */
  ghost predicate OnePerGeneration(s: State) {
    forall f, g | 0 <= f < g < |s.fetches| && !s.fetches[f].phase.Cleared? && !s.fetches[g].phase.Cleared? ::
      s.fetches[f].generation != s.fetches[g].generation
  }

  /** A timer exists exactly while running, it is the only live one, and it is of this generation. */
  ghost predicate TimerOk(s: State) {
    && (s.isRunning <==> s.prefetchTimer.Some?)
    && (forall t | 0 <= t < |s.timers| :: s.timers[t].live <==> s.prefetchTimer == Some(t))
    && (s.prefetchTimer.Some? ==>
        s.prefetchTimer.value < |s.timers| && s.timers[s.prefetchTimer.value].generation == s.generation)
  }

  /** The registered start is the unfinished start of this generation; while it waits nothing runs
      yet; a start awaits a fetch of its own generation; and only a waiting start has a fetch
      outstanding before the timer runs. */
  ghost predicate StartOk(s: State) {
    && (s.starting.Some? ==> s.starting.value < |s.starts| && !s.starts[s.starting.value].phase.Finished?)
    && (forall i | 0 <= i < |s.starts| :: s.starts[i].generation <= s.generation)
    && (forall i | 0 <= i < |s.starts| && s.starts[i].generation == s.generation && !s.starts[i].phase.Finished? ::
          s.starting == Some(i))
    && (forall i | 0 <= i < |s.starts| && s.starts[i].phase.Waiting? ::
          s.starts[i].fetch < |s.fetches| && s.fetches[s.starts[i].fetch].generation == s.starts[i].generation)
    && (s.starting.Some? ==> s.starts[s.starting.value].generation == s.generation)
    && (forall i | 0 <= i < |s.starts| && s.starts[i].phase.Waiting? && s.starts[i].generation == s.generation ::
       !s.isRunning)
    && (!s.isRunning && s.prefetching.Some? ==>
        s.starting.Some? && s.starts[s.starting.value].phase.Waiting?
        && s.starts[s.starting.value].fetch == s.prefetching.value)
  }

  ghost predicate Inv(s: State) { SlotOk(s) && OnePerGeneration(s) && TimerOk(s) && StartOk(s) }

  lemma InitInv(enabled: bool)
    ensures Inv(Init(enabled))
  {
  }

  /** Every step keeps the invariant. */
  lemma StepInv(s: State, e: Event)
    requires Inv(s)
    ensures Inv(Step(s, e))
  {
    match e {
      case Start => StartInv(s);
      case Stop => StopInv(s);
      case Tick(timer) => TickInv(s, timer);
      case Settle(fetch, response) => SettleInv(s, fetch, response);
      case ClearFetch(fetch) => ClearInv(s, fetch);
      case ContinueStart(start) => ContinueInv(s, start);
      case FinishStart(start) => FinishInv(s, start);
    }
  }

  lemma StartInv(s: State)
    requires Inv(s)
    ensures Inv(OnStart(s))
  {
  }

  lemma StopInv(s: State)
    requires Inv(s)
    ensures Inv(OnStop(s))
  {
  }

  lemma TickInv(s: State, timer: nat)
    requires Inv(s)
    ensures Inv(OnTick(s, timer))
  {
  }

  lemma SettleInv(s: State, fetch: nat, response: Response)
    requires Inv(s)
    ensures Inv(OnSettle(s, fetch, response))
  {
  }

  lemma ClearInv(s: State, fetch: nat)
    requires Inv(s)
    ensures Inv(OnClearFetch(s, fetch))
  {
  }

  lemma ContinueInv(s: State, start: nat)
    requires Inv(s)
    ensures Inv(OnContinueStart(s, start))
  {
    hide SlotOk, OnePerGeneration, TimerOk, StartOk, OnContinueStart;
    ContinueSlot(s, start);
    ContinueTimer(s, start);
    ContinueStarts(s, start);
  }

  lemma ContinueSlot(s: State, start: nat)
    requires SlotOk(s) && OnePerGeneration(s)
    ensures SlotOk(OnContinueStart(s, start)) && OnePerGeneration(OnContinueStart(s, start))
  {
  }

  lemma ContinueTimer(s: State, start: nat)
    requires TimerOk(s) && StartOk(s)
    ensures TimerOk(OnContinueStart(s, start))
  {
  }

  lemma ContinueStarts(s: State, start: nat)
    requires SlotOk(s) && StartOk(s)
    ensures StartOk(OnContinueStart(s, start))
  {
  }

  lemma FinishInv(s: State, start: nat)
    requires Inv(s)
    ensures Inv(OnFinishStart(s, start))
  {
  }

  /** The invariant holds after every sequence of events, in every interleaving. */
  lemma {:induction false} RunInv(s: State, events: seq<Event>)
    requires Inv(s)
    ensures Inv(Run(s, events))
    decreases |events|
  {
    if events == [] {
    } else {
      StepInv(s, events[0]);
      RunInv(Step(s, events[0]), events[1..]);
    }
  }

  /** In every interleaving from the beginning: the slot is of the current generation, each
      generation has at most one fetch outstanding, and a live timer exists exactly while running. */
  lemma Reachable(enabled: bool, events: seq<Event>)
    ensures var s := Run(Init(enabled), events);
      && (s.prefetching.Some? ==>
          s.prefetching.value < |s.fetches| && s.fetches[s.prefetching.value].generation == s.generation)
      && OnePerGeneration(s)
      && (s.isRunning <==> exists t :: 0 <= t < |s.timers| && s.timers[t].live)
      && (forall t, u | 0 <= t < u < |s.timers| :: !(s.timers[t].live && s.timers[u].live))
  {
    InitInv(enabled);
    RunInv(Init(enabled), events);
    var s := Run(Init(enabled), events);
    if s.isRunning { assert s.timers[s.prefetchTimer.value].live; }
  }

  /** Only the response to the fetch in the slot changes the cache or the metrics. */
  lemma OnlySlotLands(s: State, e: Event)
    requires Inv(s)
    requires Step(s, e).currentData != s.currentData || Step(s, e).metrics != s.metrics
    ensures e.Settle? && s.prefetching == Some(e.fetch) && s.fetches[e.fetch].generation == s.generation
  {
  }

  lemma GenerationGrows(s: State, e: Event)
    ensures s.generation <= Step(s, e).generation
    ensures |s.fetches| <= |Step(s, e).fetches|
    ensures forall f | 0 <= f < |s.fetches| :: Step(s, e).fetches[f].generation == s.fetches[f].generation
  {
  }

  lemma {:induction false} RunKeepsFetch(s: State, events: seq<Event>, fetch: nat)
    requires fetch < |s.fetches|
    ensures fetch < |Run(s, events).fetches|
    ensures Run(s, events).fetches[fetch].generation == s.fetches[fetch].generation
    ensures s.generation <= Run(s, events).generation
    decreases |events|
  {
    if events == [] {
    } else {
      GenerationGrows(s, events[0]);
      RunKeepsFetch(Step(s, events[0]), events[1..], fetch);
    }
  }

  /** Once stopped, a fetch begun before never lands, whatever happens in between and however late
      its response or timeout comes, even after a new start. */
  lemma StoppedFetchNeverLands(s: State, events: seq<Event>, fetch: nat, response: Response)
    requires Inv(s) && fetch < |s.fetches|
    ensures var later := Run(OnStop(s), events);
      && OnSettle(later, fetch, response).currentData == later.currentData
      && OnSettle(later, fetch, response).metrics == later.metrics
  {
    RunKeepsFetch(OnStop(s), events, fetch);
  }

  /** Nothing runs and nothing is about to. */
  predicate Idle(s: State) { !s.isRunning && s.starting.None? && s.prefetching.None? }

  lemma IdleStep(s: State, e: Event)
    requires Inv(s) && Idle(s) && !e.Start?
    ensures Idle(Step(s, e))
    ensures Step(s, e).currentData == s.currentData && Step(s, e).metrics == s.metrics
    ensures |Step(s, e).fetches| == |s.fetches| && |Step(s, e).timers| == |s.timers|
  {
    hide OnePerGeneration;
    match e {
      case ContinueStart(start) =>
      case Tick(timer) =>
      case _ =>
    }
  }

  /** After a stop and until the next start nothing changes: no data, no metrics, no new request
      and no new timer, for every order of the work that was still pending. */
  lemma {:induction false} StoppedIsQuiet(s: State, events: seq<Event>)
    requires Inv(s) && Idle(s) && forall i | 0 <= i < |events| :: !events[i].Start?
    ensures var later := Run(s, events);
      && Idle(later) && later.currentData == s.currentData && later.metrics == s.metrics
      && |later.fetches| == |s.fetches| && |later.timers| == |s.timers|
    decreases |events|
  {
    hide Inv, Idle, Step;
    if events == [] {
    } else {
      IdleStep(s, events[0]);
      StepInv(s, events[0]);
      StoppedIsQuiet(Step(s, events[0]), events[1..]);
    }
  }

  lemma StopIsIdle(s: State)
    requires Inv(s)
    ensures Inv(OnStop(s)) && Idle(OnStop(s))
  {
    StopInv(s);
  }

  predicate IsFreshSince(fetchedMonotonicMs: real, now: real, cacheTtlMs: real) {
    0.0 <= now - fetchedMonotonicMs <= cacheTtlMs
  }

  /** The cached blockhash, unless it is missing or too old. */
  function GetBlockhash(s: State, now: real, cacheTtlMs: real): Option<Data> {
    if s.currentData.None? || !IsFreshSince(s.currentData.value.monotonicMs, now, cacheTtlMs)
      then None else s.currentData
  }

  /** The cache hands out what it holds exactly while that is neither from the future nor past its
      lifetime. */
  lemma CacheIff(s: State, now: real, cacheTtlMs: real)
    ensures GetBlockhash(s, now, cacheTtlMs).Some? <==>
        && s.currentData.Some?
        && s.currentData.value.monotonicMs <= now <= s.currentData.value.monotonicMs + cacheTtlMs
    ensures GetBlockhash(s, now, cacheTtlMs).Some? ==> GetBlockhash(s, now, cacheTtlMs) == s.currentData
  {
  }

  /** After a stop the cache only ages: what it hands out is what it held at the stop, and once that
      is past its lifetime nothing is handed out until a new start, whatever was still pending. */
  lemma StoppedCacheExpires(s: State, events: seq<Event>, now: real, cacheTtlMs: real)
    requires Inv(s) && forall i | 0 <= i < |events| :: !events[i].Start?
    ensures var later := GetBlockhash(Run(OnStop(s), events), now, cacheTtlMs);
      && (later.Some? ==> later == s.currentData)
      && (s.currentData.Some? && now > s.currentData.value.monotonicMs + cacheTtlMs ==> later.None?)
  {
    StopIsIdle(s);
    StoppedIsQuiet(OnStop(s), events);
    hide Inv, Idle, Run;
  }

  /** The response to the fetch in the slot lands and clears the slot. */
  lemma FetchLands(s: State, f: nat, data: Data)
    requires f < |s.fetches| && s.fetches[f] == Fetch(s.generation, InFlight, false) && s.prefetching == Some(f)
    ensures OnClearFetch(OnSettle(s, f, Success(data, false)), f)
         == s.(fetches := s.fetches[f := Fetch(s.generation, Cleared, false)], prefetching := None,
           currentData := Some(data),
               metrics := Metrics(s.metrics.prefetchCount + 1, s.metrics.prefetchErrors, data.fetchedAt))
  {
    var t := OnSettle(s, f, Success(data, false));
    assert t.fetches[f] == Fetch(s.generation, Settled, false);
  }

  /** A start whose fetch succeeded in its generation installs the timer. */
  lemma StartLands(s: State, i: nat, f: nat)
    requires i < |s.starts| && s.starts[i] == Startup(s.generation, f, Waiting) && s.starting == Some(i)
    requires f < |s.fetches| && s.fetches[f] == Fetch(s.generation, Cleared, false)
    ensures var t := OnFinishStart(OnContinueStart(s, i), i);
      && t.isRunning && t.starting.None? && t.prefetchTimer == Some(|s.timers|)
      && t.prefetching == s.prefetching && t.currentData == s.currentData && t.metrics == s.metrics
  {
    var t := OnContinueStart(s, i);
    assert t.starts[i].phase == Continued;
  }

  /** A start and the arrival of its response, in the order in which they resume. */
  function Launch(s: State, data: Data): State {
    var f, i := |s.fetches|, |s.starts|;
    Run(s, [Start, Settle(f, Success(data, false)), ClearFetch(f), ContinueStart(i), FinishStart(i)])
  }

  /** A start whose response arrives in time ends running, with the data cached and one timer. */
  lemma StartWorks(s: State, data: Data)
    requires Inv(s) && s.enabled && !s.isRunning && s.starting.None?
    ensures Inv(Launch(s, data))
    ensures var t := Launch(s, data);
      && t.isRunning && t.prefetchTimer == Some(|s.timers|) && t.prefetching.None? && t.starting.None?
      && t.currentData == Some(data) && t.metrics.prefetchCount == s.metrics.prefetchCount + 1
  {
    hide Inv, OnStart, OnSettle, OnClearFetch, OnContinueStart, OnFinishStart, Run;
    var f, i := |s.fetches|, |s.starts|;
    RunInv(s, [Start, Settle(f, Success(data, false)), ClearFetch(f), ContinueStart(i), FinishStart(i)]);
    RunFive(s, Start, Settle(f, Success(data, false)), ClearFetch(f), ContinueStart(i), FinishStart(i));
    FreshStart(s);
    var a := OnStart(s);
    FetchLands(a, f, data);
    StartLands(OnClearFetch(OnSettle(a, f, Success(data, false)), f), i, f);
  }

  /** A tick of the live timer begins a fetch of the current generation, unless one is under way; a
      cancelled timer does nothing. */
  lemma TickWorks(s: State, timer: nat)
    requires Inv(s) && timer < |s.timers|
    ensures var t := OnTick(s, timer);
      && (s.timers[timer].live && s.prefetching.None? ==>
          t == s.(fetches := s.fetches + [Fetch(s.generation, InFlight, false)], prefetching := Some(|s.fetches|)))
      && (!s.timers[timer].live || s.prefetching.Some? ==> t == s)
  {
    hide SlotOk, OnePerGeneration, StartOk;
  }

  /** A tick while running whose response arrives in time refreshes the cache and frees the slot. */
  lemma RefreshWorks(s: State, data: Data)
    requires Inv(s) && s.isRunning && s.prefetching.None?
    ensures s.prefetchTimer.Some?
    ensures var f := |s.fetches|;
      var t := Run(s, [Tick(s.prefetchTimer.value), Settle(f, Success(data, false)), ClearFetch(f)]);
      && t.isRunning && t.prefetching.None? && t.timers == s.timers && t.currentData == Some(data)
      && t.metrics == Metrics(s.metrics.prefetchCount + 1, s.metrics.prefetchErrors, data.fetchedAt)
  {
    hide OnTick, OnSettle, OnClearFetch, Run, SlotOk, OnePerGeneration, StartOk;
    var timer, f := s.prefetchTimer.value, |s.fetches|;
    TickWorks(s, timer);
    RunThree(s, Tick(timer), Settle(f, Success(data, false)), ClearFetch(f));
    FetchLands(OnTick(s, timer), f, data);
  }

  /** A response that fails, or whose callback throws, counts as an error and leaves the cache as the
      response made it. */
  lemma FailureCounts(s: State, f: nat, data: Data)
    requires Inv(s) && s.prefetching == Some(f) && s.fetches[f].phase.InFlight?
    ensures var t := OnSettle(s, f, Failure);
      && t.currentData == s.currentData && t.fetches == s.fetches[f := s.fetches[f].(phase := Settled, failed := true)]
      && t.metrics == s.metrics.(prefetchErrors := s.metrics.prefetchErrors + 1)
    ensures var t := OnSettle(s, f, Success(data, true));
      && t.currentData == Some(data) && t.fetches == s.fetches[f := s.fetches[f].(phase := Settled, failed := true)]
      && t.metrics == Metrics(s.metrics.prefetchCount + 1, s.metrics.prefetchErrors + 1, data.fetchedAt)
  {
    hide OnePerGeneration, TimerOk, StartOk;
  }

  lemma RunThree(s: State, a: Event, b: Event, c: Event)
    ensures Run(s, [a, b, c]) == Step(Step(Step(s, a), b), c)
  {
    hide Step;
    RunFirst(s, a, [b, c]);
    RunFirst(Step(s, a), b, [c]);
    RunFirst(Step(Step(s, a), b), c, []);
    assert [a] + [b, c] == [a, b, c] && [b] + [c] == [b, c] && [c] + [] == [c];
  }

  /** An accepted start takes a fetch of its own generation, never an older one. */
  lemma FreshStart(s: State)
    requires Inv(s) && s.enabled && !s.isRunning && s.starting.None?
    ensures var t := OnStart(s);
      && t.generation == s.generation + 1 && t.timers == s.timers && t.metrics == s.metrics
      && t.fetches == s.fetches + [Fetch(t.generation, InFlight, false)] && t.prefetching == Some(|s.fetches|)
      && t.starts == s.starts + [Startup(t.generation, |s.fetches|, Waiting)] && t.starting == Some(|s.starts|)
  {
  }

  lemma RunFirst(s: State, e: Event, rest: seq<Event>)
    ensures Run(s, [e] + rest) == Run(Step(s, e), rest)
  {
    assert ([e] + rest)[1..] == rest;
  }

  lemma RunFive(s: State, a: Event, b: Event, c: Event, d: Event, e: Event)
    ensures Run(s, [a, b, c, d, e]) == Step(Step(Step(Step(Step(s, a), b), c), d), e)
  {
    hide Step;
    var s1, s2 := Step(s, a), Step(Step(s, a), b);
    var s3 := Step(s2, c);
    RunFirst(s, a, [b, c, d, e]);
    RunFirst(s1, b, [c, d, e]);
    RunFirst(s2, c, [d, e]);
    RunFirst(s3, d, [e]);
    RunFirst(Step(s3, d), e, []);
    assert [a] + [b, c, d, e] == [a, b, c, d, e] && [b] + [c, d, e] == [b, c, d, e];
    assert [c] + [d, e] == [c, d, e] && [d] + [e] == [d, e] && [e] + [] == [e];
  }

  /** The object itself: each method is one uninterrupted stretch of the source between awaits, and
      moves the object exactly as its step does. */
  class HotPathState {
    const enabled: bool
    var generation: nat
    var isRunning: bool
    var starting: Option<nat>
    var prefetching: Option<nat>
    var prefetchTimer: Option<nat>
    var currentData: Option<Data>
    var metrics: Metrics
    var fetches: seq<Fetch>
    var starts: seq<Startup>
    var timers: seq<Timer>

    ghost function View(): State
      reads this
    {
      State(enabled, generation, isRunning, starting, prefetching, prefetchTimer, currentData, metrics, fetches,
        starts, timers)
    }

    constructor (enablePrefetch: bool)
      ensures View() == Init(enablePrefetch) && Inv(View())
    {
      enabled := enablePrefetch;
      generation, isRunning, starting, prefetching, prefetchTimer := 0, false, None, None, None;
      currentData, metrics, fetches, starts, timers := None, Metrics(0, 0, 0), [], [], [];
    }

    /** `start`, up to its first await. */
    method Start()
      requires Inv(View())
      modifies this
      ensures View() == OnStart(old(View())) && Inv(View())
    {
      StartInv(View());
      if !enabled || isRunning { return; }
      if starting.Some? { return; }
      generation := generation + 1;
      var pending := PrefetchBlockhash(generation);
      starts := starts + [Startup(generation, pending, Waiting)];
      starting := Some(|starts| - 1);
    }

    /** `prefetchBlockhash`: the pending fetch, or a new one in the slot. */
    method PrefetchBlockhash(forGeneration: nat) returns (pending: nat)
      modifies this`fetches, this`prefetching
      ensures View() == Prefetch(old(View()), forGeneration) && prefetching == Some(pending)
    {
      if prefetching.Some? { return prefetching.value; }
      pending := |fetches|;
      fetches := fetches + [Fetch(forGeneration, InFlight, false)];
      prefetching := Some(pending);
    }

    method Stop()
      requires Inv(View())
      modifies this
      ensures View() == OnStop(old(View())) && Inv(View())
    {
      StopInv(View());
      isRunning := false;
      generation := generation + 1;
      starting := None;
      prefetching := None;
      if prefetchTimer.Some? {
        timers := Cancel(timers, prefetchTimer.value);
        prefetchTimer := None;
      }
    }

    /** The interval callback of a live timer. */
    method Tick(timer: nat)
      requires Inv(View())
      modifies this
      ensures View() == OnTick(old(View()), timer) && Inv(View())
    {
      TickInv(View(), timer);
      if timer < |timers| && timers[timer].live { var _ := PrefetchBlockhash(timers[timer].generation); }
    }

    /** `fetchBlockhash` from the end of its race. */
    method Settle(fetch: nat, response: Response)
      requires Inv(View())
      modifies this
      ensures View() == OnSettle(old(View()), fetch, response) && Inv(View())
    {
      hide SlotOk, OnePerGeneration, TimerOk, StartOk;
      SettleInv(View(), fetch, response);
      if !(fetch < |fetches| && fetches[fetch].phase.InFlight?) { return; }
      var it := fetches[fetch];
      var failed := false;
      match response {
        case Success(data, callbackThrows) =>
          if it.generation == generation {
            currentData := Some(data);
            metrics := metrics.(prefetchCount := metrics.prefetchCount + 1);
            metrics := metrics.(lastPrefetchTime := data.fetchedAt);
            failed := callbackThrows;
            if failed { metrics := metrics.(prefetchErrors := metrics.prefetchErrors + 1); }
          }
        case Failure =>
          failed := true;
          if it.generation == generation { metrics := metrics.(prefetchErrors := metrics.prefetchErrors + 1); }
      }
      fetches := fetches[fetch := it.(phase := Settled, failed := failed)];
    }

    /** The `finally` of a fetch. */
    method ClearFetch(fetch: nat)
      requires Inv(View())
      modifies this
      ensures View() == OnClearFetch(old(View()), fetch) && Inv(View())
    {
      hide SlotOk, OnePerGeneration, TimerOk, StartOk;
      ClearInv(View(), fetch);
      if !(fetch < |fetches| && fetches[fetch].phase.Settled?) { return; }
      if prefetching == Some(fetch) { prefetching := None; }
      fetches := fetches[fetch := fetches[fetch].(phase := Cleared)];
    }

    /** `start` after its await. */
    method ContinueStart(start: nat)
      requires Inv(View())
      modifies this
      ensures View() == OnContinueStart(old(View()), start) && Inv(View())
    {
      hide SlotOk, OnePerGeneration, TimerOk, StartOk;
      ContinueInv(View(), start);
      if !(start < |starts| && starts[start].phase.Waiting?) { return; }
      var it := starts[start];
      if !(it.fetch < |fetches| && fetches[it.fetch].phase.Cleared?) { return; }
      starts := starts[start := it.(phase := Continued)];
      if fetches[it.fetch].failed { return; }
      if it.generation != generation { return; }
      isRunning := true;
      timers := timers + [Timer(it.generation, true)];
      prefetchTimer := Some(|timers| - 1);
    }

    /** The `finally` of a start. */
    method FinishStart(start: nat)
      requires Inv(View())
      modifies this
      ensures View() == OnFinishStart(old(View()), start) && Inv(View())
    {
      FinishInv(View(), start);
      if !(start < |starts| && starts[start].phase.Continued?) { return; }
      if starting == Some(start) { starting := None; }
      starts := starts[start := starts[start].(phase := Finished)];
    }
  }
}
