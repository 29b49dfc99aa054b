/** The subscription manager: actions serialised per key by chained promises, handles that replace
    one another, and unsubscribe transports, over every interleaving of what is pending. */
module Subscriptions {
  import opened Outcomes

  type Key = string

  /** The states a handle can reach through the manager. */
  datatype Status = Active | Failed | Closed

  /** A handle: `transport` is its pending unsubscribe promise, `job` the action that made it. */
  datatype Handle = Handle(key: Key, status: Status, transport: Option<nat>, job: nat)

  datatype TransportPhase = Open | Succeeded | Rejected

  datatype Transport = Transport(handle: nat, phase: TransportPhase)

  /** An awaited unsubscribe: settled at once when the handle was closed already. */
  datatype Wait = Wait(handle: nat, transport: Option<nat>)

  datatype JobPhase = Queued | Unsubscribing(wait: Wait) | Done

  /** A `serial` call: `previous` is the tail that it chained on. */
  datatype Job = Job(key: Key, previous: Option<nat>, phase: JobPhase)

  datatype Removal = Removal(key: Key, wait: Wait, finished: bool)

  /** `cleaned` holds the actions whose `finally` has run. */
  datatype State = State(
    jobs: seq<Job>, cleaned: set<nat>, pending: map<Key, nat>, handles: seq<Handle>, subscriptions: map<Key, nat>,
    transports: seq<Transport>, removals: seq<Removal>)

  datatype Event =
    | Subscribe(key: Key)
    | StartJob(job: nat, created: bool)
    | ContinueJob(job: nat, created: bool)
    | CleanJob(job: nat)
    | Unsubscribe(key: Key)
    | FinishRemoval(removal: nat)
    | Close(handle: nat)
    | Fire(handle: nat)
    | FinishTransport(transport: nat, ok: bool)

  const EMPTY: State := State([], {}, map[], [], map[], [], [])

  function Lookup(m: map<Key, nat>, key: Key): Option<nat> { if key in m then Some(m[key]) else None }

  /** `SubscriptionHandle.unsubscribe` up to its first await. */
  function Unsub(s: State, handle: nat): (State, Wait)
    requires handle < |s.handles|
  {
    var h := s.handles[handle];
    if h.status.Closed? then (s, Wait(handle, None))
    else if h.transport.Some? then (s, Wait(handle, h.transport))
    else
      (s.(handles := s.handles[handle := h.(transport := Some(|s.transports|))],
          transports := s.transports + [Transport(handle, Open)]),
       Wait(handle, Some(|s.transports|)))
  }

  /** Whether an awaited unsubscribe has settled, and how. */
  predicate Ready(s: State, wait: Wait) {
    wait.transport.None? || (wait.transport.value < |s.transports| && !s.transports[wait.transport.value].phase.Open?)
  }

  predicate Threw(s: State, wait: Wait)
    requires Ready(s, wait)
  {
    wait.transport.Some? && s.transports[wait.transport.value].phase.Rejected?
  }

  /** The rest of an action: a new active handle replaces whatever is registered, or the listener
      cannot be added and nothing changes. */
  function Create(s: State, job: nat, created: bool): State
    requires job < |s.jobs|
  {
    var key := s.jobs[job].key;
    var t := s.(jobs := s.jobs[job := s.jobs[job].(phase := Done)]);
    if created then
      t.(handles := t.handles + [Handle(key, Active, None, job)], subscriptions := t.subscriptions[key := |t.handles|])
    else t
  }

  function OnSubscribe(s: State, key: Key): State {
    s.(jobs := s.jobs + [Job(key, Lookup(s.pending, key), Queued)], pending := s.pending[key := |s.jobs|])
  }

  predicate Startable(s: State, job: nat) {
    && job < |s.jobs| && s.jobs[job].phase.Queued?
    && (s.jobs[job].previous.Some? ==>
        s.jobs[job].previous.value < |s.jobs| && s.jobs[s.jobs[job].previous.value].phase.Done?)
  }

  function OnStartJob(s: State, job: nat, created: bool): State {
    if !Startable(s, job) then s
    else
      var key := s.jobs[job].key;
      if key in s.subscriptions && s.subscriptions[key] < |s.handles| then
        var (t, wait) := Unsub(s, s.subscriptions[key]);
        t.(jobs := t.jobs[job := t.jobs[job].(phase := Unsubscribing(wait))])
      else Create(s, job, created)
  }

  function OnContinueJob(s: State, job: nat, created: bool): State {
    if !(job < |s.jobs| && s.jobs[job].phase.Unsubscribing? && Ready(s, s.jobs[job].phase.wait)) then s
    else if Threw(s, s.jobs[job].phase.wait) then s.(jobs := s.jobs[job := s.jobs[job].(phase := Done)])
    else Create(s, job, created)
  }

  function OnCleanJob(s: State, job: nat): State {
    if !(job < |s.jobs| && s.jobs[job].phase.Done? && job !in s.cleaned) then s
    else
      var key := s.jobs[job].key;
      s.(cleaned := s.cleaned + {job},
         pending := if Lookup(s.pending, key) == Some(job) then s.pending - {key} else s.pending)
  }

  function OnUnsubscribe(s: State, key: Key): State {
    if !(key in s.subscriptions && s.subscriptions[key] < |s.handles|) then s
    else
      var (t, wait) := Unsub(s, s.subscriptions[key]);
      t.(removals := t.removals + [Removal(key, wait, false)])
  }

  function OnFinishRemoval(s: State, removal: nat): State {
    if !(removal < |s.removals| && !s.removals[removal].finished && Ready(s, s.removals[removal].wait)) then s
    else
      var r := s.removals[removal];
      var t := s.(removals := s.removals[removal := r.(finished := true)]);
      if !Threw(s, r.wait) && Lookup(s.subscriptions, r.key) == Some(r.wait.handle) then
        t.(subscriptions := s.subscriptions - {r.key})
      else t
  }

  function OnClose(s: State, handle: nat): State { if handle < |s.handles| then Unsub(s, handle).0 else s }

  /** A signature listener closes its own handle when it fires. */
  function OnFire(s: State, handle: nat): State {
    if handle < |s.handles| && s.handles[handle].status.Active? then
      s.(handles := s.handles[handle := s.handles[handle].(status := Closed)])
    else s
  }

  function OnFinishTransport(s: State, transport: nat, ok: bool): State {
    if !(transport < |s.transports| && s.transports[transport].phase.Open?) then s
    else
      var h := s.transports[transport].handle;
      var t := s.(transports := s.transports[transport := Transport(h, if ok then Succeeded else Rejected)]);
      if h < |s.handles| then
        t.(handles := s.handles[h := s.handles[h].(status := if ok then Closed else Failed, transport := None)])
      else t
  }

  function Step(s: State, e: Event): State {
    match e
    case Subscribe(key) => OnSubscribe(s, key)
    case StartJob(job, created) => OnStartJob(s, job, created)
    case ContinueJob(job, created) => OnContinueJob(s, job, created)
    case CleanJob(job) => OnCleanJob(s, job)
    case Unsubscribe(key) => OnUnsubscribe(s, key)
    case FinishRemoval(removal) => OnFinishRemoval(s, removal)
    case Close(handle) => OnClose(s, handle)
    case Fire(handle) => OnFire(s, handle)
    case FinishTransport(transport, ok) => OnFinishTransport(s, transport, ok)
  }

  function Run(s: State, events: seq<Event>): State
    decreases |events|
  {
    if events == [] then s else Run(Step(s, events[0]), events[1..])
  }

  /** Everything before `job` on its key is done. */
  ghost predicate Earlier(s: State, job: nat)
    requires job <= |s.jobs|
  {
    job < |s.jobs| ==> forall k | 0 <= k < job && s.jobs[k].key == s.jobs[job].key :: s.jobs[k].phase.Done?
  }

  /** `job` is the latest of its key. */
  ghost predicate Latest(s: State, job: nat, key: Key) {
    job < |s.jobs| && s.jobs[job].key == key && forall k | job < k < |s.jobs| :: s.jobs[k].key != key
  }

  /** Each action is chained on the one called just before it on its key, or nothing is left to
      wait for; an action that has started has everything called before it done. */
  ghost predicate QueueOk(s: State) {
    && (forall j | 0 <= j < |s.jobs| :: s.jobs[j].phase.Queued? || Earlier(s, j))
    && (forall j | 0 <= j < |s.jobs| && s.jobs[j].previous.None? :: Earlier(s, j))
    && (forall j | 0 <= j < |s.jobs| && s.jobs[j].previous.Some? :: Chained(s, j))
    && (forall key | key in s.pending :: Latest(s, s.pending[key], key))
    && (forall j | 0 <= j < |s.jobs| && s.jobs[j].key !in s.pending :: s.jobs[j].phase.Done?)
  }

  ghost predicate Chained(s: State, j: nat)
    requires j < |s.jobs| && s.jobs[j].previous.Some?
  {
    var p := s.jobs[j].previous.value;
    p < j && s.jobs[p].key == s.jobs[j].key && forall k | p < k < j :: s.jobs[k].key != s.jobs[j].key
  }

  lemma SubscribeQueue(s: State, key: Key)
    requires QueueOk(s)
    ensures QueueOk(OnSubscribe(s, key))
  {
    var t, n := OnSubscribe(s, key), |s.jobs|;
    forall j | 0 <= j < |t.jobs| ensures t.jobs[j].phase.Queued? || Earlier(t, j) {
      if j < n { assert s.jobs[j].phase.Queued? || Earlier(s, j); }
    }
    forall j | 0 <= j < |t.jobs| && t.jobs[j].previous.None? ensures Earlier(t, j) {
      if j < n { assert Earlier(s, j); }
    }
    forall j | 0 <= j < |t.jobs| && t.jobs[j].previous.Some? ensures Chained(t, j) {
      if j < n { assert Chained(s, j); } else { assert Latest(s, s.pending[key], key); }
    }
  }

  /** Starting: the chained predecessor is done, so everything before is. */
  lemma StartableEarlier(s: State, job: nat)
    requires QueueOk(s) && Startable(s, job)
    ensures Earlier(s, job)
  {
    if s.jobs[job].previous.Some? {
      assert Chained(s, job);
      assert Earlier(s, s.jobs[job].previous.value);
    }
  }

  /** A started action moving on keeps the queue. */
  lemma AdvanceQueue(s: State, t: State, job: nat, phase: JobPhase)
    requires QueueOk(s) && job < |s.jobs| && Earlier(s, job) && !s.jobs[job].phase.Done? && !phase.Queued?
    requires t.jobs == s.jobs[job := s.jobs[job].(phase := phase)] && t.pending == s.pending
    ensures QueueOk(t)
  {
    forall j | 0 <= j < |t.jobs| ensures t.jobs[j].phase.Queued? || Earlier(t, j) {
      assert s.jobs[j].phase.Queued? || Earlier(s, j);
      if j > job && Earlier(s, j) { assert s.jobs[j].key != s.jobs[job].key; }
    }
    forall j | 0 <= j < |t.jobs| && t.jobs[j].previous.None? ensures Earlier(t, j) {
      assert Earlier(s, j);
    }
    forall j | 0 <= j < |t.jobs| && t.jobs[j].previous.Some? ensures Chained(t, j) {
      assert Chained(s, j);
    }
    forall key | key in t.pending ensures Latest(t, t.pending[key], key) {
      assert Latest(s, s.pending[key], key);
    }
  }

  /** Removing a settled tail never drops a queued action: it is the latest, so all are done. */
  lemma CleanQueue(s: State, job: nat)
    requires QueueOk(s)
    ensures QueueOk(OnCleanJob(s, job))
  {
    var t := OnCleanJob(s, job);
    if t.pending != s.pending {
      var key := s.jobs[job].key;
      assert Latest(s, s.pending[key], key);
      assert s.jobs[job].phase.Queued? || Earlier(s, job);
    }
    hide Earlier, Chained;
    forall j | 0 <= j < |t.jobs| ensures t.jobs[j].phase.Queued? || Earlier(t, j) {
      assert s.jobs[j].phase.Queued? || Earlier(s, j);
      SameJobs(s, t, j);
    }
    forall j | 0 <= j < |t.jobs| && t.jobs[j].previous.None? ensures Earlier(t, j) {
      assert Earlier(s, j);
      SameJobs(s, t, j);
    }
    forall j | 0 <= j < |t.jobs| && t.jobs[j].previous.Some? ensures Chained(t, j) {
      assert Chained(s, j);
      SameJobs(s, t, j);
    }
    forall key | key in t.pending ensures Latest(t, t.pending[key], key) {
      assert Latest(s, s.pending[key], key);
    }
  }

  lemma SameJobs(s: State, t: State, j: nat)
    requires s.jobs == t.jobs && j < |s.jobs|
    ensures Earlier(s, j) == Earlier(t, j)
    ensures s.jobs[j].previous.Some? ==> Chained(s, j) == Chained(t, j)
  {
  }

  /** Pending transports: a handle holds the promise of its only open transport, and no settled
      transport leaves its handle active. */
  ghost predicate TransportsOk(s: State) {
    && (forall t | 0 <= t < |s.transports| ::
          && s.transports[t].handle < |s.handles|
          && (s.transports[t].phase.Open? ==> s.handles[s.transports[t].handle].transport == Some(t))
          && (!s.transports[t].phase.Open? ==> !s.handles[s.transports[t].handle].status.Active?))
    && (forall h | 0 <= h < |s.handles| && s.handles[h].transport.Some? ::
          var t := s.handles[h].transport.value; t < |s.transports| && s.transports[t] == Transport(h, Open))
  }

  ghost predicate WaitOk(s: State, wait: Wait, key: Key) {
    && wait.handle < |s.handles| && s.handles[wait.handle].key == key
    && (wait.transport.None? ==> !s.handles[wait.handle].status.Active?)
    && (wait.transport.Some? ==>
        wait.transport.value < |s.transports| && s.transports[wait.transport.value].handle == wait.handle)
  }

  /** What is awaited, by whom: an action awaits the handle registered under its key. */
  ghost predicate WaitsOk(s: State) {
    && (forall r | 0 <= r < |s.removals| :: WaitOk(s, s.removals[r].wait, s.removals[r].key))
    && (forall j | 0 <= j < |s.jobs| && s.jobs[j].phase.Unsubscribing? ::
       AwaitOk(s, s.jobs[j].key, s.jobs[j].phase.wait))
  }

  ghost predicate AwaitOk(s: State, key: Key, wait: Wait) {
    WaitOk(s, wait, key) && (key in s.subscriptions ==> s.subscriptions[key] == wait.handle)
  }

  /** What is registered is the newest handle of its key. */
  ghost predicate RegistryOk(s: State) {
    forall key | key in s.subscriptions :: Newest(s, s.subscriptions[key], key)
  }

  ghost predicate Newest(s: State, handle: nat, key: Key) {
    handle < |s.handles| && s.handles[handle].key == key && forall h | handle < h < |s.handles| ::
      s.handles[h].key != key
  }

  /** Every active handle is the one registered under its key. */
  ghost predicate ActiveOk(s: State) {
    forall h | 0 <= h < |s.handles| && s.handles[h].status.Active? ::
      Lookup(s.subscriptions, s.handles[h].key) == Some(h)
  }

  /** Each handle was made by a finished action of its key. */
  ghost predicate MakersOk(s: State) {
    forall h | 0 <= h < |s.handles| :: MakerOk(s, s.handles[h])
  }

  ghost predicate MakerOk(s: State, h: Handle) {
    h.job < |s.jobs| && s.jobs[h.job].phase.Done? && s.jobs[h.job].key == h.key
  }

  /** The handles of a key were made in call order. */
  ghost predicate OrderOk(s: State) {
    forall h, g | 0 <= h < g < |s.handles| && s.handles[h].key == s.handles[g].key ::
      s.handles[h].job < s.handles[g].job
  }

  ghost predicate HandlesOk(s: State) { RegistryOk(s) && ActiveOk(s) && MakersOk(s) && OrderOk(s) }

  ghost predicate Inv(s: State) { QueueOk(s) && TransportsOk(s) && WaitsOk(s) && HandlesOk(s) }

  lemma InitInv()
    ensures Inv(EMPTY)
  {
  }

  /** The queue depends on nothing but the actions and the tails. */
  lemma SameQueue(s: State, t: State)
    requires QueueOk(s) && s.jobs == t.jobs && s.pending == t.pending
    ensures QueueOk(t)
  {
    hide Earlier, Chained;
    forall j | 0 <= j < |t.jobs| ensures t.jobs[j].phase.Queued? || Earlier(t, j) {
      assert s.jobs[j].phase.Queued? || Earlier(s, j);
      SameJobs(s, t, j);
    }
    forall j | 0 <= j < |t.jobs| && t.jobs[j].previous.None? ensures Earlier(t, j) {
      assert Earlier(s, j);
      SameJobs(s, t, j);
    }
    forall j | 0 <= j < |t.jobs| && t.jobs[j].previous.Some? ensures Chained(t, j) {
      assert Chained(s, j);
      SameJobs(s, t, j);
    }
    forall key | key in t.pending ensures Latest(t, t.pending[key], key) {
      assert Latest(s, s.pending[key], key);
    }
  }

  /** A step that only touches the transports and statuses of handles, and makes none active. */
  ghost predicate Touches(s: State, t: State) {
    && t.jobs == s.jobs && t.pending == s.pending && t.subscriptions == s.subscriptions
    && |t.handles| == |s.handles| && |t.transports| >= |s.transports|
    && (forall h | 0 <= h < |s.handles| :: t.handles[h].key == s.handles[h].key && t.handles[h].job == s.handles[h].job)
    && (forall h | 0 <= h < |s.handles| :: t.handles[h].status.Active? ==> s.handles[h].status.Active?)
    && (forall i | 0 <= i < |s.transports| :: t.transports[i].handle == s.transports[i].handle)
  }

  lemma TouchWait(s: State, t: State, wait: Wait, key: Key)
    requires Touches(s, t) && WaitOk(s, wait, key)
    ensures WaitOk(t, wait, key)
  {
  }

  lemma TouchInv(s: State, t: State)
    requires QueueOk(s) && HandlesOk(s) && WaitsOk(s) && Touches(s, t)
    requires t.removals == s.removals
    ensures QueueOk(t) && HandlesOk(t) && WaitsOk(t)
  {
    SameQueue(s, t);
    hide QueueOk, WaitOk;
    forall key | key in t.subscriptions ensures Newest(t, t.subscriptions[key], key) {
      assert Newest(s, s.subscriptions[key], key);
    }
    forall h | 0 <= h < |t.handles| ensures MakerOk(t, t.handles[h]) {
      assert MakerOk(s, s.handles[h]);
    }
    forall r | 0 <= r < |t.removals| ensures WaitOk(t, t.removals[r].wait, t.removals[r].key) {
      TouchWait(s, t, s.removals[r].wait, s.removals[r].key);
    }
    forall j | 0 <= j < |t.jobs| && t.jobs[j].phase.Unsubscribing?
      ensures AwaitOk(t, t.jobs[j].key, t.jobs[j].phase.wait) {
      assert AwaitOk(s, s.jobs[j].key, s.jobs[j].phase.wait);
      TouchWait(s, t, s.jobs[j].phase.wait, s.jobs[j].key);
    }
    hide Newest, MakerOk;
  }

  /** Unsubscribing starts a transport only when none is pending, and changes nobody's status. */
  lemma UnsubInv(s: State, handle: nat)
    requires Inv(s) && handle < |s.handles|
    ensures var (t, wait) := Unsub(s, handle);
      && Inv(t) && Touches(s, t) && t.removals == s.removals
      && WaitOk(t, wait, s.handles[handle].key) && wait.handle == handle
  {
    hide QueueOk, HandlesOk, WaitsOk;
    TouchInv(s, Unsub(s, handle).0);
  }

  lemma CreateInv(s: State, job: nat, created: bool)
    requires Inv(s) && job < |s.jobs| && !s.jobs[job].phase.Done? && Earlier(s, job)
    requires forall h | 0 <= h < |s.handles| && s.handles[h].key == s.jobs[job].key :: !s.handles[h].status.Active?
    ensures Inv(Create(s, job, created))
  {
    hide QueueOk, HandlesOk, WaitsOk, Earlier, TransportsOk;
    AdvanceQueue(s, Create(s, job, created), job, Done);
    CreateHandles(s, job, created);
    CreateWaits(s, job, created);
    CreateTransports(s, job, created);
  }

  lemma CreateTransports(s: State, job: nat, created: bool)
    requires TransportsOk(s) && job < |s.jobs|
    ensures TransportsOk(Create(s, job, created))
  {
  }

  lemma CreateHandles(s: State, job: nat, created: bool)
    requires Inv(s) && job < |s.jobs| && !s.jobs[job].phase.Done? && Earlier(s, job)
    requires forall h | 0 <= h < |s.handles| && s.handles[h].key == s.jobs[job].key :: !s.handles[h].status.Active?
    ensures HandlesOk(Create(s, job, created))
  {
    hide TransportsOk, WaitsOk, QueueOk, Earlier, OrderOk, MakersOk;
    CreateOrder(s, job, created);
    CreateMakers(s, job, created);
    var t := Create(s, job, created);
    forall k | k in t.subscriptions ensures Newest(t, t.subscriptions[k], k) {
      if k in s.subscriptions { assert Newest(s, s.subscriptions[k], k); }
    }
    hide Newest;
  }

  /** The new handle was made after every earlier one of its key. */
  lemma CreateOrder(s: State, job: nat, created: bool)
    requires QueueOk(s) && MakersOk(s) && OrderOk(s) && job < |s.jobs| && !s.jobs[job].phase.Done?
    ensures OrderOk(Create(s, job, created))
  {
    hide QueueOk;
    var t := Create(s, job, created);
    forall h, g | 0 <= h < g < |t.handles| && t.handles[h].key == t.handles[g].key
      ensures t.handles[h].job < t.handles[g].job {
      if g == |s.handles| {
        assert MakerOk(s, s.handles[h]);
        MadeBefore(s, s.handles[h].job, job);
      }
    }
  }

  lemma CreateMakers(s: State, job: nat, created: bool)
    requires MakersOk(s) && job < |s.jobs|
    ensures MakersOk(Create(s, job, created))
  {
    var t := Create(s, job, created);
    forall h | 0 <= h < |t.handles| ensures MakerOk(t, t.handles[h]) {
      if h < |s.handles| { assert MakerOk(s, s.handles[h]); }
    }
  }

  lemma MadeBefore(s: State, done: nat, job: nat)
    requires QueueOk(s) && done < |s.jobs| && job < |s.jobs| && s.jobs[done].key == s.jobs[job].key
    requires s.jobs[done].phase.Done? && !s.jobs[job].phase.Done?
    ensures done < job
  {
    assert s.jobs[done].phase.Queued? || Earlier(s, done);
  }

  lemma CreateWaits(s: State, job: nat, created: bool)
    requires Inv(s) && job < |s.jobs| && !s.jobs[job].phase.Done? && Earlier(s, job)
    ensures WaitsOk(Create(s, job, created))
  {
    hide TransportsOk, HandlesOk;
    var t := Create(s, job, created);
    forall j | 0 <= j < |t.jobs| && t.jobs[j].phase.Unsubscribing?
      ensures AwaitOk(t, t.jobs[j].key, t.jobs[j].phase.wait) {
      assert AwaitOk(s, s.jobs[j].key, s.jobs[j].phase.wait);
      assert s.jobs[j].phase.Queued? || Earlier(s, j);
    }
    forall r | 0 <= r < |t.removals| ensures WaitOk(t, t.removals[r].wait, t.removals[r].key) {
      assert WaitOk(s, s.removals[r].wait, s.removals[r].key);
    }
  }

  lemma SubscribeInv(s: State, key: Key)
    requires Inv(s)
    ensures Inv(OnSubscribe(s, key))
  {
    hide QueueOk, HandlesOk, TransportsOk;
    SubscribeQueue(s, key);
    var t := OnSubscribe(s, key);
    MoreJobs(s, t);
    SameTransports(s, t);
    forall j | 0 <= j < |t.jobs| && t.jobs[j].phase.Unsubscribing?
      ensures AwaitOk(t, t.jobs[j].key, t.jobs[j].phase.wait) {
      assert AwaitOk(s, s.jobs[j].key, s.jobs[j].phase.wait);
    }
    forall r | 0 <= r < |t.removals| ensures WaitOk(t, t.removals[r].wait, t.removals[r].key) {
      assert WaitOk(s, s.removals[r].wait, s.removals[r].key);
    }
    hide AwaitOk, WaitOk;
  }

  /** Actions may be added and may finish without disturbing the handles. */
  lemma MoreJobs(s: State, t: State)
    requires HandlesOk(s) && t.handles == s.handles && t.subscriptions == s.subscriptions && |s.jobs| <= |t.jobs|
    requires forall j | 0 <= j < |s.jobs| ::
      t.jobs[j].key == s.jobs[j].key && (s.jobs[j].phase.Done? ==> t.jobs[j].phase.Done?)
    ensures HandlesOk(t)
  {
    forall k | k in t.subscriptions ensures Newest(t, t.subscriptions[k], k) {
      assert Newest(s, s.subscriptions[k], k);
    }
    forall h | 0 <= h < |t.handles| ensures MakerOk(t, t.handles[h]) {
      assert MakerOk(s, s.handles[h]);
    }
    hide Newest, MakerOk;
  }

  /** Once an awaited unsubscribe has settled well, no handle of its key is active. */
  lemma WaitOver(s: State, job: nat)
    requires Inv(s) && job < |s.jobs| && s.jobs[job].phase.Unsubscribing? && Ready(s, s.jobs[job].phase.wait)
    ensures forall h | 0 <= h < |s.handles| && s.handles[h].key == s.jobs[job].key :: !s.handles[h].status.Active?
  {
    hide QueueOk;
    assert WaitOk(s, s.jobs[job].phase.wait, s.jobs[job].key);
  }

  lemma StartJobInv(s: State, job: nat, created: bool)
    requires Inv(s)
    ensures Inv(OnStartJob(s, job, created))
  {
    if Startable(s, job) {
      StartableEarlier(s, job);
      var key := s.jobs[job].key;
      if key in s.subscriptions {
        var h := s.subscriptions[key];
        UnsubInv(s, h);
        var (t, wait) := Unsub(s, h);
        AdvanceQueue(t, OnStartJob(s, job, created), job, Unsubscribing(wait));
        AwaitInv(t, job, wait);
      } else {
        CreateInv(s, job, created);
      }
    }
  }

  /** An action that begins to await the handle registered under its key. */
  lemma AwaitInv(s: State, job: nat, wait: Wait)
    requires Inv(s) && job < |s.jobs| && !s.jobs[job].phase.Done? && Earlier(s, job)
    requires WaitOk(s, wait, s.jobs[job].key) && Lookup(s.subscriptions, s.jobs[job].key) == Some(wait.handle)
    ensures Inv(s.(jobs := s.jobs[job := s.jobs[job].(phase := Unsubscribing(wait))]))
  {
    hide QueueOk, Earlier, HandlesOk, WaitsOk, TransportsOk, WaitOk;
    var t := s.(jobs := s.jobs[job := s.jobs[job].(phase := Unsubscribing(wait))]);
    AdvanceQueue(s, t, job, Unsubscribing(wait));
    MoreJobs(s, t);
    SameTransports(s, t);
    AwaitWaits(s, t, job, wait);
  }

  lemma AwaitWaits(s: State, t: State, job: nat, wait: Wait)
    requires WaitsOk(s) && job < |s.jobs| && t == s.(jobs := s.jobs[job := s.jobs[job].(phase := Unsubscribing(wait))])
    requires AwaitOk(s, s.jobs[job].key, wait)
    ensures WaitsOk(t)
  {
    forall j | 0 <= j < |t.jobs| && t.jobs[j].phase.Unsubscribing?
      ensures AwaitOk(t, t.jobs[j].key, t.jobs[j].phase.wait) {
      if j != job { assert AwaitOk(s, s.jobs[j].key, s.jobs[j].phase.wait); }
    }
    forall r | 0 <= r < |t.removals| ensures WaitOk(t, t.removals[r].wait, t.removals[r].key) {
      assert WaitOk(s, s.removals[r].wait, s.removals[r].key);
    }
    hide AwaitOk, WaitOk;
  }

  lemma ContinueJobInv(s: State, job: nat, created: bool)
    requires Inv(s)
    ensures Inv(OnContinueJob(s, job, created))
  {
    if job < |s.jobs| && s.jobs[job].phase.Unsubscribing? && Ready(s, s.jobs[job].phase.wait) {
      WaitOver(s, job);
      assert s.jobs[job].phase.Queued? || Earlier(s, job);
      CreateInv(s, job, created && !Threw(s, s.jobs[job].phase.wait));
    }
    hide QueueOk, TransportsOk, WaitsOk, HandlesOk, Earlier;
  }

  lemma CleanJobInv(s: State, job: nat)
    requires Inv(s)
    ensures Inv(OnCleanJob(s, job))
  {
    CleanQueue(s, job);
    hide QueueOk;
    var t := OnCleanJob(s, job);
    MoreJobs(s, t);
    FewerWaits(s, t);
    hide HandlesOk, WaitsOk;
  }

  lemma UnsubscribeInv(s: State, key: Key)
    requires Inv(s)
    ensures Inv(OnUnsubscribe(s, key))
  {
    if key in s.subscriptions && s.subscriptions[key] < |s.handles| {
      assert Newest(s, s.subscriptions[key], key);
      UnsubInv(s, s.subscriptions[key]);
      var (u, wait) := Unsub(s, s.subscriptions[key]);
      hide Touches, Unsub, QueueOk, HandlesOk, TransportsOk, WaitOk, AwaitOk;
      AddRemoval(u, Removal(key, wait, false));
    }
  }

  lemma AddRemoval(s: State, r: Removal)
    requires Inv(s) && WaitOk(s, r.wait, r.key)
    ensures Inv(s.(removals := s.removals + [r]))
  {
    hide QueueOk, HandlesOk, TransportsOk, AwaitOk, WaitOk;
    var t := s.(removals := s.removals + [r]);
    SameQueue(s, t);
    MoreJobs(s, t);
    SameTransports(s, t);
    forall j | 0 <= j < |t.jobs| && t.jobs[j].phase.Unsubscribing?
      ensures AwaitOk(t, t.jobs[j].key, t.jobs[j].phase.wait) {
      SameAwait(s, t, t.jobs[j].key, t.jobs[j].phase.wait);
    }
    forall i | 0 <= i < |t.removals| ensures WaitOk(t, t.removals[i].wait, t.removals[i].key) {
      SameAwait(s, t, t.removals[i].key, t.removals[i].wait);
    }
  }

  lemma SameAwait(s: State, t: State, key: Key, wait: Wait)
    requires t.handles == s.handles && t.transports == s.transports && t.subscriptions == s.subscriptions
    ensures AwaitOk(s, key, wait) == AwaitOk(t, key, wait) && WaitOk(s, wait, key) == WaitOk(t, wait, key)
  {
  }

  lemma SameTransports(s: State, t: State)
    requires TransportsOk(s) && t.handles == s.handles && t.transports == s.transports
    ensures TransportsOk(t)
  {
  }

  /** A handle is removed only while registered, and then it is not active. */
  lemma FinishRemovalInv(s: State, removal: nat)
    requires Inv(s)
    ensures Inv(OnFinishRemoval(s, removal))
  {
    hide HandlesOk, TransportsOk, QueueOk, WaitsOk, Threw, Ready;
    var t := OnFinishRemoval(s, removal);
    if t != s {
      RemovalHandles(s, removal);
      SameQueue(s, t);
      SameTransports(s, t);
      FewerWaits(s, t);
    }
  }

  lemma RemovalInactive(s: State, removal: nat)
    requires Inv(s) && removal < |s.removals| && Ready(s, s.removals[removal].wait)
    requires !Threw(s, s.removals[removal].wait)
    ensures s.removals[removal].wait.handle < |s.handles| && !s.handles[s.removals[removal].wait.handle].status.Active?
  {
    hide QueueOk, HandlesOk;
    assert WaitOk(s, s.removals[removal].wait, s.removals[removal].key);
  }

  lemma RemovalHandles(s: State, removal: nat)
    requires Inv(s)
    ensures HandlesOk(OnFinishRemoval(s, removal))
  {
    hide QueueOk, TransportsOk, WaitsOk, Newest, MakerOk, Threw, Ready;
    var t := OnFinishRemoval(s, removal);
    if t.subscriptions != s.subscriptions { RemovalInactive(s, removal); }
    forall k | k in t.subscriptions ensures Newest(t, t.subscriptions[k], k) {
      SameHandles(s, t, s.subscriptions[k], k);
    }
    forall h | 0 <= h < |t.handles| ensures MakerOk(t, t.handles[h]) {
      SameHandles(s, t, h, s.handles[h].key);
    }
  }

  lemma SameHandles(s: State, t: State, handle: nat, key: Key)
    requires t.handles == s.handles && t.jobs == s.jobs
    ensures Newest(s, handle, key) == Newest(t, handle, key)
    ensures handle < |s.handles| ==> MakerOk(s, s.handles[handle]) == MakerOk(t, s.handles[handle])
  {
  }

  lemma FewerWaits(s: State, t: State)
    requires WaitsOk(s) && t.jobs == s.jobs && t.handles == s.handles && t.transports == s.transports
    requires |t.removals| == |s.removals|
    requires forall r | 0 <= r < |s.removals| ::
      t.removals[r].key == s.removals[r].key && t.removals[r].wait == s.removals[r].wait
    requires forall k | k in t.subscriptions :: Lookup(s.subscriptions, k) == Some(t.subscriptions[k])
    ensures WaitsOk(t)
  {
    forall j | 0 <= j < |t.jobs| && t.jobs[j].phase.Unsubscribing?
      ensures AwaitOk(t, t.jobs[j].key, t.jobs[j].phase.wait) {
      assert AwaitOk(s, s.jobs[j].key, s.jobs[j].phase.wait);
    }
    forall r | 0 <= r < |t.removals| ensures WaitOk(t, t.removals[r].wait, t.removals[r].key) {
      assert WaitOk(s, s.removals[r].wait, s.removals[r].key);
    }
    hide AwaitOk, WaitOk;
  }

  lemma CloseInv(s: State, handle: nat)
    requires Inv(s)
    ensures Inv(OnClose(s, handle))
  {
    hide Inv, Unsub;
    if handle < |s.handles| { UnsubInv(s, handle); }
  }

  lemma FireInv(s: State, handle: nat)
    requires Inv(s)
    ensures Inv(OnFire(s, handle))
  {
    hide QueueOk, HandlesOk, WaitsOk;
    TouchInv(s, OnFire(s, handle));
  }

  lemma FinishTransportInv(s: State, transport: nat, ok: bool)
    requires Inv(s)
    ensures Inv(OnFinishTransport(s, transport, ok))
  {
    hide QueueOk, HandlesOk, WaitsOk;
    TouchInv(s, OnFinishTransport(s, transport, ok));
  }

  /** Every step keeps the invariant. */
  lemma StepInv(s: State, e: Event)
    requires Inv(s)
    ensures Inv(Step(s, e))
  {
    hide Inv;
    match e {
      case Subscribe(key) => SubscribeInv(s, key);
      case StartJob(job, created) => StartJobInv(s, job, created);
      case ContinueJob(job, created) => ContinueJobInv(s, job, created);
      case CleanJob(job) => CleanJobInv(s, job);
      case Unsubscribe(key) => UnsubscribeInv(s, key);
      case FinishRemoval(removal) => FinishRemovalInv(s, removal);
      case Close(handle) => CloseInv(s, handle);
      case Fire(handle) => FireInv(s, handle);
      case FinishTransport(transport, ok) => FinishTransportInv(s, transport, ok);
    }
  }

  lemma {:induction false} RunInv(s: State, events: seq<Event>)
    requires Inv(s)
    ensures Inv(Run(s, events))
    decreases |events|
  {
    hide Inv, Step;
    if events == [] {
    } else {
      StepInv(s, events[0]);
      RunInv(Step(s, events[0]), events[1..]);
    }
  }

  /** The first action of a key that is not done can always move: it is under way or may start. */
  lemma NeverStuck(s: State, job: nat)
    requires Inv(s) && job < |s.jobs| && s.jobs[job].phase.Queued? && Earlier(s, job)
    ensures Startable(s, job)
  {
    hide TransportsOk, WaitsOk, HandlesOk;
    if s.jobs[job].previous.Some? { assert Chained(s, job); }
  }

  /** At most one action of a key is past its start without being done, and it is the first that
      is not done in call order. */
  ghost predicate OneAtATime(s: State) {
    forall j, k | 0 <= j < k < |s.jobs| && s.jobs[j].key == s.jobs[k].key && !s.jobs[j].phase.Done? ::
      s.jobs[k].phase.Queued?
  }

  /** An unfinished action is still reachable from the tail of its key. */
  ghost predicate NoneDropped(s: State) {
    forall j | 0 <= j < |s.jobs| && !s.jobs[j].phase.Done? ::
      s.jobs[j].key in s.pending && j <= s.pending[s.jobs[j].key]
  }

  ghost predicate OneActive(s: State) {
    forall h, g | 0 <= h < g < |s.handles| && s.handles[h].key == s.handles[g].key ::
      !(s.handles[h].status.Active? && s.handles[g].status.Active?)
  }

  ghost predicate NoOverlap(s: State) {
    forall t, u | 0 <= t < u < |s.transports| && s.transports[t].handle == s.transports[u].handle ::
      !(s.transports[t].phase.Open? && s.transports[u].phase.Open?)
  }

  /** Over every interleaving from the beginning: actions of a key run one at a time in call order,
      none is dropped, at most one handle of a key is active and it is the newest one registered,
      and two transports never overlap on a handle. */
  lemma Reachable(events: seq<Event>)
    ensures var s := Run(EMPTY, events);
      && OneAtATime(s) && NoneDropped(s) && OneActive(s) && NoOverlap(s)
      && forall h | 0 <= h < |s.handles| && s.handles[h].status.Active? :: Newest(s, h, s.handles[h].key)
  {
    InitInv();
    RunInv(EMPTY, events);
    var s := Run(EMPTY, events);
    hide Run;
    InOrder(s);
    Undropped(s);
    HandlesApart(s);
  }

  lemma InOrder(s: State)
    requires QueueOk(s)
    ensures OneAtATime(s)
  {
  }

  lemma Undropped(s: State)
    requires QueueOk(s)
    ensures NoneDropped(s)
  {
    forall j | 0 <= j < |s.jobs| && !s.jobs[j].phase.Done?
      ensures s.jobs[j].key in s.pending && j <= s.pending[s.jobs[j].key] {
      assert Latest(s, s.pending[s.jobs[j].key], s.jobs[j].key);
    }
  }

  lemma HandlesApart(s: State)
    requires TransportsOk(s) && HandlesOk(s)
    ensures OneActive(s) && NoOverlap(s)
    ensures forall h | 0 <= h < |s.handles| && s.handles[h].status.Active? :: Newest(s, h, s.handles[h].key)
  {
  }

  /** The action has ended with one handle more: an active one of its key, made by it and registered. */
  ghost predicate Made(s: State, t: State, job: nat) {
    && job < |s.jobs| && t.jobs == s.jobs[job := s.jobs[job].(phase := Done)]
    && t.handles == s.handles + [Handle(s.jobs[job].key, Active, None, job)]
    && t.subscriptions == s.subscriptions[s.jobs[job].key := |s.handles|]
    && t.transports == s.transports && t.removals == s.removals && t.pending == s.pending
  }

  /** The action has ended without a handle, and what was registered stays so. */
  ghost predicate GaveUp(s: State, t: State, job: nat) {
    && job < |s.jobs| && t.jobs == s.jobs[job := s.jobs[job].(phase := Done)]
    && t.handles == s.handles && t.subscriptions == s.subscriptions
    && t.transports == s.transports && t.removals == s.removals && t.pending == s.pending
  }

  /** With nothing registered an action makes its handle at once, or gives up when its listener cannot
      be added. */
  lemma StartMakes(s: State, job: nat)
    requires Inv(s) && Startable(s, job) && s.jobs[job].key !in s.subscriptions
    ensures Made(s, OnStartJob(s, job, true), job) && GaveUp(s, OnStartJob(s, job, false), job)
  {
    hide Inv;
  }

  /** With a handle registered an action closes that one first, and makes none yet. */
  lemma StartCloses(s: State, job: nat, created: bool)
    requires Inv(s) && Startable(s, job) && s.jobs[job].key in s.subscriptions
    ensures var t, h := OnStartJob(s, job, created), s.subscriptions[s.jobs[job].key];
      && h < |s.handles| == |t.handles| && t.subscriptions == s.subscriptions
      && t.jobs[job].phase.Unsubscribing? && t.jobs[job].phase.wait.handle == h
      && (!s.handles[h].status.Closed? ==>
          && t.handles[h].transport.Some? && t.jobs[job].phase.wait.transport == t.handles[h].transport
          && t.handles[h].transport.value < |t.transports|
          && t.transports[t.handles[h].transport.value] == Transport(h, Open))
      && (s.handles[h].status.Closed? ==> t.handles == s.handles && Ready(t, t.jobs[job].phase.wait))
  {
    hide QueueOk, WaitsOk;
    assert Newest(s, s.subscriptions[s.jobs[job].key], s.jobs[job].key);
  }

  /** Once the old handle is closed the action makes its own, or gives up when its listener cannot be
      added or the unsubscribe was rejected. */
  lemma ContinueMakes(s: State, job: nat, created: bool)
    requires Inv(s) && job < |s.jobs| && s.jobs[job].phase.Unsubscribing? && Ready(s, s.jobs[job].phase.wait)
    ensures if created && !Threw(s, s.jobs[job].phase.wait) then Made(s, OnContinueJob(s, job, created), job)
      else GaveUp(s, OnContinueJob(s, job, created), job)
  {
    hide Inv;
  }

  /** Subscribing to a key with no action left and nothing registered gives an active handle. */
  lemma SubscribeWorks(s: State, key: Key)
    requires Inv(s) && key !in s.subscriptions
    requires forall j | 0 <= j < |s.jobs| && s.jobs[j].key == key :: s.jobs[j].phase.Done?
    ensures var t := Run(s, [Subscribe(key), StartJob(|s.jobs|, true)]);
      && Inv(t) && |t.jobs| == |s.jobs| + 1 && t.jobs[|s.jobs|].key == key && t.jobs[|s.jobs|].phase.Done?
      && t.handles == s.handles + [Handle(key, Active, None, |s.jobs|)]
      && t.subscriptions == s.subscriptions[key := |s.handles|]
  {
    var u := OnSubscribe(s, key);
    SubscribeInv(s, key);
    NewestStarts(s, key);
    StartJobInv(u, |s.jobs|, true);
    StartMakes(u, |s.jobs|);
    hide Inv, OnSubscribe, OnStartJob;
    RunTwo(s, Subscribe(key), StartJob(|s.jobs|, true));
  }

  lemma NewestStarts(s: State, key: Key)
    requires QueueOk(s) && forall j | 0 <= j < |s.jobs| && s.jobs[j].key == key :: s.jobs[j].phase.Done?
    ensures Startable(OnSubscribe(s, key), |s.jobs|) && OnSubscribe(s, key).jobs[|s.jobs|].key == key
    ensures |OnSubscribe(s, key).jobs| == |s.jobs| + 1 && OnSubscribe(s, key).handles == s.handles
    ensures OnSubscribe(s, key).subscriptions == s.subscriptions
  {
    if key in s.pending { assert Latest(s, s.pending[key], key); }
  }

  lemma RunTwo(s: State, d: Event, e: Event)
    ensures Run(s, [d, e]) == Step(Step(s, d), e)
  {
    hide Step;
    assert [d, e][1..] == [e] && [e][1..] == [];
    assert Run(Step(s, d), [e]) == Run(Step(Step(s, d), e), []);
  }

  lemma RunThree(s: State, d: Event, e: Event, f: Event)
    ensures Run(s, [d, e, f]) == Step(Step(Step(s, d), e), f)
  {
    hide Step;
    assert [d, e, f][1..] == [e, f];
    RunTwo(Step(s, d), e, f);
  }

  /** A key whose active handle is registered and has no unsubscribe pending. */
  ghost predicate Settled(s: State, key: Key) {
    && key in s.subscriptions && s.subscriptions[key] < |s.handles|
    && s.handles[s.subscriptions[key]].status.Active? && s.handles[s.subscriptions[key]].transport.None?
  }

  /** The action has ended, with its new handle in place of the closed one, or with the old one failed
      and still registered. */
  ghost predicate Replaced(s: State, t: State, job: nat, ok: bool) {
    && job < |s.jobs| && Settled(s, s.jobs[job].key) && t.jobs == s.jobs[job := s.jobs[job].(phase := Done)]
    && var key, h := s.jobs[job].key, s.subscriptions[s.jobs[job].key];
    && (if ok then
          && t.handles == s.handles[h := s.handles[h].(status := Closed)] + [Handle(key, Active, None, job)]
          && t.subscriptions == s.subscriptions[key := |s.handles|]
        else
          && t.handles == s.handles[h := s.handles[h].(status := Failed)]
          && t.subscriptions == s.subscriptions)
  }

  /** The handle of a key is closed and out of the register, or has failed and stays registered. */
  ghost predicate Retired(s: State, t: State, key: Key, ok: bool) {
    && Settled(s, key) && t.jobs == s.jobs
    && var h := s.subscriptions[key];
    && t.handles == s.handles[h := s.handles[h].(status := if ok then Closed else Failed)]
    && t.subscriptions == if ok then s.subscriptions - {key} else s.subscriptions
  }

  /** Subscribing again closes the old handle and then makes the new one; if the old one cannot be
      closed no handle is made. */
  lemma ResubscribeWorks(s: State, job: nat, ok: bool)
    requires Startable(s, job) && Settled(s, s.jobs[job].key)
    ensures var events := [StartJob(job, true), FinishTransport(|s.transports|, ok), ContinueJob(job, true)];
      Replaced(s, Run(s, events), job, ok)
  {
    var n, h := |s.transports|, s.subscriptions[s.jobs[job].key];
    RunThree(s, StartJob(job, true), FinishTransport(n, ok), ContinueJob(job, true));
    hide Run, OnFinishTransport;
    var t := OnStartJob(s, job, true);
    var u := OnFinishTransport(t, n, ok);
    Closes(s, t, h, ok);
    assert u.jobs[job].phase == Unsubscribing(Wait(h, Some(n)));
    assert Threw(u, Wait(h, Some(n))) <==> !ok;
  }

  /** What the end of the transport of a handle that is being closed changes. */
  lemma Closes(s: State, t: State, h: nat, ok: bool)
    requires h < |s.handles| && t.transports == s.transports + [Transport(h, Open)]
    requires s.handles[h].transport.None?
    requires t.handles == s.handles[h := s.handles[h].(transport := Some(|s.transports|))]
    ensures OnFinishTransport(t, |s.transports|, ok)
         == t.(transports := s.transports + [Transport(h, if ok then Succeeded else Rejected)],
               handles := s.handles[h := s.handles[h].(status := if ok then Closed else Failed)])
  {
  }

  /** Unsubscribing a key closes its handle and takes it out of the register, unless closing fails. */
  lemma UnsubscribeWorks(s: State, key: Key, ok: bool)
    requires Settled(s, key)
    ensures var events := [Unsubscribe(key), FinishTransport(|s.transports|, ok), FinishRemoval(|s.removals|)];
      Retired(s, Run(s, events), key, ok)
  {
    var n, r, h := |s.transports|, |s.removals|, s.subscriptions[key];
    RunThree(s, Unsubscribe(key), FinishTransport(n, ok), FinishRemoval(r));
    hide Run, OnFinishTransport;
    var t := OnUnsubscribe(s, key);
    var u := OnFinishTransport(t, n, ok);
    Closes(s, t, h, ok);
    assert u.removals[r] == Removal(key, Wait(h, Some(n)), false);
    assert Threw(u, Wait(h, Some(n))) <==> !ok;
  }

  /** No tail is left of an action whose `finally` has run. */
  ghost predicate TailsOk(s: State) {
    && (forall key | key in s.pending :: s.pending[key] < |s.jobs| && s.pending[key] !in s.cleaned)
    && (forall key | key in s.pending :: s.jobs[s.pending[key]].key == key)
    && (forall job | job in s.cleaned :: job < |s.jobs|)
  }

  lemma StepTails(s: State, e: Event)
    requires TailsOk(s)
    ensures TailsOk(Step(s, e))
  {
    hide Unsub, Create;
    KeepsKeys(s, e);
    KeepsTails(s, e);
    if !e.CleanJob? && !e.Subscribe? { hide Step; }
  }

  lemma KeepsKeys(s: State, e: Event)
    ensures |s.jobs| <= |Step(s, e).jobs| && forall j | 0 <= j < |s.jobs| :: Step(s, e).jobs[j].key == s.jobs[j].key
  {
  }

  /** Only subscribing and cleaning up change the tails. */
  lemma KeepsTails(s: State, e: Event)
    ensures e.CleanJob? || Step(s, e).cleaned == s.cleaned
    ensures e.CleanJob? || e.Subscribe? || Step(s, e).pending == s.pending
  {
  }

  /** The transport of a handle comes to its end. */
  predicate Ends(s: State, e: Event, h: nat) {
    e.FinishTransport? && e.transport < |s.transports| && s.transports[e.transport] == Transport(h, Open)
  }

  /** A handle stays what it is, and stays active exactly until its listener closes it or its unsubscribe
      settles; what is not active never becomes so again. */
  lemma StaysActiveIff(s: State, e: Event, h: nat)
    requires h < |s.handles|
    ensures h < |Step(s, e).handles|
    ensures var x, y := s.handles[h], Step(s, e).handles[h];
      && y.key == x.key && y.job == x.job
      && (y.status.Active? <==> x.status.Active? && e != Fire(h) && !Ends(s, e, h))
      && (x.status.Active? && e == Fire(h) ==> y.status.Closed?)
      && (Ends(s, e, h) ==> y.status == if e.ok then Closed else Failed)
      && (!Ends(s, e, h) && e != Fire(h) ==> y.status == x.status)
  {
    hide Startable, Ready, Threw, Lookup;
    if !e.FinishTransport? { hide Ends; }
  }

  lemma {:induction false} NeverRevived(s: State, events: seq<Event>, h: nat)
    requires h < |s.handles| && !s.handles[h].status.Active?
    ensures var t := Run(s, events); h < |t.handles| && !t.handles[h].status.Active?
    decreases |events|
  {
    hide Step;
    if events == [] {
    } else {
      StaysActiveIff(s, events[0], h);
      NeverRevived(Step(s, events[0]), events[1..], h);
    }
  }

  /** In every interleaving, once every action of a key has been cleaned up, no tail of it is left. */
  lemma {:induction false} RunTails(s: State, events: seq<Event>, key: Key)
    requires TailsOk(s)
    ensures var t := Run(s, events);
      (forall j | 0 <= j < |t.jobs| && t.jobs[j].key == key :: j in t.cleaned) ==> key !in t.pending
    decreases |events|
  {
    hide Step;
    if events == [] {
    } else {
      StepTails(s, events[0]);
      RunTails(Step(s, events[0]), events[1..], key);
    }
  }

  /** The manager itself: each method is one uninterrupted stretch of the source between awaits. */
  class SubscriptionManager {
    var jobs: seq<Job>
    var cleaned: set<nat>
    var pending: map<Key, nat>
    var handles: seq<Handle>
    var subscriptions: map<Key, nat>
    var transports: seq<Transport>
    var removals: seq<Removal>

    ghost function View(): State
      reads this
    {
      State(jobs, cleaned, pending, handles, subscriptions, transports, removals)
    }

    constructor ()
      ensures View() == EMPTY && Inv(View())
    {
      jobs, cleaned, pending, handles, subscriptions, transports, removals := [], {}, map[], [], map[], [], [];
      new;
      InitInv();
    }

    /** `serial`, up to its await. */
    method Subscribe(key: Key) returns (job: nat)
      requires Inv(View())
      modifies this
      ensures View() == OnSubscribe(old(View()), key) && Inv(View()) && job == old(|jobs|)
    {
      hide Inv;
      SubscribeInv(View(), key);
      job := |jobs|;
      jobs := jobs + [Job(key, Lookup(pending, key), Queued)];
      pending := pending[key := job];
    }

    /** `SubscriptionHandle.unsubscribe`, up to its await. */
    method UnsubscribeHandle(handle: nat) returns (wait: Wait)
      requires handle < |handles|
      modifies this`handles, this`transports
      ensures (View(), wait) == Unsub(old(View()), handle)
    {
      if handles[handle].status.Closed? { return Wait(handle, None); }
      if handles[handle].transport.Some? { return Wait(handle, handles[handle].transport); }
      wait := Wait(handle, Some(|transports|));
      handles := handles[handle := handles[handle].(transport := Some(|transports|))];
      transports := transports + [Transport(handle, Open)];
    }

    /** An action, up to its await or to its end. */
    method StartJob(job: nat, created: bool)
      requires Inv(View()) && Startable(View(), job)
      modifies this
      ensures View() == OnStartJob(old(View()), job, created) && Inv(View())
    {
      hide Inv, Create;
      StartJobInv(View(), job, created);
      var key := jobs[job].key;
      if key in subscriptions && subscriptions[key] < |handles| {
        var wait := UnsubscribeHandle(subscriptions[key]);
        jobs := jobs[job := jobs[job].(phase := Unsubscribing(wait))];
      } else {
        FinishJob(job, created);
      }
    }

    /** The end of an action: the new handle, unless its listener could not be added. */
    method FinishJob(job: nat, created: bool)
      requires job < |jobs|
      modifies this
      ensures View() == Create(old(View()), job, created)
    {
      var key := jobs[job].key;
      if created {
        subscriptions := subscriptions[key := |handles|];
        handles := handles + [Handle(key, Active, None, job)];
      }
      jobs := jobs[job := jobs[job].(phase := Done)];
    }

    /** An action after its await. */
    method ContinueJob(job: nat, created: bool)
      requires Inv(View())
      requires job < |jobs| && jobs[job].phase.Unsubscribing? && Ready(View(), jobs[job].phase.wait)
      modifies this
      ensures View() == OnContinueJob(old(View()), job, created) && Inv(View())
    {
      hide Inv;
      ContinueJobInv(View(), job, created);
      var wait := jobs[job].phase.wait;
      if wait.transport.Some? && transports[wait.transport.value].phase.Rejected? {
        jobs := jobs[job := jobs[job].(phase := Done)];
      } else {
        FinishJob(job, created);
      }
    }

    /** The `finally` of `serial`. */
    method CleanJob(job: nat)
      requires Inv(View()) && job < |jobs| && jobs[job].phase.Done? && job !in cleaned
      modifies this
      ensures View() == OnCleanJob(old(View()), job) && Inv(View())
    {
      hide Inv;
      CleanJobInv(View(), job);
      var key := jobs[job].key;
      if Lookup(pending, key) == Some(job) { pending := pending - {key}; }
      cleaned := cleaned + {job};
    }

    /** `unsubscribe` of a key, up to its await. */
    method Unsubscribe(key: Key)
      requires Inv(View())
      modifies this
      ensures View() == OnUnsubscribe(old(View()), key) && Inv(View())
    {
      hide Inv;
      UnsubscribeInv(View(), key);
      if key in subscriptions && subscriptions[key] < |handles| {
        var wait := UnsubscribeHandle(subscriptions[key]);
        removals := removals + [Removal(key, wait, false)];
      }
    }

    /** `unsubscribe` of a key after its await: only the handle that it closed is removed. */
    method FinishRemoval(removal: nat)
      requires Inv(View()) && removal < |removals| && !removals[removal].finished
      requires Ready(View(), removals[removal].wait)
      modifies this
      ensures View() == OnFinishRemoval(old(View()), removal) && Inv(View())
    {
      hide Inv;
      FinishRemovalInv(View(), removal);
      var r := removals[removal];
      removals := removals[removal := r.(finished := true)];
      if r.wait.transport.Some? && transports[r.wait.transport.value].phase.Rejected? { return; }
      if Lookup(subscriptions, r.key) == Some(r.wait.handle) { subscriptions := subscriptions - {r.key}; }
    }

    /** A signature listener that fires. */
    method Fire(handle: nat)
      requires Inv(View()) && handle < |handles|
      modifies this
      ensures View() == OnFire(old(View()), handle) && Inv(View())
    {
      hide Inv;
      FireInv(View(), handle);
      if handles[handle].status.Active? { handles := handles[handle := handles[handle].(status := Closed)]; }
    }

    /** The end of an unsubscribe transport. */
    method FinishTransport(transport: nat, ok: bool)
      requires Inv(View()) && transport < |transports| && transports[transport].phase.Open?
      modifies this
      ensures View() == OnFinishTransport(old(View()), transport, ok) && Inv(View())
    {
      hide Inv;
      FinishTransportInv(View(), transport, ok);
      var handle := transports[transport].handle;
      transports := transports[transport := Transport(handle, if ok then Succeeded else Rejected)];
      if handle < |handles| {
        handles := handles[handle := handles[handle].(status := if ok then Closed else Failed, transport := None)];
      }
    }
  }
}
