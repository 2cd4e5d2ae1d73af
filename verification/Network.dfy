/** Outstanding requests: the handler table, the request semaphore and the callbacks. */
module Network {

  const ID_LIMIT: nat := 0x1_0000_0000

  /** Every request brings its own handler. */
  type Handler = nat

  datatype Call = Response | Failure

  /** A thread that took a handler out of the table releases the slot and then makes the callback. */
  datatype Stage = Releasing(call: Call) | Calling(call: Call)

  /** `senders` have taken a slot and not yet entered the locked part of sending. `registered` and `calls` record which
      handlers ever waited for an answer and which callbacks each got; `sent` counts the request ids handed out. */
  datatype State = State(
    limit: nat, held: nat, outstanding: map<nat, Handler>, nextId: nat, closed: bool,
    senders: set<Handler>, stages: map<Handler, Stage>, registered: set<Handler>, calls: map<Handler, seq<Call>>, sent: nat)

  datatype Event =
    | Acquire(h: Handler)
    | GiveUp(h: Handler)
    | SendOk(h: Handler)
    | SendFails(h: Handler)
    | Fulfil(id: nat, call: Call)
    | Release(h: Handler)
    | Callback(h: Handler)
    | Shutdown

  function Init(limit: nat): State {
    State(limit, 0, map[], 0, false, {}, map[], {}, map[], 0)
  }

  function CallsOf(s: State, h: Handler): seq<Call> {
    if h in s.calls then s.calls[h] else []
  }

  /** A handler that no request has used yet. */
  predicate Unused(s: State, h: Handler) {
    h !in s.senders && h !in s.outstanding.Values && h !in s.stages && h !in s.registered && h !in s.calls
  }

  /** A sender gives its slot back when the network is closed, its context is cancelled or no peer fits. */
  predicate Enabled(s: State, e: Event) {
    match e
    case Acquire(h) => Unused(s, h) && s.held < s.limit
    case GiveUp(h) => h in s.senders && s.held > 0
    case SendOk(h) => h in s.senders && !s.closed
    case SendFails(h) => h in s.senders && !s.closed && s.held > 0
    case Fulfil(id, call) => id in s.outstanding
    case Release(h) => h in s.stages && s.stages[h].Releasing? && s.held > 0
    case Callback(h) => h in s.stages && s.stages[h].Calling?
    case Shutdown => true
  }

  /** Request ids are even and wrap around at 32 bits. */
  function Following(id: nat): nat {
    (id + 2) % ID_LIMIT
  }

  function Called(calls: map<Handler, seq<Call>>, h: Handler, call: Call): map<Handler, seq<Call>> {
    calls[h := (if h in calls then calls[h] else []) + [call]]
  }

  /** The callbacks after failing every handler of a set. */
  function AllFailed(calls: map<Handler, seq<Call>>, handlers: set<Handler>): map<Handler, seq<Call>> {
    map h | h in calls.Keys + handlers ::
      (if h in calls then calls[h] else []) + if h in handlers then [Failure] else []
  }

  function Next(s: State, e: Event): State
    requires Enabled(s, e)
  {
    match e
    case Acquire(h) => s.(held := s.held + 1, senders := s.senders + {h})
    case GiveUp(h) => s.(held := s.held - 1, senders := s.senders - {h})
    case SendOk(h) =>
      s.(outstanding := s.outstanding[s.nextId := h], nextId := Following(s.nextId), sent := s.sent + 1,
         senders := s.senders - {h}, registered := s.registered + {h})
    case SendFails(h) =>
      s.(outstanding := s.outstanding - {s.nextId}, nextId := Following(s.nextId), sent := s.sent + 1,
         senders := s.senders - {h}, held := s.held - 1)
    case Fulfil(id, call) =>
      s.(outstanding := s.outstanding - {id}, stages := s.stages[s.outstanding[id] := Releasing(call)])
    case Release(h) => s.(held := s.held - 1, stages := s.stages[h := Calling(s.stages[h].call)])
    case Callback(h) => s.(stages := s.stages - {h}, calls := Called(s.calls, h, s.stages[h].call))
    case Shutdown => s.(outstanding := map[], calls := AllFailed(s.calls, s.outstanding.Values), closed := true)
  }

  function InRelease(s: State): set<Handler> {
    set h | h in s.stages && s.stages[h].Releasing?
  }

  predicate Injective(m: map<nat, Handler>) {
    forall i, j :: i in m && j in m && m[i] == m[j] ==> i == j
  }

  /** A registered handler waits in the table, is being answered, or has had exactly one callback. */
  predicate ExactlyOnce(s: State, h: Handler) {
    if h in s.outstanding.Values then h !in s.stages && h !in s.calls
    else if h in s.stages then h !in s.calls
    else |CallsOf(s, h)| == 1
  }

  predicate HandlersOk(s: State) {
    && Injective(s.outstanding)
    && (forall i :: i in s.outstanding ==> s.outstanding[i] in s.registered)
    && (forall h :: h in s.stages ==> h in s.registered)
    && (forall h :: h in s.calls ==> h in s.registered)
    && (forall h :: h in s.registered ==> ExactlyOnce(s, h))
    && (forall h :: h in s.senders ==> h !in s.registered)
    && (s.closed ==> s.outstanding == map[])
  }

  function SlotsNeeded(s: State): nat {
    |s.senders| + |s.outstanding| + |InRelease(s)|
  }

  /** While open, the slots held are those of the senders, the waiting handlers and the threads about to release;
      after `Shutdown` the slots of the dropped handlers stay held. */
  predicate SlotsOk(s: State) {
    SlotsNeeded(s) <= s.held <= s.limit && (!s.closed ==> s.held == SlotsNeeded(s))
  }

  predicate NetOk(s: State) {
    HandlersOk(s) && SlotsOk(s)
  }

  /** The next request id is not in use, for the events that take one. */
  predicate FreshId(s: State, e: Event) {
    e.SendOk? || e.SendFails? ==> s.nextId !in s.outstanding
  }

  lemma InitIsOk(limit: nat)
    ensures NetOk(Init(limit))
  {
  }

  lemma MapInsert(m: map<nat, Handler>, id: nat, h: Handler)
    requires id !in m
    ensures |m[id := h]| == |m| + 1
  {
    assert m[id := h].Keys == m.Keys + {id};
  }

  lemma MapRemove(m: map<nat, Handler>, id: nat)
    ensures id in m ==> |m - {id}| == |m| - 1
    ensures id !in m ==> m - {id} == m
  {
    assert id in m ==> m.Keys == (m - {id}).Keys + {id};
  }

  lemma StepKeepsSlots(s: State, e: Event)
    requires NetOk(s) && Enabled(s, e) && FreshId(s, e)
    ensures SlotsOk(Next(s, e))
  {
    hide HandlersOk, InRelease, AllFailed, Called, Following;
    if e.Fulfil? {
      TakenIsNew(s, e.id);
    }
    CountSenders(s, e);
    CountOutstanding(s, e);
    ReleaseSet(s, e);
  }

  lemma CountSenders(s: State, e: Event)
    requires Enabled(s, e)
    ensures |Next(s, e).senders| == |s.senders| + if e.Acquire? then 1
                                                   else if e.GiveUp? || e.SendOk? || e.SendFails? then -1 else 0
  {
    hide AllFailed, Called, Following;
  }

  lemma CountOutstanding(s: State, e: Event)
    requires Enabled(s, e) && FreshId(s, e)
    ensures |Next(s, e).outstanding| == if e.SendOk? then |s.outstanding| + 1 else if e.Fulfil? then |s.outstanding| - 1
                                        else if e.Shutdown? then 0 else |s.outstanding|
  {
    hide AllFailed, Called, Following, Unused;
    if e.SendOk? {
      MapInsert(s.outstanding, s.nextId, e.h);
    } else if e.Fulfil? {
      MapRemove(s.outstanding, e.id);
    } else if e.SendFails? {
      MapRemove(s.outstanding, s.nextId);
    }
  }

  /** Which threads are about to release a slot after an event. */
  lemma ReleaseSet(s: State, e: Event)
    requires Enabled(s, e) && (e.Fulfil? ==> s.outstanding[e.id] !in s.stages)
    ensures e.Fulfil? ==> s.outstanding[e.id] !in InRelease(s)
                          && InRelease(Next(s, e)) == InRelease(s) + {s.outstanding[e.id]}
    ensures e.Release? ==> e.h in InRelease(s) && InRelease(Next(s, e)) == InRelease(s) - {e.h}
    ensures !e.Fulfil? && !e.Release? ==> InRelease(Next(s, e)) == InRelease(s)
  {
    hide AllFailed, Called, Following;
  }

  lemma TakenIsNew(s: State, id: nat)
    requires HandlersOk(s) && id in s.outstanding
    ensures s.outstanding[id] !in s.stages && s.outstanding[id] !in s.calls
  {
    assert ExactlyOnce(s, s.outstanding[id]);
  }

  lemma RegisterKeepsHandlers(s: State, h: Handler)
    requires NetOk(s) && Enabled(s, SendOk(h)) && s.nextId !in s.outstanding
    ensures HandlersOk(Next(s, SendOk(h)))
  {
    var t := Next(s, SendOk(h));
    forall i | i in s.outstanding
      ensures s.outstanding[i] != h
    {
    }
    forall g | g in t.registered
      ensures ExactlyOnce(t, g)
    {
      InsertValue(s.outstanding, s.nextId, h, g);
      if g != h {
        assert ExactlyOnce(s, g);
      }
    }
  }

  lemma InsertValue(m: map<nat, Handler>, id: nat, h: Handler, g: Handler)
    requires id !in m
    ensures g in m[id := h].Values <==> g == h || g in m.Values
  {
    assert m[id := h][id] == h;
    forall i | i in m
      ensures m[id := h][i] == m[i]
    {
    }
  }

  lemma RemoveValue(m: map<nat, Handler>, id: nat, g: Handler)
    requires id in m && Injective(m)
    ensures g in (m - {id}).Values <==> g != m[id] && g in m.Values
  {
    if g in m.Values && g != m[id] {
      var i :| i in m && m[i] == g;
      assert i in m - {id};
    }
  }

  lemma FulfilKeepsHandlers(s: State, id: nat, call: Call)
    requires NetOk(s) && Enabled(s, Fulfil(id, call))
    ensures HandlersOk(Next(s, Fulfil(id, call)))
  {
    var t := Next(s, Fulfil(id, call));
    TakenIsNew(s, id);
    forall g | g in t.registered
      ensures ExactlyOnce(t, g)
    {
      assert ExactlyOnce(s, g);
      RemoveValue(s.outstanding, id, g);
    }
  }

  lemma ShutdownKeepsHandlers(s: State)
    requires NetOk(s)
    ensures HandlersOk(Next(s, Shutdown))
  {
    var t := Next(s, Shutdown);
    forall g | g in t.registered
      ensures ExactlyOnce(t, g)
    {
      assert ExactlyOnce(s, g);
      assert CallsOf(t, g) == CallsOf(s, g) + if g in s.outstanding.Values then [Failure] else [];
    }
  }

  lemma StepKeepsNet(s: State, e: Event)
    requires NetOk(s) && Enabled(s, e) && FreshId(s, e)
    ensures NetOk(Next(s, e))
  {
    StepKeepsSlots(s, e);
    var t := Next(s, e);
    match e {
      case SendOk(h) => RegisterKeepsHandlers(s, h);
      case SendFails(h) => MapRemove(s.outstanding, s.nextId); Unmoved(s, t);
      case Fulfil(id, call) => FulfilKeepsHandlers(s, id, call);
      case Shutdown => ShutdownKeepsHandlers(s);
      case Callback(h) => CallbackKeepsHandlers(s, h);
      case Release(h) => ReleaseKeepsHandlers(s, h);
      case Acquire(h) => Unmoved(s, t);
      case GiveUp(h) => Unmoved(s, t);
    }
  }

  lemma Unmoved(s: State, t: State)
    requires HandlersOk(s) && t.outstanding == s.outstanding && t.stages == s.stages && t.calls == s.calls
    requires t.registered == s.registered && t.closed == s.closed && forall h :: h in t.senders ==> h !in s.registered
    ensures HandlersOk(t)
  {
    forall g | g in t.registered
      ensures ExactlyOnce(t, g)
    {
      assert ExactlyOnce(s, g);
    }
  }

  lemma CallbackKeepsHandlers(s: State, h: Handler)
    requires NetOk(s) && Enabled(s, Callback(h))
    ensures HandlersOk(Next(s, Callback(h)))
  {
    var t := Next(s, Callback(h));
    assert ExactlyOnce(s, h);
    forall g | g in t.registered
      ensures ExactlyOnce(t, g)
    {
      assert ExactlyOnce(s, g);
    }
  }

  lemma ReleaseKeepsHandlers(s: State, h: Handler)
    requires NetOk(s) && Enabled(s, Release(h))
    ensures HandlersOk(Next(s, Release(h)))
  {
    var t := Next(s, Release(h));
    forall g | g in t.registered
      ensures ExactlyOnce(t, g)
    {
      assert ExactlyOnce(s, g);
    }
  }

  predicate EnabledRun(s: State, events: seq<Event>)
    decreases |events|
  {
    events == []
    || (Enabled(s, events[0]) && FreshId(s, events[0]) && EnabledRun(Next(s, events[0]), events[1..]))
  }

  function Run(s: State, events: seq<Event>): State
    requires EnabledRun(s, events)
    decreases |events|
  {
    if events == [] then s else Run(Next(s, events[0]), events[1..])
  }

  lemma {:induction false} RunKeepsNet(s: State, events: seq<Event>)
    requires NetOk(s) && EnabledRun(s, events)
    ensures NetOk(Run(s, events))
    decreases |events|
  {
    hide NetOk, Enabled, Next;
    if events != [] {
      StepKeepsNet(s, events[0]);
      RunKeepsNet(Next(s, events[0]), events[1..]);
    }
  }

  /** At rest and open, the held slots are exactly the registered handlers that wait. */
  lemma SlotsMatchHandlers(limit: nat, events: seq<Event>)
    requires EnabledRun(Init(limit), events)
    ensures var s := Run(Init(limit), events);
            !s.closed && s.senders == {} && s.stages == map[] ==> s.held == |s.outstanding|
  {
    InitIsOk(limit);
    RunKeepsNet(Init(limit), events);
    var s := Run(Init(limit), events);
    if s.stages == map[] {
      assert InRelease(s) == {};
    }
  }

  /** No handler ever gets two callbacks, so its channel is never closed twice; and once the network is shut down and
      the answers in progress are done, every registered handler has had exactly one. */
  lemma OneCallbackEach(limit: nat, events: seq<Event>, h: Handler)
    requires EnabledRun(Init(limit), events)
    ensures var s := Run(Init(limit), events);
            && |CallsOf(s, h)| <= 1
            && (s.closed && s.stages == map[] && h in s.registered ==> |CallsOf(s, h)| == 1)
  {
    InitIsOk(limit);
    RunKeepsNet(Init(limit), events);
    var s := Run(Init(limit), events);
    if h in s.registered {
      assert ExactlyOnce(s, h);
    }
  }

  /** A slot that is given back is always held, so the semaphore is never released below zero. */
  lemma ReleasesAreBacked(s: State, h: Handler)
    requires NetOk(s) && (h in s.senders || (h in s.stages && s.stages[h].Releasing?))
    ensures s.held > 0
  {
    if h in s.stages && s.stages[h].Releasing? {
      assert h in InRelease(s);
    }
  }

  /** A registered handler that nothing refers to any more and that was never called back. */
  predicate Lost(s: State, h: Handler) {
    h in s.registered && h !in s.outstanding.Values && h !in s.stages && h !in s.senders && h !in s.calls
  }

  /** Taking an id that is in use, whether the request is delivered or not, loses the handler registered under it.
      Sending keeps the bookkeeping if and only if the next id is free. */
  lemma FreshIdIsNeeded(s: State, e: Event)
    requires NetOk(s) && (e.SendOk? || e.SendFails?) && Enabled(s, e)
    ensures NetOk(Next(s, e)) <==> s.nextId !in s.outstanding
    ensures s.nextId in s.outstanding ==> Lost(Next(s, e), s.outstanding[s.nextId])
  {
    if s.nextId in s.outstanding {
      var lost := s.outstanding[s.nextId];
      var t := Next(s, e);
      TakenIsNew(s, s.nextId);
      assert lost != e.h;
      forall i | i in t.outstanding
        ensures t.outstanding[i] != lost
      {
      }
      assert !ExactlyOnce(t, lost);
    } else {
      StepKeepsNet(s, e);
    }
  }

  lemma StepKeepsLost(s: State, e: Event, h: Handler)
    requires Lost(s, h) && Enabled(s, e)
    ensures Lost(Next(s, e), h)
  {
    var t := Next(s, e);
    forall i | i in t.outstanding
      ensures t.outstanding[i] != h
    {
      if i in s.outstanding && t.outstanding[i] == s.outstanding[i] {
        assert s.outstanding[i] in s.outstanding.Values;
      }
    }
  }

  /** A lost handler is never called back, in no later state of any run. */
  lemma {:induction false} LostForever(s: State, events: seq<Event>, h: Handler)
    requires Lost(s, h) && EnabledAnyId(s, events)
    ensures Lost(RunAnyId(s, events), h) && CallsOf(RunAnyId(s, events), h) == []
    decreases |events|
  {
    hide Enabled, Next;
    if events != [] {
      StepKeepsLost(s, events[0], h);
      LostForever(Next(s, events[0]), events[1..], h);
    }
  }

  /** Until the ids wrap around, the next id is above all ids in use. */
  predicate IdsOk(s: State) {
    s.sent < ID_LIMIT / 2 ==> s.nextId == 2 * s.sent && forall i :: i in s.outstanding ==> i < 2 * s.sent
  }

  lemma IdsStayFresh(s: State, e: Event)
    requires IdsOk(s) && Enabled(s, e)
    ensures IdsOk(Next(s, e)) && (s.sent < ID_LIMIT / 2 ==> FreshId(s, e))
  {
  }

  /** All ids are even, as the protocol shared with the odd ids requires. */
  predicate IdsEven(s: State) {
    s.nextId % 2 == 0 && s.nextId < 0x1_0000_0000 && forall i :: i in s.outstanding ==> i % 2 == 0
  }

  lemma StepKeepsEven(s: State, e: Event)
    requires IdsEven(s) && Enabled(s, e)
    ensures IdsEven(Next(s, e))
    ensures e.SendOk? || e.SendFails? ==> Next(s, e).nextId == if s.nextId == 0xFFFF_FFFE then 0 else s.nextId + 2
  {
  }

  /** The same events without asking for free ids. */
  predicate EnabledAnyId(s: State, events: seq<Event>)
    decreases |events|
  {
    events == [] || (Enabled(s, events[0]) && EnabledAnyId(Next(s, events[0]), events[1..]))
  }

  function RunAnyId(s: State, events: seq<Event>): State
    requires EnabledAnyId(s, events)
    decreases |events|
  {
    if events == [] then s else RunAnyId(Next(s, events[0]), events[1..])
  }

  /** How many request ids the events take. */
  function Sends(events: seq<Event>): nat {
    if events == [] then 0 else Sends(events[1..]) + if events[0].SendOk? || events[0].SendFails? then 1 else 0
  }

  /** In the first 2^31 requests of a network no id is ever in use again, so all of the above applies to every run. */
  lemma {:induction false} FirstIdsAreFresh(s: State, events: seq<Event>)
    requires IdsOk(s) && EnabledAnyId(s, events) && s.sent + Sends(events) <= ID_LIMIT / 2
    ensures EnabledRun(s, events)
    decreases |events|
  {
    if events != [] {
      IdsStayFresh(s, events[0]);
      FirstIdsAreFresh(Next(s, events[0]), events[1..]);
    }
  }

  /** `k` undelivered requests by handlers `n`, `n + 1` and so on. */
  function Undelivered(n: nat, k: nat): seq<Event>
    decreases k
  {
    if k == 0 then [] else [Acquire(n), SendFails(n)] + Undelivered(n + 1, k - 1)
  }

  /** One request waits under id 0 and `n` ids have been handed out. */
  function OneWaiting(limit: nat, n: nat): State {
    State(limit, 1, map[0 := 0], (2 * n) % ID_LIMIT, false, {}, map[], {0}, map[], n)
  }

  lemma UndeliveredOnce(limit: nat, n: nat)
    requires limit >= 2 && 1 <= n < ID_LIMIT / 2
    ensures var s := OneWaiting(limit, n);
            && Enabled(s, Acquire(n)) && Enabled(Next(s, Acquire(n)), SendFails(n))
            && FreshId(s, Acquire(n)) && FreshId(Next(s, Acquire(n)), SendFails(n))
            && Next(Next(s, Acquire(n)), SendFails(n)) == OneWaiting(limit, n + 1)
  {
    var s := OneWaiting(limit, n);
    forall i | i in s.outstanding
      ensures s.outstanding[i] != n
    {
    }
    var t := Next(Next(s, Acquire(n)), SendFails(n));
    assert s.outstanding - {s.nextId} == s.outstanding;
    assert {n} - {n} == {};
  }

  lemma {:induction false} UndeliveredRun(limit: nat, n: nat, k: nat)
    requires limit >= 2 && 1 <= n && n + k <= ID_LIMIT / 2
    ensures EnabledRun(OneWaiting(limit, n), Undelivered(n, k))
    ensures Run(OneWaiting(limit, n), Undelivered(n, k)) == OneWaiting(limit, n + k)
    ensures Sends(Undelivered(n, k)) == k
    decreases k
  {
    hide Enabled, Next, FreshId, OneWaiting;
    if k > 0 {
      UndeliveredOnce(limit, n);
      UndeliveredRun(limit, n + 1, k - 1);
      TwoSteps(OneWaiting(limit, n), Acquire(n), SendFails(n), Undelivered(n + 1, k - 1));
    }
  }

  lemma {:induction false} TwoSteps(s: State, e: Event, f: Event, rest: seq<Event>)
    requires Enabled(s, e) && FreshId(s, e) && Enabled(Next(s, e), f) && FreshId(Next(s, e), f)
    requires EnabledRun(Next(Next(s, e), f), rest)
    ensures EnabledRun(s, [e, f] + rest) && Run(s, [e, f] + rest) == Run(Next(Next(s, e), f), rest)
    ensures Sends([e, f] + rest) == Sends([e]) + Sends([f]) + Sends(rest)
  {
    hide Enabled, Next, FreshId;
    var events := [e, f] + rest;
    assert events[1..] == [f] + rest && events[1..][1..] == rest;
    assert EnabledRun(Next(s, e), events[1..]) && Run(Next(s, e), events[1..]) == Run(Next(Next(s, e), f), rest);
    assert [e][1..] == [] && [f][1..] == [];
    assert Sends(events[1..]) == Sends([f]) + Sends(rest);
  }

  /** One request is sent and stays unanswered while `k` others are not delivered. */
  function WrappingRun(k: nat): seq<Event> {
    [Acquire(0), SendOk(0)] + Undelivered(1, k)
  }

  /** The bound of `FirstIdsAreFresh` is tight: a run with exactly 2^31 sends ends with the next id in use. */
  lemma CollisionIsReachable(limit: nat, k: nat)
    requires limit >= 2 && k + 1 == ID_LIMIT / 2
    ensures EnabledRun(Init(limit), WrappingRun(k)) && Sends(WrappingRun(k)) == ID_LIMIT / 2
    ensures Run(Init(limit), WrappingRun(k)) == OneWaiting(limit, ID_LIMIT / 2)
    ensures Run(Init(limit), WrappingRun(k)).nextId in Run(Init(limit), WrappingRun(k)).outstanding
  {
    FirstWaits(limit);
    hide Enabled, Next, FreshId, Undelivered, Init;
    UndeliveredRun(limit, 1, k);
    TwoSteps(Init(limit), Acquire(0), SendOk(0), Undelivered(1, k));
  }

  /** The next delivered request after that loses the first one for good, although every earlier id was free. */
  lemma FirstRequestIsLost(limit: nat, k: nat, h: Handler, later: seq<Event>)
    requires limit >= 2 && k + 1 == ID_LIMIT / 2 && h > 0
    requires EnabledRun(Init(limit), WrappingRun(k))
    ensures var s := Run(Init(limit), WrappingRun(k));
            && Enabled(s, Acquire(h)) && Enabled(Next(s, Acquire(h)), SendOk(h))
            && var t := Next(Next(s, Acquire(h)), SendOk(h));
               EnabledAnyId(t, later) ==> Lost(RunAnyId(t, later), 0)
  {
    hide WrappingRun, Init, EnabledRun, Run, EnabledAnyId, RunAnyId;
    InitIsOk(limit);
    RunKeepsNet(Init(limit), WrappingRun(k));
    CollisionIsReachable(limit, k);
    var s := Run(Init(limit), WrappingRun(k));
    forall i | i in s.outstanding
      ensures s.outstanding[i] != h
    {
    }
    StepKeepsNet(s, Acquire(h));
    FreshIdIsNeeded(Next(s, Acquire(h)), SendOk(h));
    if EnabledAnyId(Next(Next(s, Acquire(h)), SendOk(h)), later) {
      LostForever(Next(Next(s, Acquire(h)), SendOk(h)), later, 0);
    }
  }

  lemma FirstWaits(limit: nat)
    requires limit >= 1
    ensures var s := Init(limit);
            && Enabled(s, Acquire(0)) && Enabled(Next(s, Acquire(0)), SendOk(0))
            && FreshId(s, Acquire(0)) && FreshId(Next(s, Acquire(0)), SendOk(0))
            && Next(Next(s, Acquire(0)), SendOk(0)) == OneWaiting(limit, 1)
  {
    assert {0} - {0} == {};
  }

  class AppNetwork {
    const limit: nat
    var held: nat
    var outstanding: map<nat, Handler>
    var nextId: nat
    var closed: bool
    ghost var senders: set<Handler>
    ghost var stages: map<Handler, Stage>
    ghost var registered: set<Handler>
    ghost var calls: map<Handler, seq<Call>>
    ghost var sent: nat

    constructor (limit: nat)
      ensures Snapshot() == Init(limit)
    {
      this.limit, held, outstanding, nextId, closed := limit, 0, map[], 0, false;
      senders, stages, registered, calls, sent := {}, map[], {}, map[], 0;
    }

    ghost function Snapshot(): State
      reads this
    {
      State(limit, held, outstanding, nextId, closed, senders, stages, registered, calls, sent)
    }

    /** Takes a slot, unless none becomes free before the context ends. */
    method TakeSlot(h: Handler) returns (ok: bool)
      requires Unused(Snapshot(), h)
      modifies this
      ensures ok <==> Enabled(old(Snapshot()), Acquire(h))
      ensures Snapshot() == if ok then Next(old(Snapshot()), Acquire(h)) else old(Snapshot())
    {
      ok := held < limit;
      if ok {
        held, senders := held + 1, senders + {h};
      }
    }

    /** The locked part of sending; `contextOk` and `delivered` are the outcomes of the context and of the transport. */
    method SendAppRequest(h: Handler, contextOk: bool, delivered: bool) returns (ok: bool)
      requires NetOk(Snapshot()) && h in senders
      modifies this
      ensures var e := if old(closed) || !contextOk then GiveUp(h) else if delivered then SendOk(h) else SendFails(h);
              Enabled(old(Snapshot()), e) && Snapshot() == Next(old(Snapshot()), e)
      ensures ok <==> old(closed) || (contextOk && delivered)
    {
      hide NetOk, AllFailed, Called, Unused;
      ReleasesAreBacked(Snapshot(), h);
      if closed {
        held, senders := held - 1, senders - {h};
        return true;
      }
      if !contextOk {
        held, senders := held - 1, senders - {h};
        return false;
      }
      var id := NextRequestID();
      outstanding := outstanding[id := h];
      senders := senders - {h};
      if !delivered {
        held := held - 1;
        outstanding := outstanding - {id};
        assert outstanding == old(outstanding) - {id};
        return false;
      }
      registered := registered + {h};
      return true;
    }

    method NextRequestID() returns (id: nat)
      modifies this`nextId, this`sent
      ensures id == old(nextId) && nextId == Following(id) && sent == old(sent) + 1
    {
      id := nextId;
      nextId, sent := (nextId + 2) % ID_LIMIT, sent + 1;
    }

    /** An answer or a failure for a request id; an unknown id is passed on and changes nothing here. */
    method Answer(id: nat, call: Call) returns (known: bool)
      requires NetOk(Snapshot())
      modifies this
      ensures known <==> id in old(outstanding)
      ensures !known ==> Snapshot() == old(Snapshot())
      ensures known ==> var h := old(outstanding)[id];
                        var events := [Fulfil(id, call), Release(h), Callback(h)];
                        EnabledRun(old(Snapshot()), events) && Snapshot() == Run(old(Snapshot()), events)
                        && CallsOf(Snapshot(), h) == [call]
    {
      hide NetOk;
      known := id in outstanding;
      if known {
        var h := outstanding[id];
        ghost var s := Snapshot();
        ThreeSteps(s, id, call);
        outstanding := outstanding - {id};
        held := held - 1;
        calls, stages := Called(calls, h, call), stages - {h};
      }
    }

    /** Fails every waiting handler, in any order, and closes the network. */
    method Close()
      requires NetOk(Snapshot())
      modifies this
      ensures Snapshot() == Next(old(Snapshot()), Shutdown)
      ensures closed && outstanding == map[]
      ensures forall h :: h in old(outstanding).Values ==> CallsOf(Snapshot(), h) == [Failure]
      ensures forall h :: h !in old(outstanding).Values ==> CallsOf(Snapshot(), h) == CallsOf(old(Snapshot()), h)
    {
      hide NetOk, AllFailed, Called, FailedSoFar, Next, Enabled;
      ghost var before := outstanding;
      AfterShutdown(Snapshot());
      ghost var failed: set<Handler> := {};
      NoneFailed(calls);
      NobodyYet(Snapshot());
      var todo := outstanding.Keys;
      while todo != {}
        invariant todo == outstanding.Keys
        invariant FailedSoFar(before, outstanding, failed) && calls == AllFailed(old(calls), failed)
        decreases todo
        modifies this`outstanding, this`calls
      {
        var id :| id in todo;
        todo := todo - {id};
        var h := outstanding[id];
        OneFails(before, outstanding, failed, id);
        OneMoreFailed(old(calls), failed, h);
        calls, failed := Called(calls, h, Failure), failed + {h};
        outstanding := outstanding - {id};
      }
      EveryoneFailed(before, outstanding, failed);
      ShutdownCalls(old(Snapshot()));
      closed := true;
    }
  }

  /** The handlers already failed are those no longer in the table. */
  ghost predicate FailedSoFar(before: map<nat, Handler>, left: map<nat, Handler>, failed: set<Handler>) {
    && Injective(before)
    && (forall i :: i in left ==> i in before && left[i] == before[i])
    && (forall i :: i in before ==> (before[i] in failed <==> i !in left))
    && (forall h :: h in failed ==> h in before.Values)
  }

  lemma ShutdownCalls(s: State)
    requires NetOk(s)
    ensures forall h :: h in s.outstanding.Values ==> CallsOf(Next(s, Shutdown), h) == [Failure]
    ensures forall h :: h !in s.outstanding.Values ==> CallsOf(Next(s, Shutdown), h) == CallsOf(s, h)
  {
    forall h | h in s.outstanding.Values
      ensures h !in s.calls
    {
      var i :| i in s.outstanding && s.outstanding[i] == h;
      TakenIsNew(s, i);
    }
    forall h | h in s.calls && h !in s.outstanding.Values
      ensures s.calls[h] + [] == s.calls[h]
    {
    }
  }

  lemma AfterShutdown(s: State)
    ensures Enabled(s, Shutdown)
    ensures Next(s, Shutdown)
            == s.(outstanding := map[], calls := AllFailed(s.calls, s.outstanding.Values), closed := true)
  {
  }

  lemma NobodyYet(s: State)
    requires NetOk(s)
    ensures FailedSoFar(s.outstanding, s.outstanding, {})
  {
  }

  lemma OneFails(before: map<nat, Handler>, left: map<nat, Handler>, failed: set<Handler>, id: nat)
    requires FailedSoFar(before, left, failed) && id in left
    ensures left[id] !in failed && FailedSoFar(before, left - {id}, failed + {left[id]})
  {
  }

  lemma EveryoneFailed(before: map<nat, Handler>, left: map<nat, Handler>, failed: set<Handler>)
    requires FailedSoFar(before, left, failed) && left == map[]
    ensures failed == before.Values
  {
  }

  lemma NoneFailed(calls: map<Handler, seq<Call>>)
    ensures AllFailed(calls, {}) == calls
  {
    forall g | g in calls
      ensures AllFailed(calls, {})[g] == calls[g]
    {
      assert calls[g] + [] == calls[g];
    }
  }

  lemma OneMoreFailed(calls: map<Handler, seq<Call>>, failed: set<Handler>, h: Handler)
    requires h !in failed
    ensures Called(AllFailed(calls, failed), h, Failure) == AllFailed(calls, failed + {h})
  {
    var some, more := Called(AllFailed(calls, failed), h, Failure), AllFailed(calls, failed + {h});
    assert some.Keys == more.Keys;
    forall g | g in more
      ensures some[g] == more[g]
    {
      if g == h && h in calls {
        assert calls[h] + [] + [Failure] == calls[h] + [Failure];
      }
    }
  }

  /** The three steps of answering a known request, taken one after the other. */
  lemma ThreeSteps(s: State, id: nat, call: Call)
    requires NetOk(s) && id in s.outstanding
    ensures var h := s.outstanding[id];
            var events := [Fulfil(id, call), Release(h), Callback(h)];
            && EnabledRun(s, events) && s.held > 0
            && Run(s, events) == s.(outstanding := s.outstanding - {id}, held := s.held - 1,
                                    stages := s.stages - {h}, calls := Called(s.calls, h, call))
            && CallsOf(Run(s, events), h) == [call]
  {
    hide HandlersOk;
    var h := s.outstanding[id];
    TakenIsNew(s, id);
    StepKeepsNet(s, Fulfil(id, call));
    var s1 := Next(s, Fulfil(id, call));
    ReleasesAreBacked(s1, h);
    var s2 := Next(s1, Release(h));
    var s3 := Next(s2, Callback(h));
    assert s3.stages == s.stages - {h};
    var events := [Fulfil(id, call), Release(h), Callback(h)];
    assert events[1..] == [Release(h), Callback(h)] && events[1..][1..] == [Callback(h)] && events[1..][1..][1..] == [];
    assert EnabledRun(s3, []) && Run(s3, []) == s3;
    assert EnabledRun(s2, [Callback(h)]) && Run(s2, [Callback(h)]) == s3;
    assert EnabledRun(s1, events[1..]) && Run(s1, events[1..]) == s3;
  }
}
