/** The parallel block iterator: workers read heights and hand them to a ring that delivers them in order. */
module Iterator {
  import opened Blocks
  import opened Caches
  import opened Sums
  import opened Arith

  /** A worker waits for a height, reads its block, offers the result on the channel, or has exited. */
  datatype Worker = Idle | Reading(h: nat) | Offering(h: nat, found: bool) | Gone

  predicate Busy(w: Worker) {
    w.Reading? || w.Offering?
  }

  /** The caller's thread: outside `Next`, handing out heights before or after the delivery, waiting for a block, or,
      after a missing block, stopping and waiting for all workers to exit. `last` is the last accepted height read at
      the start of the call. */
  datatype Phase = Outside | Filling(last: nat, first: bool) | Waiting(last: nat) | Stopping

  /** `missing` collects the heights whose block a worker did not find. */
  datatype State = State(
    start: nat, accepted: nat, nextRead: nat, nextToRead: nat, ring: seq<Option<nat>>, workers: seq<Worker>,
    delivered: seq<nat>, phase: Phase, closed: bool, missing: set<nat>)

  datatype Event =
    | Accept | CallNext | Send(j: nat) | Filled | Read(j: nat, found: bool) | Receive(j: nat) | Take | Cancel
    | SeeClosed | Stop | Exit(j: nat) | Stopped

  function Parallelism(s: State): nat {
    |s.workers|
  }

  /** The ring slot is the remainder of the height by the parallelism. */
  lemma {:induction false} SlotIsRemainder(h: nat, size: nat)
    requires 0 < size
    ensures Slot(h, size) == h % size
  {
    if h < size {
      DivModUnique(h, size, 0, h);
    } else {
      SlotIsRemainder(h - size, size);
      assert h == ((h - size) / size + 1) * size + (h - size) % size;
      DivModUnique(h, size, (h - size) / size + 1, (h - size) % size);
    }
  }

  ghost predicate Enabled(s: State, e: Event)
    requires 0 < Parallelism(s) == |s.ring|
  {
    match e
    case Accept => true
    case CallNext => s.phase.Outside? && s.nextRead <= s.accepted
    case Send(j) => s.phase.Filling? && MaySend(s) && j < |s.workers| && s.workers[j].Idle?
    case Filled => s.phase.Filling? && (!MaySend(s) || s.closed)
    case Read(j, found) => j < |s.workers| && s.workers[j].Reading?
    case Receive(j) => s.phase.Waiting? && NextSlot(s).None? && j < |s.workers| && s.workers[j].Offering?
    case Take => s.phase.Waiting? && NextSlot(s).Some?
    case Cancel => s.phase.Waiting? && NextSlot(s).None?
    case SeeClosed => s.phase.Waiting? && NextSlot(s).None? && s.closed
    case Stop => true
    case Exit(j) => s.closed && j < |s.workers| && (s.workers[j].Idle? || s.workers[j].Offering?)
    case Stopped => s.phase.Stopping? && AllGone(s)
  }

  predicate AllGone(s: State) {
    forall j :: 0 <= j < |s.workers| ==> s.workers[j].Gone?
  }

  /** The two bounds on handing out heights: the last accepted block, and one height per ring slot. */
  predicate MaySend(s: State)
    requires s.phase.Filling?
  {
    s.nextToRead <= s.phase.last && s.nextToRead < s.nextRead + Parallelism(s)
  }

  ghost function NextSlot(s: State): Option<nat>
    requires 0 < Parallelism(s) == |s.ring|
  {
    s.ring[Slot(s.nextRead, Parallelism(s))]
  }

  ghost function Next(s: State, e: Event): State
    requires 0 < Parallelism(s) == |s.ring| && Enabled(s, e)
  {
    match e
    case Accept => s.(accepted := s.accepted + 1)
    case CallNext => s.(phase := Filling(s.accepted, true))
    case Send(j) => s.(workers := s.workers[j := Reading(s.nextToRead)], nextToRead := s.nextToRead + 1)
    case Filled => s.(phase := if s.phase.first then Waiting(s.phase.last) else Outside)
    case Read(j, found) =>
      s.(workers := s.workers[j := Offering(s.workers[j].h, found)],
         missing := if found then s.missing else s.missing + {s.workers[j].h})
    case Receive(j) =>
      var free := s.(workers := s.workers[j := Idle]);
      if s.workers[j].found
      then free.(ring := s.ring[Slot(s.workers[j].h, Parallelism(s)) := Some(s.workers[j].h)])
      else free.(phase := Stopping, closed := true)
    case Take =>
      s.(ring := s.ring[Slot(s.nextRead, Parallelism(s)) := None], nextRead := s.nextRead + 1,
         delivered := s.delivered + [NextSlot(s).value], phase := Filling(s.phase.last, false))
    case Cancel => s.(phase := Outside)
    case SeeClosed => s.(phase := Outside)
    case Stop => s.(closed := true)
    case Exit(j) => s.(workers := s.workers[j := Gone])
    case Stopped => s.(phase := Outside)
  }

  predicate Carries(w: Worker, h: nat) {
    Busy(w) && w.h == h
  }

  /** The state in which the constructor starts handing out heights. */
  function Init(start: nat, accepted: nat, parallelism: nat): State {
    State(start, accepted, start, start, seq(parallelism, _ => None), seq(parallelism, _ => Idle), [],
          Filling(accepted, false), false, {})
  }

  ghost predicate InRing(s: State, h: nat)
    requires 0 < Parallelism(s) == |s.ring|
  {
    s.ring[Slot(h, Parallelism(s))] == Some(h)
  }

  ghost predicate RingOk(s: State)
    requires 0 < Parallelism(s) == |s.ring|
  {
    forall i :: 0 <= i < |s.ring| && s.ring[i].Some? ==>
      s.nextRead <= s.ring[i].value < s.nextToRead && Slot(s.ring[i].value, Parallelism(s)) == i
  }

  /** Workers carry heights that are handed out and not yet in the ring, each at most once. */
  ghost predicate WorkersOk(s: State)
    requires 0 < Parallelism(s) == |s.ring|
  {
    && (forall j :: 0 <= j < |s.workers| && Busy(s.workers[j]) ==>
          s.nextRead <= s.workers[j].h < s.nextToRead && !InRing(s, s.workers[j].h))
    && (forall j, k :: 0 <= j < k < |s.workers| && Busy(s.workers[j]) && Busy(s.workers[k]) ==>
          s.workers[j].h != s.workers[k].h)
  }

  predicate Carried(s: State, h: nat) {
    exists j :: 0 <= j < |s.workers| && Carries(s.workers[j], h)
  }

  /** While open, every height handed out and not delivered is in the ring or with a worker. */
  ghost predicate NoneLost(s: State)
    requires 0 < Parallelism(s) == |s.ring|
  {
    !s.closed ==> forall h :: s.nextRead <= h < s.nextToRead ==> InRing(s, h) || Carried(s, h)
  }

  /** Workers only exit after `Stop`. */
  ghost predicate PhaseOk(s: State) {
    && (!s.closed ==> forall j :: 0 <= j < |s.workers| ==> !s.workers[j].Gone?)
    && (s.phase.Waiting? && !s.closed ==> s.nextRead < s.nextToRead)
    && (s.phase.Stopping? ==> s.closed)
    && (s.phase.Filling? || s.phase.Waiting? ==> s.phase.last <= s.accepted)
    && (s.phase.Waiting? && !s.closed ==>
          s.nextToRead > s.phase.last || s.nextToRead == s.nextRead + |s.workers|)
    && (s.phase.Filling? && s.phase.first ==> s.nextRead <= s.phase.last)
  }

  ghost predicate IterOk(s: State) {
    && 0 < Parallelism(s) == |s.ring|
    && s.start <= s.nextRead <= s.nextToRead <= s.nextRead + Parallelism(s)
    && (s.nextToRead == s.start || s.nextToRead <= s.accepted + 1)
    && s.delivered == seq(s.nextRead - s.start, i => s.start + i)
    && RingOk(s) && WorkersOk(s) && NoneLost(s) && PhaseOk(s)
  }

  lemma InitIsOk(start: nat, accepted: nat, parallelism: nat)
    requires 0 < parallelism
    ensures IterOk(Init(start, accepted, parallelism))
  {
  }

  /** Distinct heights that are handed out and not delivered have distinct slots. */
  lemma SlotsApart(s: State, g: nat, h: nat)
    requires IterOk(s) && s.nextRead <= g < s.nextToRead && s.nextRead <= h < s.nextToRead && g != h
    ensures Slot(g, Parallelism(s)) != Slot(h, Parallelism(s))
  {
    if g < h {
      SlotsDiffer(g, h, Parallelism(s));
    } else {
      SlotsDiffer(h, g, Parallelism(s));
    }
  }

  /** A received block goes into an empty slot: no unread height is ever overwritten. */
  lemma SlotIsFree(s: State, j: nat)
    requires IterOk(s) && j < |s.workers| && Busy(s.workers[j])
    ensures s.ring[Slot(s.workers[j].h, Parallelism(s))].None?
  {
    var h := s.workers[j].h;
    var i := Slot(h, Parallelism(s));
    if s.ring[i].Some? && s.ring[i].value != h {
      SlotsApart(s, s.ring[i].value, h);
    }
  }

  /** Only the workers change, and the new contents of worker `j` are a height that nothing else holds, or none. */
  lemma WorkerChange(s: State, t: State, j: nat)
    requires IterOk(s) && j < |s.workers| && |t.workers| == |s.workers|
    requires t == s.(workers := s.workers[j := t.workers[j]], nextToRead := t.nextToRead, missing := t.missing)
    requires s.nextToRead <= t.nextToRead <= s.nextToRead + 1 && t.nextToRead <= s.nextRead + Parallelism(s)
    requires t.nextToRead == s.nextToRead ==> Busy(t.workers[j]) ==> Carries(s.workers[j], t.workers[j].h)
    requires t.nextToRead > s.nextToRead ==> Busy(t.workers[j]) && t.workers[j].h == s.nextToRead
    ensures RingOk(t) && WorkersOk(t)
  {
    hide NoneLost, PhaseOk;
    forall k | 0 <= k < |t.workers| && Busy(t.workers[k])
      ensures t.nextRead <= t.workers[k].h < t.nextToRead && !InRing(t, t.workers[k].h)
    {
    }
  }

  /** A worker change that loses no height. */
  lemma NothingLost(s: State, t: State, j: nat)
    requires IterOk(s) && j < |s.workers| && |t.workers| == |s.workers|
    requires t == s.(workers := s.workers[j := t.workers[j]], nextToRead := t.nextToRead, missing := t.missing)
    requires s.nextToRead <= t.nextToRead <= s.nextToRead + 1
    requires Busy(s.workers[j]) ==> Carries(t.workers[j], s.workers[j].h)
    requires t.nextToRead > s.nextToRead ==> Carries(t.workers[j], s.nextToRead)
    ensures NoneLost(t)
  {
    hide RingOk, WorkersOk, PhaseOk;
    if !s.closed {
      forall h | t.nextRead <= h < t.nextToRead
        ensures InRing(t, h) || Carried(t, h)
      {
        if h < s.nextToRead && !InRing(s, h) {
          var k :| 0 <= k < |s.workers| && Carries(s.workers[k], h);
          assert Carries(t.workers[k], h);
        } else if h == s.nextToRead {
          assert Carries(t.workers[j], h);
        }
      }
    }
  }

  lemma SendKeeps(s: State, j: nat)
    requires IterOk(s) && Enabled(s, Send(j))
    ensures IterOk(Next(s, Send(j)))
  {
    hide RingOk, WorkersOk, NoneLost;
    WorkerChange(s, Next(s, Send(j)), j);
    NothingLost(s, Next(s, Send(j)), j);
  }

  lemma ReadKeeps(s: State, j: nat, found: bool)
    requires IterOk(s) && Enabled(s, Read(j, found))
    ensures IterOk(Next(s, Read(j, found)))
  {
    hide RingOk, WorkersOk, NoneLost;
    WorkerChange(s, Next(s, Read(j, found)), j);
    NothingLost(s, Next(s, Read(j, found)), j);
  }

  lemma ExitKeeps(s: State, j: nat)
    requires IterOk(s) && Enabled(s, Exit(j))
    ensures IterOk(Next(s, Exit(j)))
  {
    hide RingOk, WorkersOk;
    WorkerChange(s, Next(s, Exit(j)), j);
  }

  lemma ReceiveKeeps(s: State, j: nat)
    requires IterOk(s) && Enabled(s, Receive(j))
    ensures IterOk(Next(s, Receive(j)))
  {
    var t := Next(s, Receive(j));
    var h := s.workers[j].h;
    SlotIsFree(s, j);
    if !s.workers[j].found {
      hide RingOk, WorkersOk;
      WorkerChange(s, s.(workers := t.workers), j);
      SameRing(s.(workers := t.workers), t);
    } else {
      ReceivedWorkers(s, j);
      if !s.closed {
        forall g | t.nextRead <= g < t.nextToRead
          ensures InRing(t, g) || Carried(t, g)
        {
          ReceivedNotLost(s, j, g);
        }
      }
    }
  }

  lemma SameRing(s: State, t: State)
    requires 0 < Parallelism(s) == |s.ring| && RingOk(s) && WorkersOk(s)
    requires t == s.(phase := t.phase, closed := t.closed, accepted := t.accepted)
    ensures RingOk(t) && WorkersOk(t) && ((s.closed ==> t.closed) && NoneLost(s) ==> NoneLost(t))
  {
    forall h
      ensures InRing(t, h) == InRing(s, h) && Carried(t, h) == Carried(s, h)
    {
    }
  }

  lemma ReceivedWorkers(s: State, j: nat)
    requires IterOk(s) && Enabled(s, Receive(j)) && s.workers[j].found
    ensures RingOk(Next(s, Receive(j))) && WorkersOk(Next(s, Receive(j)))
  {
    hide NoneLost, PhaseOk;
    var t := Next(s, Receive(j));
    SlotIsFree(s, j);
    forall k | 0 <= k < |t.workers| && Busy(t.workers[k])
      ensures t.nextRead <= t.workers[k].h < t.nextToRead && !InRing(t, t.workers[k].h)
    {
      SlotsApart(s, s.workers[j].h, t.workers[k].h);
    }
  }

  lemma ReceivedNotLost(s: State, j: nat, g: nat)
    requires IterOk(s) && Enabled(s, Receive(j)) && s.workers[j].found && !s.closed
    requires s.nextRead <= g < s.nextToRead
    ensures InRing(Next(s, Receive(j)), g) || Carried(Next(s, Receive(j)), g)
  {
    hide RingOk, PhaseOk;
    var t := Next(s, Receive(j));
    if g != s.workers[j].h {
      SlotsApart(s, g, s.workers[j].h);
      if !InRing(s, g) {
        var k :| 0 <= k < |s.workers| && Carries(s.workers[k], g);
        assert Carries(t.workers[k], g);
      }
    }
  }

  lemma TakeKeeps(s: State)
    requires IterOk(s) && Enabled(s, Take)
    ensures IterOk(Next(s, Take))
  {
    hide RingOk, WorkersOk, NoneLost;
    TakeKeepsRing(s);
    TakeKeepsOthers(s);
  }

  lemma TakeKeepsRing(s: State)
    requires IterOk(s) && Enabled(s, Take)
    ensures RingOk(Next(s, Take)) && NextSlot(s) == Some(s.nextRead) && s.nextRead < s.nextToRead
  {
    hide WorkersOk, NoneLost;
    TakesNext(s);
    var t := Next(s, Take);
    forall i | 0 <= i < |t.ring| && t.ring[i].Some?
      ensures t.nextRead <= t.ring[i].value < t.nextToRead && Slot(t.ring[i].value, Parallelism(t)) == i
    {
      assert s.ring[i] == t.ring[i];
    }
  }

  lemma TakeKeepsOthers(s: State)
    requires IterOk(s) && Enabled(s, Take) && NextSlot(s) == Some(s.nextRead)
    ensures WorkersOk(Next(s, Take)) && NoneLost(Next(s, Take))
  {
    var t := Next(s, Take);
    forall g | s.nextRead < g < s.nextToRead
      ensures InRing(t, g) <==> InRing(s, g)
      ensures Carried(t, g) <==> Carried(s, g)
    {
      SlotsApart(s, g, s.nextRead);
    }
  }

  /** What is taken is the next height in order. */
  lemma TakesNext(s: State)
    requires IterOk(s) && Enabled(s, Take)
    ensures NextSlot(s) == Some(s.nextRead)
  {
    var h := NextSlot(s).value;
    if h != s.nextRead {
      SlotsApart(s, h, s.nextRead);
    }
  }

  lemma StepKeepsIter(s: State, e: Event)
    requires IterOk(s) && Enabled(s, e)
    ensures IterOk(Next(s, e))
  {
    match e
    case Send(j) => SendKeeps(s, j);
    case Read(j, found) => ReadKeeps(s, j, found);
    case Receive(j) => ReceiveKeeps(s, j);
    case Take => TakeKeeps(s);
    case Exit(j) => ExitKeeps(s, j);
    case _ =>
      hide RingOk, WorkersOk;
      SameRing(s, Next(s, e));
  }

  ghost predicate EnabledRun(s: State, events: seq<Event>)
    decreases |events|
  {
    events == [] || (0 < Parallelism(s) == |s.ring| && Enabled(s, events[0]) && EnabledRun(Next(s, events[0]), events[1..]))
  }

  ghost function Run(s: State, events: seq<Event>): State
    requires EnabledRun(s, events)
    decreases |events|
  {
    if events == [] then s else Run(Next(s, events[0]), events[1..])
  }

  lemma {:induction false} RunKeepsIter(s: State, events: seq<Event>)
    requires IterOk(s) && EnabledRun(s, events)
    ensures IterOk(Run(s, events)) && Run(s, events).start == s.start
    decreases |events|
  {
    if events != [] {
      StepKeepsIter(s, events[0]);
      RunKeepsIter(Next(s, events[0]), events[1..]);
    }
  }

  /** For every interleaving, what `Next` has returned so far is the heights from the start on, in order, once each. */
  lemma DeliveredInOrder(start: nat, accepted: nat, parallelism: nat, events: seq<Event>)
    requires 0 < parallelism && EnabledRun(Init(start, accepted, parallelism), events)
    ensures var s := Run(Init(start, accepted, parallelism), events);
            s.delivered == seq(|s.delivered|, i => start + i) && s.nextRead == start + |s.delivered|
  {
    hide RingOk, WorkersOk, NoneLost;
    InitIsOk(start, accepted, parallelism);
    RunKeepsIter(Init(start, accepted, parallelism), events);
  }

  /** No worker ever reads, and the ring never holds, a height above the last accepted block. */
  lemma OnlyAcceptedAreRead(start: nat, accepted: nat, parallelism: nat, events: seq<Event>, h: nat)
    requires 0 < parallelism && EnabledRun(Init(start, accepted, parallelism), events)
    ensures var s := Run(Init(start, accepted, parallelism), events);
            && (Carried(s, h) ==> start <= h <= s.accepted)
            && (forall i :: 0 <= i < |s.ring| && s.ring[i] == Some(h) ==> start <= h <= s.accepted)
  {
    hide NoneLost, PhaseOk;
    InitIsOk(start, accepted, parallelism);
    RunKeepsIter(Init(start, accepted, parallelism), events);
  }

  /** What a worker offers, the ring holds or `Next` has returned is the block of its height, and never one that was
      missing. */
  ghost predicate MissingOk(s: State) {
    && (forall j :: 0 <= j < |s.workers| && s.workers[j].Reading? ==> s.workers[j].h !in s.missing)
    && (forall j :: 0 <= j < |s.workers| && s.workers[j].Offering? ==>
          (s.workers[j].found <==> s.workers[j].h !in s.missing))
    && (forall i :: 0 <= i < |s.ring| && s.ring[i].Some? ==> s.ring[i].value !in s.missing)
    && (forall i :: 0 <= i < |s.delivered| ==> s.delivered[i] !in s.missing)
    && (forall h :: h in s.missing ==> s.start <= h < s.nextToRead)
  }

  lemma StepKeepsMissing(s: State, e: Event)
    requires IterOk(s) && MissingOk(s) && Enabled(s, e)
    ensures MissingOk(Next(s, e))
  {
    hide NoneLost, PhaseOk;
    if e.Take? {
      TakesNext(s);
    }
  }

  lemma {:induction false} RunKeepsMissing(s: State, events: seq<Event>)
    requires IterOk(s) && MissingOk(s) && EnabledRun(s, events)
    ensures MissingOk(Run(s, events))
    decreases |events|
  {
    if events != [] {
      hide IterOk, MissingOk;
      ParallelismIsPositive(s);
      StepKeepsIter(s, events[0]);
      StepKeepsMissing(s, events[0]);
      RunKeepsMissing(Next(s, events[0]), events[1..]);
    }
  }

  lemma ParallelismIsPositive(s: State)
    requires IterOk(s)
    ensures 0 < Parallelism(s) == |s.ring|
  {
  }

  /** A missing block is never passed over: no height whose block was not found, and none above it, is ever returned. */
  lemma NoneBeyondMissing(start: nat, accepted: nat, parallelism: nat, events: seq<Event>, h: nat)
    requires 0 < parallelism && EnabledRun(Init(start, accepted, parallelism), events)
    requires h in Run(Init(start, accepted, parallelism), events).missing
    ensures start <= h
    ensures forall g :: g in Run(Init(start, accepted, parallelism), events).delivered ==> g < h
  {
    hide RingOk, WorkersOk, NoneLost, PhaseOk;
    InitIsOk(start, accepted, parallelism);
    RunKeepsIter(Init(start, accepted, parallelism), events);
    RunKeepsMissing(Init(start, accepted, parallelism), events);
    var s := Run(Init(start, accepted, parallelism), events);
    DeliveredHas(s, h);
  }

  lemma DeliveredHas(s: State, h: nat)
    requires IterOk(s) && s.start <= h
    ensures h < s.nextRead ==> h in s.delivered
  {
    if h < s.nextRead {
      assert s.delivered[h - s.start] == h;
    }
  }

  ghost function Range(lo: nat, hi: nat): (r: set<nat>)
    requires lo <= hi
    ensures |r| == hi - lo && forall h :: h in r <==> lo <= h < hi
    decreases hi - lo
  {
    if lo == hi then {} else Range(lo, hi - 1) + {hi - 1}
  }

  function HeightOf(w: Worker): nat {
    if Busy(w) then w.h else 0
  }

  /** The heights carried by workers that all carry different ones. */
  ghost function Heights(workers: seq<Worker>): (r: set<nat>)
    requires forall j, k :: 0 <= j < k < |workers| ==> HeightOf(workers[j]) != HeightOf(workers[k])
    ensures |r| == |workers| && forall h :: h in r ==> exists j :: 0 <= j < |workers| && HeightOf(workers[j]) == h
  {
    if workers == [] then {} else
      var n := |workers| - 1;
      var rest := Heights(workers[..n]);
      assert forall h :: h in rest ==> exists j :: 0 <= j < n && HeightOf(workers[j]) == h by {
        forall h | h in rest
          ensures exists j :: 0 <= j < n && HeightOf(workers[j]) == h
        {
          var j :| 0 <= j < n && HeightOf(workers[..n][j]) == h;
          assert HeightOf(workers[j]) == h;
        }
      }
      rest + {HeightOf(workers[n])}
  }

  lemma DistinctHeightsFit(workers: seq<Worker>, lo: nat, hi: nat)
    requires lo <= hi
    requires forall j, k :: 0 <= j < k < |workers| ==> HeightOf(workers[j]) != HeightOf(workers[k])
    requires forall j :: 0 <= j < |workers| ==> lo <= HeightOf(workers[j]) < hi
    ensures |workers| <= hi - lo
  {
    hide HeightOf;
    SubsetSize(Heights(workers), Range(lo, hi));
  }

  /** Whenever a height may be handed out, some worker is free to take it. */
  lemma SomeWorkerIsFree(s: State)
    requires IterOk(s) && !s.closed && s.phase.Filling? && MaySend(s)
    ensures exists j :: Enabled(s, Send(j))
  {
    hide RingOk, NoneLost, InRing;
    if forall j :: 0 <= j < |s.workers| ==> Busy(s.workers[j]) {
      DistinctHeightsFit(s.workers, s.nextRead, s.nextToRead);
    } else {
      var j :| 0 <= j < |s.workers| && !Busy(s.workers[j]);
      assert Enabled(s, Send(j));
    }
  }

  /** The steps that the caller and the workers make by themselves, without cancellation. */
  predicate Internal(e: Event) {
    e.Send? || e.Filled? || e.Read? || e.Receive? || e.Take? || e.SeeClosed? || e.Exit? || e.Stopped?
  }

  /** A call never deadlocks, open or closed: until it returns, the caller or a worker can take a step. */
  lemma NoDeadlock(s: State)
    requires IterOk(s) && !s.phase.Outside?
    ensures exists e :: Internal(e) && Enabled(s, e)
  {
    if s.phase.Filling? {
      if MaySend(s) && !s.closed {
        SomeWorkerIsFree(s);
        var j :| Enabled(s, Send(j));
        assert Internal(Send(j));
      } else {
        assert Internal(Filled) && Enabled(s, Filled);
      }
    } else if s.phase.Stopping? {
      if AllGone(s) {
        assert Internal(Stopped) && Enabled(s, Stopped);
      } else {
        WorkersLeave(s);
      }
    } else if NextSlot(s).Some? {
      assert Internal(Take) && Enabled(s, Take);
    } else if s.closed {
      assert Internal(SeeClosed) && Enabled(s, SeeClosed);
    } else {
      assert Carried(s, s.nextRead);
      var j :| 0 <= j < |s.workers| && Carries(s.workers[j], s.nextRead);
      if s.workers[j].Reading? {
        assert Internal(Read(j, true)) && Enabled(s, Read(j, true));
      } else {
        assert Internal(Receive(j)) && Enabled(s, Receive(j));
      }
    }
  }

  /** Once closed, every worker that is still there can take a step of its own; with the measure below, all of them
      exit and a `Stop` that waits for them returns. */
  lemma WorkersLeave(s: State)
    requires IterOk(s) && s.closed && !AllGone(s)
    ensures exists e: Event :: (e.Read? || e.Exit?) && Internal(e) && Enabled(s, e)
  {
    var j :| 0 <= j < |s.workers| && !s.workers[j].Gone?;
    var e := if s.workers[j].Reading? then Read(j, true) else Exit(j);
    assert Internal(e) && Enabled(s, e);
  }

  function Weight(w: Worker): nat {
    match w
    case Reading(_) => 3
    case Offering(_, _) => 2
    case Idle => 1
    case Gone => 0
  }

  function Weights(workers: seq<Worker>): nat {
    if workers == [] then 0 else Weights(workers[..|workers| - 1]) + Weight(workers[|workers| - 1])
  }

  function Rank(s: State): nat {
    match s.phase
    case Outside => 0
    case Stopping => 1
    case Filling(_, first) => if first then 3 else 1
    case Waiting(_) => 2
  }

  /** Steps that handing out heights, reading and exiting can still take before the phase changes. */
  function Work(s: State): int {
    3 * (s.nextRead + Parallelism(s) - s.nextToRead) + Weights(s.workers)
  }

  lemma {:induction false} WeightsUpdate(workers: seq<Worker>, j: nat, w: Worker)
    requires j < |workers|
    ensures Weights(workers[j := w]) == Weights(workers) - Weight(workers[j]) + Weight(w)
    decreases |workers|
  {
    var n := |workers| - 1;
    if j < n {
      WeightsUpdate(workers[..n], j, w);
      assert workers[j := w][..n] == workers[..n][j := w];
    } else {
      assert workers[j := w][..n] == workers[..n];
    }
  }

  /** Every step brings a call, or a `Stop` that waits, closer to its end; so with `NoDeadlock` and `WorkersLeave` every
      call and every `Stop` returns. */
  lemma CallsReturn(s: State, e: Event)
    requires IterOk(s) && Internal(e) && Enabled(s, e)
    ensures var t := Next(s, e); Rank(t) < Rank(s) || (Rank(t) == Rank(s) && 0 <= Work(t) < Work(s))
  {
    hide RingOk, WorkersOk, NoneLost;
    StepKeepsIter(s, e);
    match e {
      case Send(j) => WeightsUpdate(s.workers, j, Reading(s.nextToRead));
      case Read(j, found) => WeightsUpdate(s.workers, j, Offering(s.workers[j].h, found));
      case Receive(j) => WeightsUpdate(s.workers, j, Idle);
      case Exit(j) => WeightsUpdate(s.workers, j, Gone);
      case _ =>
    }
  }
}
