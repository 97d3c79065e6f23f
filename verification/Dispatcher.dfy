/** The proxy-update dispatcher: two timers batch broadcasts. The dispatcher goroutine, the
    workqueue goroutine, the clock and the timer runtime interleave statement by statement;
    the theorems are about every interleaving. Durations are in milliseconds. */
module Dispatcher {
  import opened Wrappers

  const SLIDING_WINDOW := 2_000
  const MAX_WINDOW := 10_000
  const NO_TIMEOUT := 87600 * 3600 * 1000
  const BROADCAST := "proxy-update"

  datatype Event = Event(msg: int, topic: string)

  // ----------------------------------------------------------------------- timers

  /** When a timer was armed and for how long. */
  datatype Arm = Arm(at: int, window: int)

  /** A Go timer: possibly armed, with a channel that holds at most one value. */
  datatype Timer = Timer(armed: Option<Arm>, full: bool) {
    predicate Due(now: int) {
      armed.Some? && armed.value.at + armed.value.window <= now
    }

    /** The runtime sends the value and disarms the timer. */
    function Expired(): Timer {
      Timer(None, true)
    }

    /** Stop disarms; it reports true only if the timer was still armed. */
    function Stopped(): Timer {
      this.(armed := None)
    }

    function Started(now: int, window: int): Timer {
      this.(armed := Some(Arm(now, window)))
    }

    function Drained(): Timer {
      this.(full := false)
    }
  }

  /** Armed with an empty channel, or fired with exactly one value waiting. */
  predicate Settled(t: Timer) {
    t.armed.Some? <==> !t.full
  }

  predicate Fired(t: Timer) {
    t.armed == None && t.full
  }

  predicate Loose(t: Timer) {
    t.armed == None && !t.full
  }

  // ------------------------------------------------------------ the dispatcher's text

  datatype Which = Sliding | Max

  /** `Stop(w)` stands for: if !w.Stop() { <-w.C }. */
  datatype Op = Stop(w: Which) | Reset(w: Which, window: int) | Batched | Publish

  datatype Handler = FirstEvent | NextEvent | SlidingExpired | MaxExpired

  function Length(h: Handler): nat {
    match h
    case FirstEvent => 5
    case NextEvent => 3
    case SlidingExpired => 4
    case MaxExpired => 4
  }

  /** The statements of the four handlers. */
  function Text(h: Handler, at: nat): Op {
    match h
    case FirstEvent =>
      if at == 0 then Stop(Sliding) else if at == 1 then Reset(Sliding, SLIDING_WINDOW)
      else if at == 2 then Stop(Max) else if at == 3 then Reset(Max, MAX_WINDOW) else Batched
    case NextEvent =>
      if at == 0 then Stop(Sliding) else if at == 1 then Reset(Sliding, SLIDING_WINDOW) else Batched
    case SlidingExpired =>
      if at == 0 then Reset(Sliding, NO_TIMEOUT)
      else if at == 1 then Stop(Max) else if at == 2 then Reset(Max, NO_TIMEOUT) else Publish
    case MaxExpired =>
      if at == 0 then Reset(Max, NO_TIMEOUT)
      else if at == 1 then Stop(Sliding) else if at == 2 then Reset(Sliding, NO_TIMEOUT) else Publish
  }

  /** Where the dispatcher is: in its select, or before a statement of a handler. `draining`
      says that Stop has reported false and the receive comes next. */
  datatype Pc = Select | In(h: Handler, at: nat, draining: bool)

  /** The clock, the timers and the dispatcher's place in its text. */
  datatype Works = Works(now: int, sliding: Timer, max: Timer, pc: Pc)

  function Get(m: Works, w: Which): Timer {
    if w == Sliding then m.sliding else m.max
  }

  function Put(m: Works, w: Which, t: Timer): Works {
    if w == Sliding then m.(sliding := t) else m.(max := t)
  }

  predicate Running(m: Works) {
    m.pc.In? && m.pc.at < Length(m.pc.h) && (m.pc.draining ==> Text(m.pc.h, m.pc.at).Stop?)
  }

  function Here(m: Works): Op
    requires Running(m)
  {
    Text(m.pc.h, m.pc.at)
  }

  function Leave(m: Works): Works
    requires m.pc.In?
  {
    m.(pc := if m.pc.at + 1 < Length(m.pc.h) then In(m.pc.h, m.pc.at + 1, false) else Select)
  }

  /** What one statement of the dispatcher does to the timers. */
  function Moved(m: Works): Works
    requires Running(m)
  {
    match Here(m)
    case Stop(w) =>
      if m.pc.draining then Leave(Put(m, w, Get(m, w).Drained()))
      else if Get(m, w).armed.Some? then Leave(Put(m, w, Get(m, w).Stopped()))
      else m.(pc := m.pc.(draining := true))
    case Reset(w, window) => Leave(Put(m, w, Get(m, w).Started(m.now, window)))
    case _ => Leave(m)
  }

  /** Where the workqueue goroutine is: between events, waiting to hand a broadcast over the
      unbuffered channel, or about to publish an event for specific proxies. */
  datatype Proc = Idle | HandOff(e: Event) | Direct(e: Event)

  /** A published batch: its events, the one that was sent, and when. */
  datatype Batch = Batch(events: seq<Event>, sent: Event, firstAt: int, lastAt: int, at: int)

  /** What has happened so far: the broadcasts queued and the direct publications, in order,
      the events of the pending batch with its first and last time, and the batches sent. */
  datatype Log = Log(
    broadcasts: seq<Event>,
    direct: seq<Event>,
    batch: seq<Event>,
    published: seq<Batch>,
    firstAt: int,
    lastAt: int)

  datatype State = State(
    m: Works,
    dispatchPending: bool,
    batchCount: nat,
    event: Event,
    proc: Proc,
    totalQueued: nat,
    totalDispatched: nat,
    log: Log)

  const FAR_AWAY := Timer(Some(Arm(0, NO_TIMEOUT)), false)
  const START := State(Works(0, FAR_AWAY, FAR_AWAY, Select), false, 0, Event(0, ""), Idle, 0, 0,
                       Log([], [], [], [], 0, 0))

  datatype Step =
    | Advance(dt: nat)
    | Fire(w: Which)
    | Queue(e: Event)
    | PublishDirect
    | Receive
    | Take(w: Which)
    | Execute

  predicate Enabled(s: State, step: Step) {
    match step
    case Advance(_) => true
    case Fire(w) => Get(s.m, w).Due(s.m.now)
    case Queue(_) => s.proc == Idle
    case PublishDirect => s.proc.Direct?
    case Receive => s.m.pc == Select && s.proc.HandOff?
    case Take(w) => s.m.pc == Select && Get(s.m, w).full
    case Execute => Running(s.m) && (s.m.pc.draining ==> Get(s.m, Here(s.m).w).full)
  }

  /** The pending batch goes out, carrying the event at hand. */
  function Sent(s: State): Log {
    var b := Batch(s.log.batch, s.event, s.log.firstAt, s.log.lastAt, s.m.now);
    s.log.(published := s.log.published + [b], batch := [])
  }

  function Apply(s: State, step: Step): State
    requires Enabled(s, step)
  {
    match step
    case Advance(dt) => s.(m := s.m.(now := s.m.now + dt))
    case Fire(w) => s.(m := Put(s.m, w, Get(s.m, w).Expired()))
    case Queue(e) =>
      if e.topic != BROADCAST then s.(totalQueued := s.totalQueued + 1, proc := Direct(e))
      else s.(totalQueued := s.totalQueued + 1, proc := HandOff(e), log := s.log.(broadcasts := s.log.broadcasts + [e]))
    case PublishDirect =>
      s.(log := s.log.(direct := s.log.direct + [s.proc.e]), totalDispatched := s.totalDispatched + 1, proc := Idle)
    case Receive =>
      s.(event := s.proc.e, proc := Idle,
      log := s.log.(lastAt := s.m.now, firstAt := if s.dispatchPending then s.log.firstAt else s.m.now),
      m := s.m.(pc := In(if s.dispatchPending then NextEvent else FirstEvent, 0, false)))
    case Take(w) =>
      var h := if w == Sliding then SlidingExpired else MaxExpired;
      s.(m := Put(s.m, w, Get(s.m, w).Drained()).(pc := In(h, 0, false)))
    case Execute =>
      match Here(s.m)
      case Batched =>
        s.(m := Moved(s.m), dispatchPending := true, batchCount := s.batchCount + 1,
        log := s.log.(batch := s.log.batch + [s.event]))
      case Publish =>
        s.(m := Moved(s.m), log := Sent(s),
        totalDispatched := s.totalDispatched + 1, dispatchPending := false, batchCount := 0)
      case _ => s.(m := Moved(s.m))
  }

  function After(steps: seq<Step>): Option<State> {
    if steps == [] then Some(START)
    else
      var s := After(steps[..|steps| - 1]);
      if s.Some? && Enabled(s.value, steps[|steps| - 1]) then Some(Apply(s.value, steps[|steps| - 1])) else None
  }

  // ----------------------------------------------------- the dispatcher never blocks

  /** A timer is settled unless the handler is about to reset it or to drain it. */
  predicate TimerOk(m: Works, w: Which) {
    if Running(m) && Here(m).Reset? && Here(m).w == w then Loose(Get(m, w))
    else if Running(m) && m.pc.draining && Here(m).w == w then Fired(Get(m, w))
    else Settled(Get(m, w))
  }

  predicate Discipline(m: Works) {
    (m.pc.In? ==> Running(m)) && TimerOk(m, Sliding) && TimerOk(m, Max)
  }

  lemma MoveKeepsDiscipline(m: Works)
    requires Discipline(m) && Running(m)
    ensures Discipline(Moved(m))
  {
    match m.pc.h {
      case FirstEvent =>
      case NextEvent =>
      case SlidingExpired =>
      case MaxExpired =>
    }
  }

  lemma StepKeepsDiscipline(s: State, step: Step)
    requires Discipline(s.m) && Enabled(s, step)
    ensures Discipline(Apply(s, step).m)
  {
    if step == Execute {
      MoveKeepsDiscipline(s.m);
    }
  }

  lemma {:induction false} ReachableDiscipline(steps: seq<Step>)
    requires After(steps).Some?
    ensures Discipline(After(steps).value.m)
  {
    if steps != [] {
      ReachableDiscipline(steps[..|steps| - 1]);
      StepKeepsDiscipline(After(steps[..|steps| - 1]).value, steps[|steps| - 1]);
    }
  }

  /** In every reachable state, also when both timers expire at once or in the middle of a
      handler: at the select each timer is armed with an empty channel or fired with one
      value waiting; inside a handler the next statement can always be executed, so no
      receive after a failed Stop ever waits. */
  lemma NeverBlocks(steps: seq<Step>)
    requires After(steps).Some?
    ensures var s := After(steps).value;
            && (s.m.pc == Select ==> Settled(s.m.sliding) && Settled(s.m.max))
            && (s.m.pc.In? ==> Enabled(s, Execute))
  {
    ReachableDiscipline(steps);
  }

  // ---------------------------------------------------------------- conservation

  predicate HandlesEvent(m: Works) {
    m.pc.In? && (m.pc.h == FirstEvent || m.pc.h == NextEvent)
  }

  /** A broadcast on its way: taken over but not yet counted, then the one not yet taken over. */
  function InHand(s: State): seq<Event> {
    (if HandlesEvent(s.m) then [s.event] else []) + (if s.proc.HandOff? then [s.proc.e] else [])
  }

  function Flat(batches: seq<Batch>): seq<Event> {
    if batches == [] then [] else Flat(batches[..|batches| - 1]) + batches[|batches| - 1].events
  }

  predicate CarriesLatest(b: Batch) {
    b.events != [] ==> b.sent == b.events[|b.events| - 1]
  }

  predicate Books(s: State) {
    && |s.log.batch| == s.batchCount
    && (s.dispatchPending <==> s.log.batch != [])
    && (s.log.batch != [] && !HandlesEvent(s.m) ==> s.event == s.log.batch[|s.log.batch| - 1])
    && s.totalQueued == |s.log.direct| + |s.log.broadcasts| + (if s.proc.Direct? then 1 else 0)
    && s.totalDispatched == |s.log.direct| + |s.log.published|
    && s.log.broadcasts == Flat(s.log.published) + s.log.batch + InHand(s)
    && (forall i :: 0 <= i < |s.log.published| ==> CarriesLatest(s.log.published[i]))
  }

  lemma BatchedKeepsBooks(s: State)
    requires Books(s) && Running(s.m) && Here(s.m) == Batched
    ensures Books(Apply(s, Execute))
  {
    var s' := Apply(s, Execute);
    assert HandlesEvent(s.m) && !HandlesEvent(s'.m);
    assert s'.log.broadcasts == Flat(s'.log.published) + s'.log.batch + InHand(s');
  }

  lemma PublishKeepsBooks(s: State)
    requires Books(s) && Running(s.m) && Here(s.m) == Publish
    ensures Books(Apply(s, Execute))
  {
    var s' := Apply(s, Execute);
    assert !HandlesEvent(s.m) && !HandlesEvent(s'.m);
    assert s'.log.published[..|s.log.published|] == s.log.published;
    assert Flat(s'.log.published) == Flat(s.log.published) + s.log.batch;
    assert s'.log.broadcasts == Flat(s'.log.published) + s'.log.batch + InHand(s');
  }

  lemma ExecuteKeepsBooks(s: State)
    requires Books(s) && Enabled(s, Execute)
    ensures Books(Apply(s, Execute))
  {
    match Here(s.m) {
      case Batched => BatchedKeepsBooks(s);
      case Publish => PublishKeepsBooks(s);
      case _ =>
        var s' := Apply(s, Execute);
        assert HandlesEvent(s.m) == HandlesEvent(s'.m);
        assert InHand(s) == InHand(s');
    }
  }

  lemma StepKeepsBooks(s: State, step: Step)
    requires Books(s) && Enabled(s, step)
    ensures Books(Apply(s, step))
  {
    var s' := Apply(s, step);
    match step {
      case Execute => ExecuteKeepsBooks(s);
      case Queue(e) =>
        if e.topic == BROADCAST {
          assert s'.log.broadcasts == Flat(s'.log.published) + s'.log.batch + InHand(s');
        }
      case Receive => assert InHand(s) == InHand(s');
      case _ =>
    }
  }

  lemma {:induction false} ReachableBooks(steps: seq<Step>)
    requires After(steps).Some?
    ensures Books(After(steps).value)
  {
    if steps != [] {
      ReachableBooks(steps[..|steps| - 1]);
      StepKeepsBooks(After(steps[..|steps| - 1]).value, steps[|steps| - 1]);
    }
  }

  function Sizes(batches: seq<Batch>): nat {
    if batches == [] then 0 else Sizes(batches[..|batches| - 1]) + |batches[|batches| - 1].events|
  }

  /** How many batches carry no event. */
  function Empties(batches: seq<Batch>): nat {
    if batches == [] then 0
    else Empties(batches[..|batches| - 1]) + (if batches[|batches| - 1].events == [] then 1 else 0)
  }

  lemma {:induction false} SizesOfFlat(batches: seq<Batch>)
    ensures Sizes(batches) == |Flat(batches)| >= |batches| - Empties(batches)
  {
    if batches != [] {
      SizesOfFlat(batches[..|batches| - 1]);
    }
  }

  /** Over every run: the broadcasts, in the order they were queued, are the published batches
      one after the other, the pending batch, and what is in hand - none lost, none sent
      twice. Each batch with events carries its latest one. Hence the counters add up, and
      apart from empty batches never more is dispatched than was queued. */
  lemma Conservation(steps: seq<Step>)
    requires After(steps).Some?
    ensures var s := After(steps).value;
            && s.log.broadcasts == Flat(s.log.published) + s.log.batch + InHand(s)
            && (s.dispatchPending <==> s.log.batch != [])
            && s.totalQueued == |s.log.direct| + (if s.proc.Direct? then 1 else 0)
                                + Sizes(s.log.published) + s.batchCount + |InHand(s)|
            && s.totalDispatched == |s.log.direct| + |s.log.published| <= s.totalQueued + Empties(s.log.published)
            && (forall i :: 0 <= i < |s.log.published| ==> CarriesLatest(s.log.published[i]))
  {
    ReachableBooks(steps);
    SizesOfFlat(After(steps).value.log.published);
  }

  /** The events of a run as the workqueue yields them: the broadcasts, or those for specific
      proxies. */
  function Yielded(steps: seq<Step>, broadcast: bool): seq<Event> {
    if steps == [] then []
    else
      var before, last := Yielded(steps[..|steps| - 1], broadcast), steps[|steps| - 1];
      if last.Queue? && (last.e.topic == BROADCAST) == broadcast then before + [last.e] else before
  }

  /** Over every run: events for specific proxies are published themselves, each once, in the order
      of the queue and at once, the last one perhaps still on its way; and the broadcasts that
      the batches are made of are those of the queue. */
  lemma {:induction false} EachInOrder(steps: seq<Step>)
    requires After(steps).Some?
    ensures var s := After(steps).value;
            && s.log.direct + (if s.proc.Direct? then [s.proc.e] else []) == Yielded(steps, false)
            && s.log.broadcasts == Yielded(steps, true)
  {
    if steps != [] {
      EachInOrder(steps[..|steps| - 1]);
    }
  }

  /** For each timer value taken in a run, in order: was a batch pending at that moment? */
  function Takings(steps: seq<Step>): seq<bool>
    requires After(steps).Some?
  {
    if steps == [] then []
    else
      var n := |steps| - 1;
      Takings(steps[..n]) + (if steps[n].Take? then [After(steps[..n]).value.dispatchPending] else [])
  }

  /** A timer value was taken and its batch is not published yet. */
  predicate Flushing(m: Works) {
    m.pc.In? && (m.pc.h == SlidingExpired || m.pc.h == MaxExpired)
  }

  predicate BatchesAre(batches: seq<Batch>, full: seq<bool>) {
    |batches| == |full| && forall i :: 0 <= i < |full| ==> (batches[i].events != [] <==> full[i])
  }

  /** The published batches follow the takings; the last one may still be on its way. */
  predicate Follows(s: State, t: seq<bool>) {
    if Flushing(s.m) then |t| > 0 && t[|t| - 1] == s.dispatchPending && BatchesAre(s.log.published, t[..|t| - 1])
    else BatchesAre(s.log.published, t)
  }

  lemma StepKeepsFollowing(s: State, step: Step, t: seq<bool>)
    requires Discipline(s.m) && Books(s) && Enabled(s, step) && Follows(s, t)
    ensures Follows(Apply(s, step), t + if step.Take? then [s.dispatchPending] else [])
  {
    if step.Take? {
      assert (t + [s.dispatchPending])[..|t|] == t;
    } else {
      assert t + [] == t;
    }
  }

  lemma {:induction false} BatchesFollowTakings(steps: seq<Step>)
    requires After(steps).Some?
    ensures Follows(After(steps).value, Takings(steps))
  {
    if steps != [] {
      var n := |steps| - 1;
      BatchesFollowTakings(steps[..n]);
      ReachableDiscipline(steps[..n]);
      ReachableBooks(steps[..n]);
      StepKeepsFollowing(After(steps[..n]).value, steps[n], Takings(steps[..n]));
    }
  }

  /** Exactly when a batch is empty, over every run: each timer value taken publishes one batch,
      in order, and it is empty if and only if nothing was pending when the value was taken. */
  lemma EmptyBatchIff(steps: seq<Step>, i: nat)
    requires After(steps).Some? && i < |After(steps).value.log.published|
    ensures i < |Takings(steps)| && (After(steps).value.log.published[i].events == [] <==> !Takings(steps)[i])
  {
    BatchesFollowTakings(steps);
  }

  // ------------------------------------------------------------------ no empty batch

  /** A decade never passes on an idle dispatcher: no timer set to `NO_TIMEOUT` expires. */
  predicate Timely(s: State, step: Step)
    requires Enabled(s, step)
  {
    step.Fire? ==> Get(s.m, step.w).armed.value.window != NO_TIMEOUT
  }

  predicate TimelyRun(steps: seq<Step>) {
    After(steps).Some? &&
    (steps == [] ||
     (TimelyRun(steps[..|steps| - 1]) && Timely(After(steps[..|steps| - 1]).value, steps[|steps| - 1])))
  }

  predicate Live(t: Timer, window: int) {
    Settled(t) && (t.armed.Some? ==> t.armed.value.window == window)
  }

  predicate Quiet(t: Timer) {
    Settled(t) && t.armed.Some? && t.armed.value.window == NO_TIMEOUT
  }

  /** Which window each timer is set to, at every place of the text. */
  predicate WindowsOk(m: Works, pending: bool) {
    match m.pc
    case Select =>
      if pending then Live(m.sliding, SLIDING_WINDOW) && Live(m.max, MAX_WINDOW) else Quiet(m.sliding) && Quiet(m.max)
    case In(h, at, draining) =>
      match h
      case FirstEvent =>
        && !pending && !draining
        && (at == 0 ==> Quiet(m.sliding)) && (at >= 2 ==> Live(m.sliding, SLIDING_WINDOW))
        && (at <= 2 ==> Quiet(m.max)) && (at == 4 ==> Live(m.max, MAX_WINDOW))
      case NextEvent =>
        pending && (at != 1 ==> Live(m.sliding, SLIDING_WINDOW)) && Live(m.max, MAX_WINDOW)
      case SlidingExpired =>
        && pending && (at >= 1 ==> Quiet(m.sliding))
        && (at <= 1 ==> Live(m.max, MAX_WINDOW)) && (at == 3 ==> Quiet(m.max))
      case MaxExpired =>
        && pending && (at >= 1 ==> Quiet(m.max))
        && (at <= 1 ==> Live(m.sliding, SLIDING_WINDOW)) && (at == 3 ==> Quiet(m.sliding))
  }

  lemma MoveKeepsWindows(m: Works, pending: bool)
    requires Discipline(m) && Running(m) && WindowsOk(m, pending)
    ensures var pending' := match Here(m) { case Batched => true case Publish => false case _ => pending };
            WindowsOk(Moved(m), pending')
  {
    match m.pc.h {
      case FirstEvent =>
      case NextEvent =>
      case SlidingExpired =>
      case MaxExpired =>
    }
  }

  lemma StepKeepsWindows(s: State, step: Step)
    requires Discipline(s.m) && WindowsOk(s.m, s.dispatchPending) && Enabled(s, step) && Timely(s, step)
    ensures WindowsOk(Apply(s, step).m, Apply(s, step).dispatchPending)
  {
    if step == Execute {
      MoveKeepsWindows(s.m, s.dispatchPending);
    }
  }

  lemma StepKeepsNonEmpty(s: State, step: Step)
    requires WindowsOk(s.m, s.dispatchPending) && Books(s) && Enabled(s, step)
    ensures Empties(Apply(s, step).log.published) == Empties(s.log.published)
  {
    var now := Apply(s, step).log.published;
    if now != s.log.published {
      assert now[..|now| - 1] == s.log.published;
    }
  }

  lemma {:induction false} TimelyInv(steps: seq<Step>)
    requires TimelyRun(steps)
    ensures var s := After(steps).value;
            && Discipline(s.m) && WindowsOk(s.m, s.dispatchPending) && Books(s)
            && Empties(s.log.published) == 0
  {
    ReachableDiscipline(steps);
    ReachableBooks(steps);
    if steps != [] {
      TimelyInv(steps[..|steps| - 1]);
      var s, step := After(steps[..|steps| - 1]).value, steps[|steps| - 1];
      StepKeepsWindows(s, step);
      StepKeepsNonEmpty(s, step);
    }
  }

  /** While no decade passes idle, a batch is published only while something is pending, no batch
      is empty, and never more is dispatched than was queued. */
  lemma NoEmptyPublish(steps: seq<Step>)
    requires TimelyRun(steps)
    ensures var s := After(steps).value;
            && (Running(s.m) && Here(s.m) == Publish ==> s.dispatchPending && s.log.batch != [])
            && Empties(s.log.published) == 0 && s.totalDispatched <= s.totalQueued
  {
    TimelyInv(steps);
    Conservation(steps);
  }

  lemma AfterSnoc(steps: seq<Step>, step: Step)
    requires After(steps).Some? && Enabled(After(steps).value, step)
    ensures After(steps + [step]) == Some(Apply(After(steps).value, step))
  {
    assert (steps + [step])[..|steps|] == steps;
  }

  /** The dispatcher a decade after its start, at a place of its text and with given timers. */
  function DecadeLater(sliding: Timer, max: Timer, pc: Pc): State {
    START.(m := Works(NO_TIMEOUT, sliding, max, pc))
  }

  const PUT_OFF := Timer(Some(Arm(NO_TIMEOUT, NO_TIMEOUT)), false)

  lemma DecadePasses()
    ensures Apply(START, Advance(NO_TIMEOUT)) == DecadeLater(FAR_AWAY, FAR_AWAY, Select)
    ensures Enabled(DecadeLater(FAR_AWAY, FAR_AWAY, Select), Fire(Sliding))
    ensures Apply(DecadeLater(FAR_AWAY, FAR_AWAY, Select), Fire(Sliding)) ==
            DecadeLater(Timer(None, true), FAR_AWAY, Select)
    ensures Apply(DecadeLater(Timer(None, true), FAR_AWAY, Select), Take(Sliding)) ==
            DecadeLater(Timer(None, false), FAR_AWAY, In(SlidingExpired, 0, false))
  {
  }

  lemma IdleHandlerRuns()
    ensures Apply(DecadeLater(Timer(None, false), FAR_AWAY, In(SlidingExpired, 0, false)), Execute) ==
            DecadeLater(PUT_OFF, FAR_AWAY, In(SlidingExpired, 1, false))
    ensures Apply(DecadeLater(PUT_OFF, FAR_AWAY, In(SlidingExpired, 1, false)), Execute) ==
            DecadeLater(PUT_OFF, Timer(None, false), In(SlidingExpired, 2, false))
    ensures Apply(DecadeLater(PUT_OFF, Timer(None, false), In(SlidingExpired, 2, false)), Execute) ==
            DecadeLater(PUT_OFF, PUT_OFF, In(SlidingExpired, 3, false))
  {
  }

  lemma RunOn(steps: seq<Step>, s: State, step: Step)
    requires After(steps) == Some(s) && Enabled(s, step)
    ensures After(steps + [step]) == Some(Apply(s, step))
  {
    AfterSnoc(steps, step);
  }

  /** It happens: after a decade without events the dispatcher publishes a batch that nobody
      queued. */
  lemma DecadeIdlePublishesNothing() returns (steps: seq<Step>)
    ensures After(steps).Some?
    ensures After(steps).value.log.published == [Batch([], Event(0, ""), 0, 0, NO_TIMEOUT)]
    ensures After(steps).value.totalDispatched > After(steps).value.totalQueued
  {
    steps := IdleRun();
    RunOn(steps, DecadeLater(PUT_OFF, PUT_OFF, In(SlidingExpired, 3, false)), Execute);
    steps := steps + [Execute];
  }

  lemma IdleRun() returns (steps: seq<Step>)
    ensures After(steps) == Some(DecadeLater(PUT_OFF, PUT_OFF, In(SlidingExpired, 3, false)))
  {
    DecadePasses();
    IdleHandlerRuns();
    RunOn([], START, Advance(NO_TIMEOUT));
    steps := [] + [Advance(NO_TIMEOUT)];
    RunOn(steps, DecadeLater(FAR_AWAY, FAR_AWAY, Select), Fire(Sliding));
    steps := steps + [Fire(Sliding)];
    RunOn(steps, DecadeLater(Timer(None, true), FAR_AWAY, Select), Take(Sliding));
    steps := steps + [Take(Sliding)];
    RunOn(steps, DecadeLater(Timer(None, false), FAR_AWAY, In(SlidingExpired, 0, false)), Execute);
    steps := steps + [Execute];
    RunOn(steps, DecadeLater(PUT_OFF, FAR_AWAY, In(SlidingExpired, 1, false)), Execute);
    steps := steps + [Execute];
    RunOn(steps, DecadeLater(PUT_OFF, Timer(None, false), In(SlidingExpired, 2, false)), Execute);
    steps := steps + [Execute];
  }

  // -------------------------------------------------------------------- deadlines

  /** The dispatcher's own statements take no time, and the clock does not pass over a timer
      that is due or a value that is waiting. */
  predicate Punctual(s: State, step: Step) {
    step.Advance? ==>
      && s.m.pc == Select && !s.m.sliding.full && !s.m.max.full
      && !s.m.sliding.Due(s.m.now + step.dt - 1) && !s.m.max.Due(s.m.now + step.dt - 1)
  }

  predicate PunctualRun(steps: seq<Step>) {
    TimelyRun(steps) &&
    (steps == [] ||
     (PunctualRun(steps[..|steps| - 1]) && Punctual(After(steps[..|steps| - 1]).value, steps[|steps| - 1])))
  }

  predicate ArmedAt(t: Timer, window: int, at: int) {
    t.armed.Some? && t.armed.value.window == window ==> t.armed.value.at == at
  }

  /** The sliding window counts from the last event, the max window from the first. */
  predicate OnTime(m: Works, pending: bool, firstAt: int, lastAt: int) {
    && (HandlesEvent(m) ==> m.now == lastAt && (m.pc.h == FirstEvent ==> m.now == firstAt))
    && (!HandlesEvent(m) || m.pc.at >= 2 ==> ArmedAt(m.sliding, SLIDING_WINDOW, lastAt))
    && (pending || !m.pc.In? || m.pc.at >= 3 ==> ArmedAt(m.max, MAX_WINDOW, firstAt))
    && (pending ==> firstAt <= lastAt <= m.now <= lastAt + SLIDING_WINDOW && m.now <= firstAt + MAX_WINDOW)
  }

  predicate PublishedInTime(s: State) {
    forall i :: 0 <= i < |s.log.published| ==>
      s.log.published[i].at <= s.log.published[i].lastAt + SLIDING_WINDOW &&
        s.log.published[i].at <= s.log.published[i].firstAt + MAX_WINDOW
  }

  predicate InTime(s: State) {
    OnTime(s.m, s.dispatchPending, s.log.firstAt, s.log.lastAt) && PublishedInTime(s)
  }

  lemma MoveKeepsTime(m: Works, pending: bool, firstAt: int, lastAt: int)
    requires Discipline(m) && Running(m) && WindowsOk(m, pending) && OnTime(m, pending, firstAt, lastAt)
    ensures var pending' := match Here(m) { case Batched => true case Publish => false case _ => pending };
            OnTime(Moved(m), pending', firstAt, lastAt)
  {
    match m.pc.h {
      case FirstEvent =>
      case NextEvent =>
      case SlidingExpired =>
      case MaxExpired =>
    }
  }

  lemma StepKeepsTime(s: State, step: Step)
    requires Discipline(s.m) && WindowsOk(s.m, s.dispatchPending) && InTime(s)
    requires Enabled(s, step) && Timely(s, step) && Punctual(s, step)
    ensures InTime(Apply(s, step))
  {
    if step == Execute {
      MoveKeepsTime(s.m, s.dispatchPending, s.log.firstAt, s.log.lastAt);
    }
  }

  lemma {:induction false} PunctualInv(steps: seq<Step>)
    requires PunctualRun(steps)
    ensures InTime(After(steps).value)
  {
    if steps != [] {
      PunctualInv(steps[..|steps| - 1]);
      TimelyInv(steps[..|steps| - 1]);
      StepKeepsTime(After(steps[..|steps| - 1]).value, steps[|steps| - 1]);
    }
  }

  /** Every event is dispatched in time: while a batch is pending at the select, each timer has
      fired or is due exactly its window after the last, respectively the first, event of the
      batch - the max timer is never re-armed within a batch - and every batch was published
      at most 2 s after its last event and at most 10 s after its first. */
  lemma Deadlines(steps: seq<Step>)
    requires PunctualRun(steps)
    ensures var s := After(steps).value;
            && (s.dispatchPending && s.m.pc == Select ==>
                 && (s.m.sliding.full || s.m.sliding.armed == Some(Arm(s.log.lastAt, SLIDING_WINDOW)))
                 && (s.m.max.full || s.m.max.armed == Some(Arm(s.log.firstAt, MAX_WINDOW))))
            && (s.dispatchPending ==> s.m.now <= s.log.lastAt + SLIDING_WINDOW && s.m.now <= s.log.firstAt + MAX_WINDOW)
            && (forall i :: 0 <= i < |s.log.published| ==>
                 s.log.published[i].at <= s.log.published[i].lastAt + SLIDING_WINDOW &&
                   s.log.published[i].at <= s.log.published[i].firstAt + MAX_WINDOW)
  {
    TimelyInv(steps);
    PunctualInv(steps);
  }

  /** No timer value is there before its window is over, and what a handler acts on is ripe. */
  predicate Ripe(m: Works, pending: bool, firstAt: int, lastAt: int) {
    match m.pc
    case Select =>
      pending ==>
        && (m.sliding.full ==> m.now >= lastAt + SLIDING_WINDOW)
        && (m.max.full ==> m.now >= firstAt + MAX_WINDOW)
    case In(h, at, _) =>
      match h
      case FirstEvent => (at >= 2 ==> !m.sliding.full) && (at == 4 ==> !m.max.full)
      case NextEvent => (at >= 1 ==> !m.sliding.full) && (m.max.full ==> m.now >= firstAt + MAX_WINDOW)
      case SlidingExpired => m.now >= lastAt + SLIDING_WINDOW
      case MaxExpired => m.now >= firstAt + MAX_WINDOW
  }

  predicate NoneEarly(s: State) {
    forall i :: 0 <= i < |s.log.published| ==>
      || s.log.published[i].at >= s.log.published[i].lastAt + SLIDING_WINDOW
      || s.log.published[i].at >= s.log.published[i].firstAt + MAX_WINDOW
  }

  predicate RipeState(s: State) {
    Ripe(s.m, s.dispatchPending, s.log.firstAt, s.log.lastAt) && NoneEarly(s)
  }

  lemma MoveKeepsRipe(m: Works, pending: bool, firstAt: int, lastAt: int)
    requires Discipline(m) && Running(m) && WindowsOk(m, pending) && OnTime(m, pending, firstAt, lastAt)
    requires Ripe(m, pending, firstAt, lastAt)
    ensures var pending' := match Here(m) { case Batched => true case Publish => false case _ => pending };
            Ripe(Moved(m), pending', firstAt, lastAt)
  {
    match m.pc.h {
      case FirstEvent =>
      case NextEvent =>
      case SlidingExpired =>
      case MaxExpired =>
    }
  }

  lemma StepKeepsRipe(s: State, step: Step)
    requires Discipline(s.m) && WindowsOk(s.m, s.dispatchPending) && InTime(s) && RipeState(s)
    requires Enabled(s, step) && Timely(s, step) && Punctual(s, step)
    ensures RipeState(Apply(s, step))
  {
    if step == Execute {
      MoveKeepsRipe(s.m, s.dispatchPending, s.log.firstAt, s.log.lastAt);
    }
  }

  lemma {:induction false} RipeInv(steps: seq<Step>)
    requires PunctualRun(steps)
    ensures RipeState(After(steps).value)
  {
    if steps != [] {
      var n := |steps| - 1;
      RipeInv(steps[..n]);
      PunctualInv(steps[..n]);
      TimelyInv(steps[..n]);
      StepKeepsRipe(After(steps[..n]).value, steps[n]);
    }
  }

  /** So every batch goes out neither late nor early: 2 s after its last event or 10 s after its
      first, whichever comes first. */
  lemma PublishedExactly(steps: seq<Step>, i: nat)
    requires PunctualRun(steps) && i < |After(steps).value.log.published|
    ensures var b := After(steps).value.log.published[i];
            b.at == if b.lastAt + 2_000 <= b.firstAt + 10_000 then b.lastAt + 2_000 else b.firstAt + 10_000
  {
    RipeInv(steps);
    PunctualInv(steps);
  }

  // ------------------------------------------------------------ the code of the loop

  function Left(m: Works): int {
    if m.pc == Select then 0 else 2 * (Length(m.pc.h) - m.pc.at) + (if m.pc.draining then 0 else 1)
  }

  /** A handler run to its end without interruption. */
  function RunOut(s: State): State
    requires Discipline(s.m)
    decreases Left(s.m)
  {
    if s.m.pc == Select then s
    else
      StepKeepsDiscipline(s, Execute);
      RunOut(Apply(s, Execute))
  }

  lemma RunOutStep(s: State)
    requires Discipline(s.m) && s.m.pc != Select
    ensures Enabled(s, Execute) && Discipline(Apply(s, Execute).m) && RunOut(s) == RunOut(Apply(s, Execute))
  {
    StepKeepsDiscipline(s, Execute);
  }

  /** `if !t.Stop() { <-t.C }` as the loop executes it: one statement, or two. */
  lemma RunOutStop(s: State)
    requires Discipline(s.m) && s.m.pc != Select && Here(s.m).Stop? && !s.m.pc.draining
    ensures var s' := s.(m := Leave(Put(s.m, Here(s.m).w, Timer(None, false))));
            Discipline(s'.m) && RunOut(s) == RunOut(s')
  {
    RunOutStep(s);
    var t := Get(s.m, Here(s.m).w);
    if t.armed == None {
      RunOutStep(Apply(s, Execute));
    }
  }

  function Armed(now: int, window: int): Timer {
    Timer(Some(Arm(now, window)), false)
  }

  lemma RunOutReset(s: State, w: Which, window: int)
    requires Discipline(s.m) && s.m.pc != Select && Here(s.m) == Reset(w, window)
    ensures var s' := s.(m := Leave(Put(s.m, w, Armed(s.m.now, window))));
            Discipline(s'.m) && RunOut(s) == RunOut(s')
  {
    RunOutStep(s);
  }

  /** The state in which a handler is entered, with given timers. */
  function Entered(s: State, h: Handler, at: nat, sliding: Timer, max: Timer): State {
    s.(m := Works(s.m.now, sliding, max, if at < Length(h) then In(h, at, false) else Select))
  }

  /** What an event leaves behind: the first one of a batch arms both timers, a further one
      only moves the sliding window. */
  function Taken(s: State): State
    requires s.proc.HandOff?
  {
    var now := s.m.now;
    s.(event := s.proc.e, proc := Idle, dispatchPending := true, batchCount := s.batchCount + 1,
    log := s.log.(lastAt := now, firstAt := if s.dispatchPending then s.log.firstAt else now,
                  batch := s.log.batch + [s.proc.e]),
    m := Works(now, Armed(now, SLIDING_WINDOW), if s.dispatchPending then s.m.max else Armed(now, MAX_WINDOW), Select))
  }

  lemma FirstEventEffect(s: State)
    requires s.m.pc == Select && Discipline(s.m) && Enabled(s, Receive) && !s.dispatchPending
    ensures Discipline(Apply(s, Receive).m) && RunOut(Apply(s, Receive)) == Taken(s)
  {
    StepKeepsDiscipline(s, Receive);
    var r, idle, now := Apply(s, Receive), Timer(None, false), s.m.now;
    RunOutStop(r);
    RunOutReset(Entered(r, FirstEvent, 1, idle, s.m.max), Sliding, SLIDING_WINDOW);
    MaxTimerArmed(r, Armed(now, SLIDING_WINDOW));
  }

  lemma MaxTimerArmed(r: State, t: Timer)
    requires t.armed.Some? && !t.full && Settled(r.m.max) && !r.dispatchPending
    ensures var r2 := Entered(r, FirstEvent, 2, t, r.m.max);
            && Discipline(r2.m)
            && RunOut(r2) == r.(dispatchPending := true, batchCount := r.batchCount + 1,
                             log := r.log.(batch := r.log.batch + [r.event]),
                             m := Works(r.m.now, t, Armed(r.m.now, MAX_WINDOW), Select))
  {
    RunOutStop(Entered(r, FirstEvent, 2, t, r.m.max));
    RunOutReset(Entered(r, FirstEvent, 3, t, Timer(None, false)), Max, MAX_WINDOW);
    RunOutStep(Entered(r, FirstEvent, 4, t, Armed(r.m.now, MAX_WINDOW)));
  }

  lemma NextEventEffect(s: State)
    requires s.m.pc == Select && Discipline(s.m) && Enabled(s, Receive) && s.dispatchPending
    ensures Discipline(Apply(s, Receive).m) && RunOut(Apply(s, Receive)) == Taken(s)
  {
    StepKeepsDiscipline(s, Receive);
    var r, idle, now := Apply(s, Receive), Timer(None, false), s.m.now;
    RunOutStop(r);
    var r1 := Entered(r, NextEvent, 1, idle, s.m.max);
    RunOutReset(r1, Sliding, SLIDING_WINDOW);
    var r2 := Entered(r, NextEvent, 2, Armed(now, SLIDING_WINDOW), s.m.max);
    RunOutStep(r2);
  }

  function Flushed(s: State): State {
    s.(log := Sent(s), totalDispatched := s.totalDispatched + 1, dispatchPending := false, batchCount := 0,
    m := Works(s.m.now, Armed(s.m.now, NO_TIMEOUT), Armed(s.m.now, NO_TIMEOUT), Select))
  }

  lemma SlidingExpiryEffect(s: State)
    requires s.m.pc == Select && Discipline(s.m) && Enabled(s, Take(Sliding))
    ensures Discipline(Apply(s, Take(Sliding)).m) && RunOut(Apply(s, Take(Sliding))) == Flushed(s)
  {
    StepKeepsDiscipline(s, Take(Sliding));
    var r, idle, off := Apply(s, Take(Sliding)), Timer(None, false), Armed(s.m.now, NO_TIMEOUT);
    RunOutReset(r, Sliding, NO_TIMEOUT);
    RunOutStop(Entered(r, SlidingExpired, 1, off, s.m.max));
    RunOutReset(Entered(r, SlidingExpired, 2, off, idle), Max, NO_TIMEOUT);
    RunOutStep(Entered(r, SlidingExpired, 3, off, off));
  }

  lemma MaxExpiryEffect(s: State)
    requires s.m.pc == Select && Discipline(s.m) && Enabled(s, Take(Max))
    ensures Discipline(Apply(s, Take(Max)).m) && RunOut(Apply(s, Take(Max))) == Flushed(s)
  {
    StepKeepsDiscipline(s, Take(Max));
    var r, idle, off := Apply(s, Take(Max)), Timer(None, false), Armed(s.m.now, NO_TIMEOUT);
    RunOutReset(r, Max, NO_TIMEOUT);
    RunOutStop(Entered(r, MaxExpired, 1, s.m.sliding, off));
    RunOutReset(Entered(r, MaxExpired, 2, idle, off), Sliding, NO_TIMEOUT);
    RunOutStep(Entered(r, MaxExpired, 3, off, off));
  }

  /** The statements of the handlers, run to the end, amount to what the loop's code does:
      whichever timer expires first, the batch goes out and both timers are put off. */
  lemma HandlerEffects(s: State)
    requires s.m.pc == Select && Discipline(s.m)
    ensures Enabled(s, Receive) ==> Discipline(Apply(s, Receive).m) && RunOut(Apply(s, Receive)) == Taken(s)
    ensures forall w :: Enabled(s, Take(w)) ==>
            Discipline(Apply(s, Take(w)).m) && RunOut(Apply(s, Take(w))) == Flushed(s)
  {
    if Enabled(s, Receive) {
      if s.dispatchPending { NextEventEffect(s); } else { FirstEventEffect(s); }
    }
    forall w | Enabled(s, Take(w))
      ensures Discipline(Apply(s, Take(w)).m) && RunOut(Apply(s, Take(w))) == Flushed(s)
    {
      if w == Sliding { SlidingExpiryEffect(s); } else { MaxExpiryEffect(s); }
    }
  }

  /** The goroutines' variables while the dispatcher waits in its select. */
  class Loop {
    var now: int
    var slidingTimer: Timer
    var maxTimer: Timer
    var dispatchPending: bool
    var batchCount: nat
    var event: Event
    var proc: Proc
    var totalQueued: nat
    var totalDispatched: nat
    ghost var log: Log

    ghost function Snapshot(): State
      reads this
    {
      State(Works(now, slidingTimer, maxTimer, Select), dispatchPending, batchCount, event, proc,
                       totalQueued, totalDispatched, log)
    }

    /** Receiving from a timer's channel waits unless a value is there. */
    method ReceiveFrom(t: Timer) returns (t': Timer)
      requires t.full
      ensures t' == t.Drained()
    {
      t' := t.(full := false);
    }

    method StopAndDrain(t: Timer) returns (t': Timer)
      requires Settled(t)
      ensures t' == Timer(None, false)
    {
      t' := t.Stopped();
      if !t.armed.Some? {
        t' := ReceiveFrom(t');
      }
    }

    /** processEvent, for an event that updates proxies. */
    method ProcessEvent(e: Event)
      requires proc == Idle
      modifies this
      ensures Snapshot() ==
              if e.topic != BROADCAST then Apply(Apply(old(Snapshot()), Queue(e)), PublishDirect)
                else Apply(old(Snapshot()), Queue(e))
    {
      totalQueued := totalQueued + 1;
      if e.topic != BROADCAST {
        log := log.(direct := log.direct + [e]);
        totalDispatched := totalDispatched + 1;
      } else {
        proc := HandOff(e);
        log := log.(broadcasts := log.broadcasts + [e]);
      }
    }

    method ArmSlidingTimer()
      requires Settled(slidingTimer)
      modifies `slidingTimer
      ensures slidingTimer == Armed(now, SLIDING_WINDOW)
    {
      slidingTimer := StopAndDrain(slidingTimer);
      slidingTimer := slidingTimer.Started(now, SLIDING_WINDOW);
    }

    method ArmMaxTimer()
      requires Settled(maxTimer)
      modifies `maxTimer
      ensures maxTimer == Armed(now, MAX_WINDOW)
    {
      maxTimer := StopAndDrain(maxTimer);
      maxTimer := maxTimer.Started(now, MAX_WINDOW);
    }

    method OnFirstUpdate()
      requires proc.HandOff? && !dispatchPending && Settled(slidingTimer) && Settled(maxTimer)
      modifies this
      ensures Snapshot() == Taken(old(Snapshot()))
    {
      event := proc.e;
      ArmSlidingTimer();
      ArmMaxTimer();
      dispatchPending := true;
      batchCount := batchCount + 1;
      proc := Idle;
      log := log.(firstAt := now, lastAt := now, batch := log.batch + [event]);
    }

    method OnFurtherUpdate()
      requires proc.HandOff? && dispatchPending && Settled(slidingTimer)
      modifies this
      ensures Snapshot() == Taken(old(Snapshot()))
    {
      event := proc.e;
      ArmSlidingTimer();
      batchCount := batchCount + 1;
      proc := Idle;
      log := log.(lastAt := now, batch := log.batch + [event]);
    }

    /** The first case of the select. */
    method OnProxyUpdate()
      requires proc.HandOff? && Settled(slidingTimer) && Settled(maxTimer)
      modifies this
      ensures Snapshot() == Taken(old(Snapshot()))
    {
      if !dispatchPending {
        OnFirstUpdate();
      } else {
        OnFurtherUpdate();
      }
    }

    /** The second case of the select. */
    method OnSlidingTimer()
      requires slidingTimer.full && Settled(slidingTimer) && Settled(maxTimer)
      modifies this
      ensures Snapshot() == Flushed(old(Snapshot()))
    {
      slidingTimer := ReceiveFrom(slidingTimer);
      slidingTimer := slidingTimer.Started(now, NO_TIMEOUT);
      maxTimer := StopAndDrain(maxTimer);
      maxTimer := maxTimer.Started(now, NO_TIMEOUT);
      PublishPending();
    }

    /** The third case of the select. */
    method OnMaxTimer()
      requires maxTimer.full && Settled(slidingTimer) && Settled(maxTimer)
      modifies this
      ensures Snapshot() == Flushed(old(Snapshot()))
    {
      maxTimer := ReceiveFrom(maxTimer);
      maxTimer := maxTimer.Started(now, NO_TIMEOUT);
      slidingTimer := StopAndDrain(slidingTimer);
      slidingTimer := slidingTimer.Started(now, NO_TIMEOUT);
      PublishPending();
    }

    method PublishPending()
      modifies this
      ensures Snapshot() == old(Snapshot()).(log := Sent(old(Snapshot())), totalDispatched := old(totalDispatched) + 1,
                                             dispatchPending := false, batchCount := 0)
    {
      log := log.(published := log.published + [Batch(log.batch, event, log.firstAt, log.lastAt, now)], batch := []);
      totalDispatched := totalDispatched + 1;
      dispatchPending := false;
      batchCount := 0;
    }
  }
}
