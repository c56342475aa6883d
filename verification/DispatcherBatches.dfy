/** What the dispatcher's batches hold and when they are published, over every run. */
module DispatcherBatches {
  import opened Wrappers
  import opened Dispatcher

  /** The statement that a case is heading for. */
  function Goal(code: seq<Instr>): Option<Instr> {
    if code == [] then None else Some(code[|code| - 1])
  }

  predicate EndsWith(code: seq<Instr>, i: Instr) {
    Goal(code) == Some(i)
  }

  /** An event has been received but not yet counted. */
  predicate Counting(code: seq<Instr>) {
    EndsWith(code, Begin) || EndsWith(code, Extend)
  }

  predicate OnTimer(i: Instr) {
    i.Stop? || i.Drain? || i.Reset?
  }

  /** A case works on the timers first, and its last statement is the one that changes the batch. */
  predicate ShapeOk(code: seq<Instr>) {
    && (code != [] ==> Counting(code) || EndsWith(code, Flush))
    && (forall k :: 0 <= k < |code| - 1 ==> OnTimer(code[k]))
    && (forall k :: 0 <= k < |code| && code[k].Reset? ==>
          code[k].duration == if EndsWith(code, Flush) then NO_TIMEOUT else Window(code[k].timer))
    && (forall k :: 0 <= k < |code| && OnTimer(code[k]) && EndsWith(code, Extend) ==> code[k].timer == Sliding)
  }

  // ---------------------------------------------------------------------------
  // Conservation

  /** All the events of a list of batches, in order. */
  function Contents(batches: seq<Batch>): seq<string> {
    if batches == [] then [] else Contents(batches[..|batches| - 1]) + batches[|batches| - 1].events
  }

  /** A batch publishes its last event's message and counts its events. */
  predicate Faithful(msg: string, size: nat, events: seq<string>) {
    size == |events| && (events != [] ==> msg == events[|events| - 1])
  }

  predicate BatchInv(s: State) {
    && (s.pending <==> s.size > 0)
    && (EndsWith(s.code, Begin) ==> !s.pending)
    && (EndsWith(s.code, Extend) ==> s.pending)
    && |s.current| == s.size + (if Counting(s.code) then 1 else 0)
    && (s.current != [] ==> s.msg == s.current[|s.current| - 1])
    && Contents(s.batches) + s.current == s.received
    && forall b <- s.batches :: Faithful(b.msg, b.size, b.events)
  }

  predicate CountersInv(s: State) {
    && s.dispatched == |s.batches| + s.direct
    && s.queued == |s.received| + s.direct + (if s.worker == Free then 0 else 1)
  }

  predicate Inv(s: State) {
    ShapeOk(s.code) && TimersInv(s) && BatchInv(s) && CountersInv(s)
  }

  /** After a statement on a timer the case goes on with the same last statement. */
  lemma CaseGoesOn(code: seq<Instr>)
    requires ShapeOk(code) && code != [] && OnTimer(code[0])
    ensures Goal(code[1..]) == Goal(code) && Goal([Drain(code[0].timer)] + code[1..]) == Goal(code)
    ensures ShapeOk(code[1..]) && ShapeOk([Drain(code[0].timer)] + code[1..])
  {
    assert |code| > 1;
    var rest := code[1..];
    var drain := [Drain(code[0].timer)] + rest;
    assert rest[|rest| - 1] == code[|code| - 1] == drain[|drain| - 1];
    assert forall k :: 0 <= k < |rest| ==> rest[k] == code[k + 1];
    assert forall k :: 0 < k < |drain| ==> drain[k] == code[k];
  }

  lemma CasesAreShaped()
    ensures ShapeOk(FIRST_EVENT) && EndsWith(FIRST_EVENT, Begin)
    ensures ShapeOk(FURTHER_EVENT) && EndsWith(FURTHER_EVENT, Extend)
    ensures forall w :: ShapeOk(Expiry(w)) && EndsWith(Expiry(w), Flush)
  {
  }

  lemma StepKeepsShape(s: State, a: Action)
    requires ShapeOk(s.code) && Enabled(s, a)
    ensures ShapeOk(Next(s, a).code)
  {
    CasesAreShaped();
    if a.Execute? && OnTimer(s.code[0]) {
      CaseGoesOn(s.code);
    }
  }

  /** A statement on a timer changes the timer and what is left of the case. */
  lemma TimerStatement(s: State)
    requires ShapeOk(s.code) && Enabled(s, Execute) && OnTimer(s.code[0])
    ensures var t := Next(s, Execute); var w := s.code[0].timer;
      && t.code != [] && Goal(t.code) == Goal(s.code)
      && t == SetTimer(s.(code := t.code), w, TimerOf(t, w))
  {
    CaseGoesOn(s.code);
  }

  lemma LastStandsAlone(code: seq<Instr>)
    requires ShapeOk(code) && code != [] && !OnTimer(code[0])
    ensures code == [Begin] || code == [Extend] || code == [Flush]
  {
    assert |code| == 1;
  }

  lemma ContentsAppend(batches: seq<Batch>, b: Batch)
    ensures Contents(batches + [b]) == Contents(batches) + b.events
  {
    assert (batches + [b])[..|batches|] == batches;
  }

  lemma FlushKeepsBatchInv(s: State)
    requires BatchInv(s) && CountersInv(s) && s.code == [Flush]
    ensures BatchInv(Next(s, Execute)) && CountersInv(Next(s, Execute))
  {
    var t := Next(s, Execute);
    var b := Batch(s.now, s.msg, s.size, s.current, s.start, s.last, s.idleFor);
    assert t.batches == s.batches + [b] && t.code == [];
    ContentsAppend(s.batches, b);
    assert Contents(t.batches) + t.current == s.received;
  }

  lemma CountingKeepsBatchInv(s: State)
    requires BatchInv(s) && CountersInv(s) && (s.code == [Begin] || s.code == [Extend])
    ensures BatchInv(Next(s, Execute)) && CountersInv(Next(s, Execute))
  {
    assert Next(s, Execute).code == [];
  }

  /** The last statement of a case. */
  lemma LastStatement(s: State)
    requires ShapeOk(s.code) && BatchInv(s) && CountersInv(s) && s.code != [] && !OnTimer(s.code[0])
    ensures s.code == [Begin] || s.code == [Extend] || s.code == [Flush]
    ensures BatchInv(Next(s, Execute)) && CountersInv(Next(s, Execute))
  {
    LastStandsAlone(s.code);
    if s.code == [Flush] {
      FlushKeepsBatchInv(s);
    } else {
      CountingKeepsBatchInv(s);
    }
  }

  /** The invariant speaks only of what the current case is heading for and of the batches. */
  lemma BatchInvFrame(s: State, t: State)
    requires BatchInv(s) && CountersInv(s)
    requires Goal(t.code) == Goal(s.code) && t.pending == s.pending && t.size == s.size && t.msg == s.msg
    requires t.current == s.current && t.batches == s.batches && t.received == s.received
    requires t.queued - s.queued == t.direct - s.direct + (if t.worker == s.worker then 0 else 1)
    requires t.dispatched - s.dispatched == t.direct - s.direct && (t.worker == s.worker || s.worker == Free)
    ensures BatchInv(t) && CountersInv(t)
  {
  }

  lemma ReceiveKeepsBatchInv(s: State)
    requires BatchInv(s) && CountersInv(s) && Enabled(s, Receive)
    ensures BatchInv(Next(s, Receive)) && CountersInv(Next(s, Receive))
  {
    CasesAreShaped();
    assert Contents(s.batches) + (s.current + [s.worker.msg]) == Contents(s.batches) + s.current + [s.worker.msg];
  }

  lemma ServeKeepsBatchInv(s: State, w: Which)
    requires BatchInv(s) && CountersInv(s) && Enabled(s, Serve(w))
    ensures BatchInv(Next(s, Serve(w))) && CountersInv(Next(s, Serve(w)))
  {
    CasesAreShaped();
  }

  lemma EnvironmentKeepsBatchInv(s: State, a: Action)
    requires BatchInv(s) && CountersInv(s) && Enabled(s, a) && !a.Execute? && !a.Receive? && !a.Serve?
    ensures BatchInv(Next(s, a)) && CountersInv(Next(s, a))
  {
    BatchInvFrame(s, Next(s, a));
  }

  lemma StatementKeepsBatchInv(s: State)
    requires ShapeOk(s.code) && BatchInv(s) && CountersInv(s) && Enabled(s, Execute)
    ensures BatchInv(Next(s, Execute)) && CountersInv(Next(s, Execute))
  {
    if OnTimer(s.code[0]) {
      TimerStatement(s);
      BatchInvFrame(s, Next(s, Execute));
    } else {
      LastStatement(s);
    }
  }

  lemma StepKeepsBatchInv(s: State, a: Action)
    requires ShapeOk(s.code) && BatchInv(s) && CountersInv(s) && Enabled(s, a)
    ensures BatchInv(Next(s, a)) && CountersInv(Next(s, a))
  {
    match a
    case Receive => ReceiveKeepsBatchInv(s);
    case Serve(w) => ServeKeepsBatchInv(s, w);
    case Execute => StatementKeepsBatchInv(s);
    case _ => EnvironmentKeepsBatchInv(s, a);
  }

  lemma StepKeepsInv(s: State, a: Action)
    requires Inv(s) && Enabled(s, a)
    ensures Inv(Next(s, a))
  {
    StepKeepsShape(s, a);
    StepKeepsTimersInv(s, a);
    StepKeepsBatchInv(s, a);
  }

  lemma {:induction false} RunKeepsInv(s: State, run: seq<Action>)
    requires Inv(s) && IsRun(s, run)
    ensures Inv(After(s, run))
    decreases |run|
  {
    if run != [] {
      StepKeepsInv(s, run[0]);
      RunKeepsInv(Next(s, run[0]), run[1..]);
    }
  }

  /** Conservation: every broadcast event the dispatcher received is in exactly one batch, in order, or is still
      waiting; each published batch carries the message of its last event; and the counters agree with what was
      published. */
  lemma EventsAreConserved(s: State, run: seq<Action>)
    requires Init(s) && IsRun(s, run)
    ensures var t := After(s, run);
      && Contents(t.batches) + t.current == t.received
      && (t.code == [] ==> Faithful(t.msg, t.size, t.current))
      && (forall b <- t.batches :: Faithful(b.msg, b.size, b.events))
      && t.dispatched == |t.batches| + t.direct
      && t.queued == |t.received| + t.direct + (if t.worker == Free then 0 else 1)
  {
    RunKeepsInv(s, run);
  }

  // ---------------------------------------------------------------------------
  // Timing: in milliseconds, the sliding window is 2_000, the max window 10_000 and a decade 315_360_000_000

  /** No batch is being collected. */
  predicate Idle(s: State) {
    EndsWith(s.code, Flush) || (s.code == [] && !s.pending)
  }

  /** The timer fires no earlier than `t`. */
  predicate NotBefore(s: State, w: Which, t: int) {
    && (TimerOf(s, w).deadline.Some? ==> TimerOf(s, w).deadline.value >= t)
    && (TimerOf(s, w).token ==> s.now >= t)
  }

  /** When a timer ends the batch: the sliding window slides with every event, the max window starts with the first. */
  function Due(start: int, last: int, w: Which): int {
    if w == Sliding then last + 2_000 else start + 10_000
  }

  predicate IsDue(start: int, last: int, time: int) {
    time >= Due(start, last, Sliding) || time >= Due(start, last, Max)
  }

  /** A timer with which the current case is done is set for its window, or for a decade when no batch is being
      collected. */
  predicate TimerSet(s: State, w: Which) {
    UseOf(s.code, w) == Unused ==>
      NotBefore(s, w, if Idle(s) then s.servedAt + NO_TIMEOUT else Due(s.start, s.last, w))
  }

  predicate FlushIsDue(s: State) {
    EndsWith(s.code, Flush) ==> if s.current == [] then s.idleFor >= NO_TIMEOUT else IsDue(s.start, s.last, s.now)
  }

  predicate ClockOk(s: State) {
    && s.servedAt <= s.now
    && (s.current != [] ==> s.start <= s.last <= s.now)
    && (s.batches != [] ==> s.batches[|s.batches| - 1].time <= s.now)
    && (s.current != [] && s.batches != [] ==> s.batches[|s.batches| - 1].time <= s.start)
  }

  /** Batches that hold events are published no earlier than a sliding window after their last event or a max window
      after their first, and a sliding window after the batch before them; a batch without events is published only
      after a decade. */
  predicate Spaced(batches: seq<Batch>) {
    forall i :: 0 <= i < |batches| ==> SpacedAt(batches, i)
  }

  predicate SpacedAt(batches: seq<Batch>, i: nat)
    requires i < |batches|
  {
    var b := batches[i];
    if b.size == 0 then b.idleFor >= 315_360_000_000
    else IsDue(b.start, b.last, b.time) && (i > 0 ==> b.time >= batches[i - 1].time + 2_000)
  }

  predicate TimingInv(s: State) {
    ClockOk(s) && TimerSet(s, Sliding) && TimerSet(s, Max) && FlushIsDue(s) && Spaced(s.batches)
  }

  /** A timer keeps its setting when nothing about it or about the batch changes. */
  lemma TimerSetFrame(s: State, t: State, w: Which)
    requires TimerSet(s, w) && TimerOf(t, w) == TimerOf(s, w) && UseOf(t.code, w) == UseOf(s.code, w)
    requires Idle(t) == Idle(s) && t.servedAt == s.servedAt && t.start == s.start && t.last == s.last && t.now >= s.now
    ensures TimerSet(t, w)
  {
  }

  /** What a statement on a timer leaves to do with the timers. */
  lemma UseAfter(s: State)
    requires CodeOk(s.code) && Enabled(s, Execute) && OnTimer(s.code[0])
    ensures var t := Next(s, Execute); var w := s.code[0].timer;
      && UseOf(t.code, Other(w)) == UseOf(s.code, Other(w))
      && (!s.code[0].Reset? ==> UseOf(t.code, w) != Unused)
  {
    var w := s.code[0].timer;
    assert ([Drain(w)] + s.code[1..])[1..] == s.code[1..];
  }

  /** The parts of the invariant that are not about the timers. */
  lemma ClockFrame(s: State, t: State)
    requires ClockOk(s) && FlushIsDue(s) && Spaced(s.batches)
    requires Goal(t.code) == Goal(s.code) && t.current == s.current && t.batches == s.batches
    requires t.start == s.start && t.last == s.last
    requires t.servedAt == s.servedAt && t.idleFor == s.idleFor && t.now >= s.now
    ensures ClockOk(t) && FlushIsDue(t) && Spaced(t.batches)
  {
  }

  /** A timer that is being restarted is out of consideration until it is reset. */
  lemma StatementSetsTimer(s: State)
    requires ShapeOk(s.code) && CodeOk(s.code) && TimersInv(s) && ClockOk(s) && Enabled(s, Execute)
    requires OnTimer(s.code[0])
    requires BatchInv(s)
    ensures TimerSet(Next(s, Execute), s.code[0].timer)
  {
    TimerStatement(s);
    UseAfter(s);
  }

  lemma TimerStatementKeepsTiming(s: State)
    requires Inv(s) && TimingInv(s) && Enabled(s, Execute) && OnTimer(s.code[0])
    ensures TimingInv(Next(s, Execute))
  {
    StatementSetsTimer(s);
    TimerStatement(s);
    UseAfter(s);
    var t := Next(s, Execute);
    var w := s.code[0].timer;
    assert TimerOf(t, Other(w)) == TimerOf(s, Other(w));
    TimerSetFrame(s, t, Other(w));
    ClockFrame(s, t);
  }

  lemma FiringKeepsTiming(s: State, w: Which)
    requires TimingInv(s) && Enabled(s, Fire(w))
    ensures TimingInv(Next(s, Fire(w)))
  {
    var t := Next(s, Fire(w));
    ClockFrame(s, t);
    TimerSetFrame(s, t, Other(w));
  }

  /** Time passes, or the workqueue is processed. */
  lemma WaitingKeepsTiming(s: State, a: Action)
    requires TimingInv(s) && Enabled(s, a) && (a.Wait? || a.Broadcast? || a.Direct?)
    ensures TimingInv(Next(s, a))
  {
    var t := Next(s, a);
    ClockFrame(s, t);
    TimerSetFrame(s, t, Sliding);
    TimerSetFrame(s, t, Max);
  }

  lemma SpacedAppend(batches: seq<Batch>, b: Batch)
    requires Spaced(batches)
    requires b.size == 0 ==> b.idleFor >= NO_TIMEOUT
    requires b.size > 0 ==> b.start <= b.last && IsDue(b.start, b.last, b.time)
    requires b.size > 0 && batches != [] ==> batches[|batches| - 1].time <= b.start
    ensures Spaced(batches + [b])
  {
    forall i | 0 <= i < |batches| + 1
      ensures SpacedAt(batches + [b], i)
    {
      assert i < |batches| ==> SpacedAt(batches, i);
    }
  }

  lemma CountingKeepsTiming(s: State)
    requires Inv(s) && TimingInv(s) && (s.code == [Begin] || s.code == [Extend])
    ensures TimingInv(Next(s, Execute))
  {
    var t := Next(s, Execute);
    TimerSetFrame(s, t, Sliding);
    TimerSetFrame(s, t, Max);
  }

  lemma FlushKeepsTiming(s: State)
    requires Inv(s) && TimingInv(s) && s.code == [Flush]
    ensures TimingInv(Next(s, Execute))
  {
    var t := Next(s, Execute);
    TimerSetFrame(s, t, Sliding);
    TimerSetFrame(s, t, Max);
    SpacedAppend(s.batches, t.batches[|s.batches|]);
  }

  lemma StatementKeepsTiming(s: State)
    requires Inv(s) && TimingInv(s) && Enabled(s, Execute)
    ensures TimingInv(Next(s, Execute))
  {
    if OnTimer(s.code[0]) {
      TimerStatementKeepsTiming(s);
    } else {
      LastStatement(s);
      if s.code[0].Flush? {
        FlushKeepsTiming(s);
      } else {
        CountingKeepsTiming(s);
      }
    }
  }

  lemma ReceiveKeepsTiming(s: State)
    requires Inv(s) && TimingInv(s) && Enabled(s, Receive)
    ensures TimingInv(Next(s, Receive))
  {
    CasesAreShaped();
    EventCodeIsOk();
  }

  lemma ServeKeepsTiming(s: State, w: Which)
    requires Inv(s) && TimingInv(s) && Enabled(s, Serve(w))
    ensures TimingInv(Next(s, Serve(w)))
  {
    CasesAreShaped();
    ExpiryCodeIsOk(w);
  }

  lemma StepKeepsTiming(s: State, a: Action)
    requires Inv(s) && TimingInv(s) && Enabled(s, a)
    ensures TimingInv(Next(s, a))
  {
    match a
    case Execute => StatementKeepsTiming(s);
    case Receive => ReceiveKeepsTiming(s);
    case Serve(w) => ServeKeepsTiming(s, w);
    case Fire(w) => FiringKeepsTiming(s, w);
    case _ => WaitingKeepsTiming(s, a);
  }

  lemma {:induction false} RunKeepsTiming(s: State, run: seq<Action>)
    requires Inv(s) && TimingInv(s) && IsRun(s, run)
    ensures TimingInv(After(s, run))
    decreases |run|
  {
    if run != [] {
      StepKeepsInv(s, run[0]);
      StepKeepsTiming(s, run[0]);
      RunKeepsTiming(Next(s, run[0]), run[1..]);
    }
  }

  /** Batching: however the events arrive, a batch with events waits until its window has slid to the end or the max
      window is over, and is published at least a sliding window after the batch before it; without an event nothing is
      published in less than a decade. */
  lemma BatchesAreSpaced(s: State, run: seq<Action>)
    requires Init(s) && IsRun(s, run)
    ensures Spaced(After(s, run).batches)
  {
    RunKeepsTiming(s, run);
  }

  // ---------------------------------------------------------------------------
  // Latency

  /** When the timer is or was to fire. */
  function DueAt(t: Timer): int {
    if t.deadline.Some? then t.deadline.value else t.due
  }

  /** When the current case was entered. */
  function CaseStart(s: State): int {
    if EndsWith(s.code, Flush) then s.servedAt else s.last
  }

  /** A case takes no longer than `delay`, and no timer that is due waits longer than that until it is served, unless
      the current case stops it. */
  predicate Prompt(s: State, a: Action, delay: nat) {
    a.Wait? ==>
      && (s.code != [] ==> s.now + a.duration <= CaseStart(s) + delay)
      && forall w: Which :: UseOf(s.code, w) == Unused ==> s.now + a.duration <= DueAt(TimerOf(s, w)) + delay
  }

  ghost predicate IsPromptRun(s: State, run: seq<Action>, delay: nat)
    requires IsRun(s, run)
    decreases |run|
  {
    run == [] || (Prompt(s, run[0], delay) && IsPromptRun(Next(s, run[0]), run[1..], delay))
  }

  /** The timer fires no later than it should and a delay: while no batch is collected, a decade after the last one that
      was served. */
  predicate NotAfter(s: State, w: Which, delay: nat) {
    UseOf(s.code, w) == Unused ==>
      DueAt(TimerOf(s, w)) <= (if Idle(s) then s.servedAt + 315_360_000_000 else Due(s.start, s.last, w)) + delay
  }

  predicate TimersNotAfter(s: State, delay: nat) {
    NotAfter(s, Sliding, delay) && NotAfter(s, Max, delay)
  }

  /** At `time` neither window has been over for longer than this. */
  predicate NotOverdue(start: int, last: int, time: int, late: nat) {
    time <= Due(start, last, Sliding) + late && time <= Due(start, last, Max) + late
  }

  predicate InTime(s: State, delay: nat) {
    && (s.current != [] && !EndsWith(s.code, Flush) ==> NotOverdue(s.start, s.last, s.now, 2 * delay))
    && (s.current != [] && EndsWith(s.code, Flush) ==> NotOverdue(s.start, s.last, s.servedAt, 2 * delay))
    && (s.code != [] ==> s.now <= CaseStart(s) + delay)
    && (EndsWith(s.code, Begin) ==> s.start == s.last)
    && (s.current == [] && s.code == [] ==> s.now <= s.servedAt + 315_360_000_000 + 2 * delay)
    && (s.current == [] && EndsWith(s.code, Flush) ==> s.idleFor <= 315_360_000_000 + 2 * delay)
    && (forall b <- s.batches :: b.size > 0 ==> NotOverdue(b.start, b.last, b.time, 3 * delay))
    && forall b <- s.batches :: b.size == 0 ==> b.idleFor <= 315_360_000_000 + 2 * delay
  }

  lemma TimerStatementIsInTime(s: State, delay: nat)
    requires ShapeOk(s.code) && TimersInv(s) && TimersNotAfter(s, delay) && InTime(s, delay) && Enabled(s, Execute)
    requires OnTimer(s.code[0])
    ensures TimersNotAfter(Next(s, Execute), delay) && InTime(Next(s, Execute), delay)
  {
    TimerStatement(s);
    UseAfter(s);
  }

  lemma LastStatementIsInTime(s: State, delay: nat)
    requires BatchInv(s) && TimersNotAfter(s, delay) && InTime(s, delay) && s.code in {[Begin], [Extend], [Flush]}
    ensures TimersNotAfter(Next(s, Execute), delay) && InTime(Next(s, Execute), delay)
  {
  }

  lemma StatementIsInTime(s: State, delay: nat)
    requires Inv(s) && TimersNotAfter(s, delay) && InTime(s, delay) && Enabled(s, Execute)
    ensures TimersNotAfter(Next(s, Execute), delay) && InTime(Next(s, Execute), delay)
  {
    if OnTimer(s.code[0]) {
      TimerStatementIsInTime(s, delay);
    } else {
      LastStatement(s);
      LastStatementIsInTime(s, delay);
    }
  }

  lemma CaseIsInTime(s: State, a: Action, delay: nat)
    requires Inv(s) && TimersNotAfter(s, delay) && InTime(s, delay) && Enabled(s, a) && (a.Receive? || a.Serve?)
    ensures TimersNotAfter(Next(s, a), delay) && InTime(Next(s, a), delay)
  {
    CasesAreShaped();
    EventCodeIsOk();
    if a.Serve? {
      ExpiryCodeIsOk(a.timer);
    }
  }

  /** A further event leaves the max window alone. */
  lemma {:induction false} ExtendingLeavesMax(code: seq<Instr>)
    requires ShapeOk(code) && EndsWith(code, Extend)
    ensures UseOf(code, Max) == Unused
  {
    if OnTimer(code[0]) {
      CaseGoesOn(code);
      ExtendingLeavesMax(code[1..]);
    }
  }

  lemma WaitIsInTime(s: State, a: Action, delay: nat)
    requires Inv(s) && TimersNotAfter(s, delay) && InTime(s, delay) && a.Wait? && Prompt(s, a, delay)
    ensures TimersNotAfter(Next(s, a), delay) && InTime(Next(s, a), delay)
  {
    if EndsWith(s.code, Extend) {
      ExtendingLeavesMax(s.code);
    }
  }

  lemma EnvironmentIsInTime(s: State, a: Action, delay: nat)
    requires Inv(s) && TimersNotAfter(s, delay) && InTime(s, delay) && Enabled(s, a)
    requires a.Fire? || a.Broadcast? || a.Direct?
    ensures TimersNotAfter(Next(s, a), delay) && InTime(Next(s, a), delay)
  {
    var t := Next(s, a);
    assert DueAt(t.sliding) == DueAt(s.sliding) && DueAt(t.max) == DueAt(s.max);
    assert t == s.(sliding := t.sliding, max := t.max, worker := t.worker, queued := t.queued, direct := t.direct,
                   dispatched := t.dispatched);
  }

  lemma StepIsInTime(s: State, a: Action, delay: nat)
    requires Inv(s) && TimersNotAfter(s, delay) && InTime(s, delay) && Enabled(s, a) && Prompt(s, a, delay)
    ensures TimersNotAfter(Next(s, a), delay) && InTime(Next(s, a), delay)
  {
    match a
    case Execute => StatementIsInTime(s, delay);
    case Receive => CaseIsInTime(s, a, delay);
    case Serve(_) => CaseIsInTime(s, a, delay);
    case Wait(_) => WaitIsInTime(s, a, delay);
    case _ => EnvironmentIsInTime(s, a, delay);
  }

  lemma {:induction false} PromptRunIsInTime(s: State, run: seq<Action>, delay: nat)
    requires Inv(s) && TimersNotAfter(s, delay) && InTime(s, delay) && IsRun(s, run) && IsPromptRun(s, run, delay)
    ensures TimersNotAfter(After(s, run), delay) && InTime(After(s, run), delay)
    decreases |run|
  {
    if run != [] {
      StepKeepsInv(s, run[0]);
      StepIsInTime(s, run[0], delay);
      PromptRunIsInTime(Next(s, run[0]), run[1..], delay);
    }
  }

  /** When a batch should be published: when its window has slid to the end or the max window is over, whichever comes
      first. */
  function Deadline(start: int, last: int): int {
    if last + 2_000 < start + 10_000 then last + 2_000 else start + 10_000
  }

  /** Latency: a batch is published no earlier than its deadline and at most three delays after it, and no event waits
      longer than that; a batch without events comes a decade, and at most two delays more, after the timer served
      before it. When the dispatcher is never held up, all this is exact. */
  lemma BatchesAreInTime(s: State, run: seq<Action>, delay: nat)
    requires Init(s) && IsRun(s, run) && IsPromptRun(s, run, delay)
    ensures forall b <- After(s, run).batches :: b.size > 0 ==>
              Deadline(b.start, b.last) <= b.time <= Deadline(b.start, b.last) + 3 * delay
    ensures forall b <- After(s, run).batches :: b.size == 0 ==>
              315_360_000_000 <= b.idleFor <= 315_360_000_000 + 2 * delay
    ensures var end := After(s, run);
            end.current != [] ==> end.now <= Deadline(end.start, end.last) + 3 * delay
  {
    PromptRunIsInTime(s, run, delay);
    RunKeepsTiming(s, run);
    var batches := After(s, run).batches;
    forall b <- batches
      ensures b.size > 0 ==> IsDue(b.start, b.last, b.time)
      ensures b.size == 0 ==> b.idleFor >= 315_360_000_000
    {
      var i :| 0 <= i < |batches| && batches[i] == b;
      assert SpacedAt(batches, i);
    }
  }
}
