/** The proxy-update dispatcher: two timers coalesce broadcast events into batches. The select loop is modelled
    statement by statement, so that timers may fire between any two of them. */
module Dispatcher {
  import opened Wrappers

  // Durations and instants are in milliseconds.
  const SLIDING_WINDOW := 2_000
  const MAX_WINDOW := 10_000
  const NO_TIMEOUT := 87600 * 3_600_000

  /** A Go timer: when it will fire, if it is running, and whether its channel holds a token. `due` is history: the
      deadline at which the token's firing was due. */
  datatype Timer = Timer(deadline: Option<int>, token: bool, due: int)

  datatype Which = Sliding | Max

  function Other(w: Which): Which {
    if w == Sliding then Max else Sliding
  }

  function Window(w: Which): int {
    if w == Sliding then SLIDING_WINDOW else MAX_WINDOW
  }

  /** The statements of the select cases. `Stop` is `if !timer.Stop() { <-timer.C }`; `Drain` is its
      blocking receive. */
  datatype Instr =
    | Stop(timer: Which)
    | Drain(timer: Which)
    | Reset(timer: Which, duration: int)
    | Begin
    | Extend
    | Flush

  /** The three kinds of select case. */
  const FIRST_EVENT := [Stop(Sliding), Reset(Sliding, SLIDING_WINDOW), Stop(Max), Reset(Max, MAX_WINDOW), Begin]
  const FURTHER_EVENT := [Stop(Sliding), Reset(Sliding, SLIDING_WINDOW), Extend]
  function Expiry(w: Which): seq<Instr> {
    [Reset(w, NO_TIMEOUT), Stop(Other(w)), Reset(Other(w), NO_TIMEOUT), Flush]
  }

  /** A published batch: when and what was published, the batch count, and, as history, the events it stands for,
      when the first and the last of them arrived, and the time between the timer that published it and the one
      served before. */
  datatype Batch = Batch(time: int, msg: string, size: nat, events: seq<string>, start: int, last: int, idleFor: int)

  /** The goroutine that processes the workqueue: it blocks while it hands an event to the dispatcher. */
  datatype Worker = Free | Sending(msg: string)

  datatype State = State(
    sliding: Timer,
    max: Timer,
    code: seq<Instr>,         // the rest of the select case being executed; empty at the select itself
    pending: bool,            // dispatchPending
    size: nat,                // batchCount
    msg: string,              // msgName
    worker: Worker,
    now: int,
    queued: nat,              // totalQProxyEventCount
    dispatched: nat,          // totalDispatchedProxyEventCount
    // The history of the run
    received: seq<string>,    // broadcast events the dispatcher has received
    direct: nat,              // events published to one proxy without the dispatcher
    current: seq<string>,     // events received since the last batch was published
    start: int,               // arrival of the first of them
    last: int,                // arrival of the last of them
    servedAt: int,            // when a timer was last served
    idleFor: int,             // time between the last two served timers
    batches: seq<Batch>)

  datatype Action =
    | Wait(duration: nat)
    | Fire(timer: Which)
    | Broadcast(msg: string)
    | Direct
    | Receive
    | Serve(timer: Which)
    | Execute

  function TimerOf(s: State, w: Which): Timer {
    if w == Sliding then s.sliding else s.max
  }

  function SetTimer(s: State, w: Which, t: Timer): State {
    if w == Sliding then s.(sliding := t) else s.(max := t)
  }

  /** The dispatcher can do nothing until a token arrives that no timer is going to send. */
  predicate Blocked(s: State) {
    s.code != [] && s.code[0].Drain? && !TimerOf(s, s.code[0].timer).token
  }

  predicate Enabled(s: State, a: Action) {
    match a
    case Wait(_) => true
    case Fire(w) => TimerOf(s, w).deadline.Some? && TimerOf(s, w).deadline.value <= s.now
    case Broadcast(_) => s.worker == Free
    case Direct => s.worker == Free
    case Receive => s.code == [] && s.worker.Sending?
    case Serve(w) => s.code == [] && TimerOf(s, w).token
    case Execute => s.code != [] && !Blocked(s)
  }

  function ExecuteInstr(s: State): State
    requires s.code != []
  {
    var rest := s.(code := s.code[1..]);
    match s.code[0]
    case Stop(w) =>
      var t := TimerOf(s, w);
      if t.deadline.Some? then SetTimer(rest, w, t.(deadline := None)) else s.(code := [Drain(w)] + s.code[1..])
    case Drain(w) => SetTimer(rest, w, TimerOf(s, w).(token := false))
    case Reset(w, d) => SetTimer(rest, w, TimerOf(s, w).(deadline := Some(s.now + d)))
    case Begin => rest.(pending := true, size := s.size + 1)
    case Extend => rest.(size := s.size + 1)
    case Flush =>
      rest.(pending := false, size := 0, dispatched := s.dispatched + 1, current := [],
            batches := s.batches + [Batch(s.now, s.msg, s.size, s.current, s.start, s.last, s.idleFor)])
  }

  function Next(s: State, a: Action): State
    requires Enabled(s, a)
  {
    match a
    case Wait(d) => s.(now := s.now + d)
    case Fire(w) => SetTimer(s, w, Timer(None, true, TimerOf(s, w).deadline.value))
    case Broadcast(msg) => s.(worker := Sending(msg), queued := s.queued + 1)
    case Direct => s.(queued := s.queued + 1, direct := s.direct + 1, dispatched := s.dispatched + 1)
    case Receive =>
      s.(worker := Free, msg := s.worker.msg, code := if s.pending then FURTHER_EVENT else FIRST_EVENT,
         received := s.received + [s.worker.msg], current := s.current + [s.worker.msg],
         start := if s.pending then s.start else s.now, last := s.now)
    case Serve(w) =>
      SetTimer(s, w, TimerOf(s, w).(token := false)).(servedAt := s.now, idleFor := s.now - s.servedAt,
        code := Expiry(w))
    case Execute => ExecuteInstr(s)
  }

  predicate Init(s: State) {
    && s.sliding == s.max && s.max.deadline == Some(s.now + NO_TIMEOUT) && !s.max.token
    && s.code == [] && !s.pending && s.size == 0 && s.worker == Free
    && s.queued == s.dispatched == s.direct == 0 && s.received == s.current == []
    && s.servedAt == s.now && s.batches == []
  }

  ghost predicate IsRun(s: State, run: seq<Action>)
    decreases |run|
  {
    run == [] || (Enabled(s, run[0]) && IsRun(Next(s, run[0]), run[1..]))
  }

  ghost function After(s: State, run: seq<Action>): State
    requires IsRun(s, run)
    decreases |run|
  {
    if run == [] then s else After(Next(s, run[0]), run[1..])
  }

  // ---------------------------------------------------------------------------
  // Drains always find a token

  /** What the remaining code does next with a timer. */
  datatype NextUse = Unused | Stopped | Drained | Rearmed

  function UseOf(code: seq<Instr>, w: Which): NextUse {
    if code == [] then Unused
    else
      match code[0]
      case Stop(x) => if x == w then Stopped else UseOf(code[1..], w)
      case Drain(x) => if x == w then Drained else UseOf(code[1..], w)
      case Reset(x, _) => if x == w then Rearmed else UseOf(code[1..], w)
      case _ => UseOf(code[1..], w)
  }

  /** A timer is running or holds a token, but not both; on the way from Stop to Reset it holds exactly what the
      code expects. */
  predicate TimerOk(t: Timer, use: NextUse) {
    match use
    case Unused => t.deadline.Some? != t.token
    case Stopped => t.deadline.Some? != t.token
    case Drained => t.deadline.None? && t.token
    case Rearmed => t.deadline.None? && !t.token
  }

  /** A timer that is stopped or drained is then reset, and is not reset twice. */
  predicate CodeOk(code: seq<Instr>) {
    code == [] ||
    (&& CodeOk(code[1..])
     && match code[0]
        case Stop(w) => UseOf(code[1..], w) == Rearmed
        case Drain(w) => UseOf(code[1..], w) == Rearmed
        case Reset(w, _) => UseOf(code[1..], w) in {Unused, Stopped}
        case _ => true)
  }

  predicate TimersInv(s: State) {
    CodeOk(s.code) && TimerOk(s.sliding, UseOf(s.code, Sliding)) && TimerOk(s.max, UseOf(s.code, Max))
  }

  /** `UseOf` and `CodeOk` of a case, one statement at a time. */
  lemma Prepended(i: Instr, code: seq<Instr>)
    ensures i.Begin? || i.Extend? || i.Flush? ==> CodeOk([i] + code) == CodeOk(code)
    ensures i.Begin? || i.Extend? || i.Flush? ==> forall w :: UseOf([i] + code, w) == UseOf(code, w)
    ensures i.Stop? ==> CodeOk([i] + code) == (CodeOk(code) && UseOf(code, i.timer) == Rearmed)
    ensures i.Stop? ==> UseOf([i] + code, i.timer) == Stopped
    ensures i.Stop? || i.Reset? ==> UseOf([i] + code, Other(i.timer)) == UseOf(code, Other(i.timer))
    ensures i.Reset? ==> CodeOk([i] + code) == (CodeOk(code) && UseOf(code, i.timer) in {Unused, Stopped})
    ensures i.Reset? ==> UseOf([i] + code, i.timer) == Rearmed
  {
    assert ([i] + code)[1..] == code;
  }

  /** The two statements that restart a timer. */
  lemma Restarted(w: Which, d: int, code: seq<Instr>)
    requires CodeOk(code) && UseOf(code, w) in {Unused, Stopped}
    ensures CodeOk([Stop(w), Reset(w, d)] + code)
    ensures UseOf([Stop(w), Reset(w, d)] + code, w) == Stopped
    ensures UseOf([Stop(w), Reset(w, d)] + code, Other(w)) == UseOf(code, Other(w))
  {
    Prepended(Reset(w, d), code);
    Prepended(Stop(w), [Reset(w, d)] + code);
    assert [Stop(w), Reset(w, d)] + code == [Stop(w)] + ([Reset(w, d)] + code);
  }

  lemma EventCodeIsOk()
    ensures CodeOk(FIRST_EVENT) && UseOf(FIRST_EVENT, Sliding) == Stopped && UseOf(FIRST_EVENT, Max) == Stopped
    ensures CodeOk(FURTHER_EVENT) && UseOf(FURTHER_EVENT, Sliding) == Stopped && UseOf(FURTHER_EVENT, Max) == Unused
  {
    Restarted(Sliding, SLIDING_WINDOW, [Extend]);
    assert FURTHER_EVENT == [Stop(Sliding), Reset(Sliding, SLIDING_WINDOW)] + [Extend];
    Restarted(Max, MAX_WINDOW, [Begin]);
    var rest := [Stop(Max), Reset(Max, MAX_WINDOW)] + [Begin];
    Restarted(Sliding, SLIDING_WINDOW, rest);
    assert FIRST_EVENT == [Stop(Sliding), Reset(Sliding, SLIDING_WINDOW)] + rest;
  }

  lemma ExpiryCodeIsOk(w: Which)
    ensures CodeOk(Expiry(w)) && UseOf(Expiry(w), w) == Rearmed && UseOf(Expiry(w), Other(w)) == Stopped
  {
    var rest := [Stop(Other(w)), Reset(Other(w), NO_TIMEOUT)] + [Flush];
    Restarted(Other(w), NO_TIMEOUT, [Flush]);
    Prepended(Reset(w, NO_TIMEOUT), rest);
    assert Expiry(w) == [Reset(w, NO_TIMEOUT)] + rest;
  }

  lemma StepKeepsTimersInv(s: State, a: Action)
    requires TimersInv(s) && Enabled(s, a)
    ensures TimersInv(Next(s, a))
  {
    match a
    case Receive => EventCodeIsOk();
    case Serve(w) => ExpiryCodeIsOk(w);
    case Execute =>
      if s.code[0].Stop? && TimerOf(s, s.code[0].timer).deadline.None? {
        var drained := [Drain(s.code[0].timer)] + s.code[1..];
        assert drained[1..] == s.code[1..];
      }
    case _ =>
  }

  lemma {:induction false} RunKeepsTimersInv(s: State, run: seq<Action>)
    requires TimersInv(s) && IsRun(s, run)
    ensures TimersInv(After(s, run))
    decreases |run|
  {
    if run != [] {
      StepKeepsTimersInv(s, run[0]);
      RunKeepsTimersInv(Next(s, run[0]), run[1..]);
    }
  }

  /** Drain safety: in no interleaving of events and timer firings does the dispatcher block on a drain, and at every
      select each timer is either running or holds a token. */
  lemma DrainSafety(s: State, run: seq<Action>)
    requires Init(s) && IsRun(s, run)
    ensures !Blocked(After(s, run))
    ensures After(s, run).code == [] ==> forall w: Which ::
              TimerOf(After(s, run), w).deadline.Some? != TimerOf(After(s, run), w).token
  {
    RunKeepsTimersInv(s, run);
  }
}
