/** The dispatcher never gets stuck: whatever has happened, the events it holds can be published, and in time. */
module DispatcherProgress {
  import opened Wrappers
  import opened Dispatcher
  import opened DispatcherBatches

  /** A run that goes on from a step. */
  lemma Before(s: State, a: Action, rest: seq<Action>)
    requires Enabled(s, a) && Prompt(s, a, 0) && IsRun(Next(s, a), rest) && IsPromptRun(Next(s, a), rest, 0)
    ensures IsRun(s, [a] + rest) && IsPromptRun(s, [a] + rest, 0) && After(s, [a] + rest) == After(Next(s, a), rest)
  {
    assert ([a] + rest)[1..] == rest;
  }

  /** The statements that a case may still execute; a stop may turn into a drain. */
  function Remaining(code: seq<Instr>): nat {
    if code == [] then 0 else (if code[0].Stop? then 2 else 1) + Remaining(code[1..])
  }

  lemma StatementsRunOut(s: State)
    requires Enabled(s, Execute)
    ensures Remaining(Next(s, Execute).code) < Remaining(s.code)
  {
    if s.code[0].Stop? {
      var drained := [Drain(s.code[0].timer)] + s.code[1..];
      assert drained[1..] == s.code[1..];
    }
  }

  /** Executing statements receives nothing and takes no time. */
  predicate OnlyExecuted(s: State, t: State) {
    t.now == s.now && t.received == s.received && t.worker == s.worker && t.code == []
  }

  /** Any case can be finished; if it is one that a timer started, nothing is pending afterwards. */
  lemma {:induction false} FinishCase(s: State) returns (run: seq<Action>)
    requires Inv(s)
    ensures IsRun(s, run) && IsPromptRun(s, run, 0) && OnlyExecuted(s, After(s, run)) && Inv(After(s, run))
    ensures EndsWith(s.code, Flush) || (s.code == [] && !s.pending) ==> !After(s, run).pending
    decreases Remaining(s.code)
  {
    if s.code == [] {
      run := [];
    } else {
      ExecuteOnce(s);
      var rest := FinishCase(Next(s, Execute));
      Before(s, Execute, rest);
      run := [Execute] + rest;
    }
  }

  lemma ExecuteOnce(s: State)
    requires Inv(s) && s.code != []
    ensures Enabled(s, Execute)
    ensures var t := Next(s, Execute);
            && Inv(t) && Remaining(t.code) < Remaining(s.code)
            && t.now == s.now && t.received == s.received && t.worker == s.worker
            && (EndsWith(s.code, Flush) ==> EndsWith(t.code, Flush) || (t.code == [] && !t.pending))
  {
    StatementsRunOut(s);
    StepKeepsInv(s, Execute);
    if OnTimer(s.code[0]) {
      TimerStatement(s);
    } else {
      LastStatement(s);
    }
  }

  /** Serving a timer publishes what is pending. */
  lemma ServeAndPublish(s: State, w: Which) returns (run: seq<Action>)
    requires Inv(s) && s.code == [] && TimerOf(s, w).token
    ensures IsRun(s, run) && IsPromptRun(s, run, 0) && OnlyExecuted(s, After(s, run)) && Inv(After(s, run))
    ensures !After(s, run).pending
  {
    var a := Serve(w);
    StepKeepsInv(s, a);
    CasesAreShaped();
    var rest := FinishCase(Next(s, a));
    Before(s, a, rest);
    run := [a] + rest;
  }

  /** The timer that fires first. */
  function Earlier(s: State): Which
    requires s.sliding.deadline.Some? && s.max.deadline.Some?
  {
    if s.sliding.deadline.value <= s.max.deadline.value then Sliding else Max
  }

  /** Once it is time, the earlier timer fires and is served. */
  lemma FireAndPublish(s: State, w: Which) returns (run: seq<Action>)
    requires Inv(s) && s.code == [] && Enabled(s, Fire(w))
    ensures IsRun(s, run) && IsPromptRun(s, run, 0) && OnlyExecuted(s, After(s, run)) && Inv(After(s, run))
    ensures !After(s, run).pending
  {
    var a := Fire(w);
    StepKeepsInv(s, a);
    var rest := ServeAndPublish(Next(s, a), w);
    Before(s, a, rest);
    run := [a] + rest;
  }

  /** What is pending can be published, without a delay and no later than the earlier timer is to fire. */
  lemma PublishPending(s: State) returns (run: seq<Action>)
    requires Inv(s) && s.code == []
    ensures IsRun(s, run) && IsPromptRun(s, run, 0) && Inv(After(s, run)) && After(s, run).code == []
    ensures After(s, run).received == s.received && !After(s, run).pending
    ensures After(s, run).now == s.now ||
            (s.sliding.deadline.Some? && s.max.deadline.Some? &&
             After(s, run).now == TimerOf(s, Earlier(s)).deadline.value)
  {
    if s.sliding.token {
      run := ServeAndPublish(s, Sliding);
    } else if s.max.token {
      run := ServeAndPublish(s, Max);
    } else {
      var w := Earlier(s);
      var deadline := TimerOf(s, w).deadline.value;
      if deadline <= s.now {
        run := FireAndPublish(s, w);
      } else {
        var a := Wait(deadline - s.now);
        StepKeepsInv(s, a);
        var rest := FireAndPublish(Next(s, a), w);
        Before(s, a, rest);
        run := [a] + rest;
      }
    }
  }

  /** Progress: after any run, some further run, in which no event arrives and the dispatcher is not held up, publishes
      every event that the dispatcher has received. */
  lemma EventsCanBePublished(init: State, before: seq<Action>) returns (run: seq<Action>)
    requires Init(init) && IsRun(init, before)
    ensures IsRun(After(init, before), run) && IsPromptRun(After(init, before), run, 0)
    ensures var end := After(After(init, before), run);
            end.received == After(init, before).received && Contents(end.batches) == end.received && end.current == []
  {
    DispatcherBatches.RunKeepsInv(init, before);
    var s := After(init, before);
    var finish := FinishCase(s);
    var t := After(s, finish);
    var publish := PublishPending(t);
    RunConcat(s, finish, publish);
    run := finish + publish;
    var end := After(s, run);
    assert Contents(end.batches) + [] == Contents(end.batches);
  }

  /** The worker never gets stuck either: after any run, some further run lets it process another event of any kind. */
  lemma WorkerCanGoOn(init: State, before: seq<Action>) returns (run: seq<Action>)
    requires Init(init) && IsRun(init, before)
    ensures IsRun(After(init, before), run) && IsPromptRun(After(init, before), run, 0)
    ensures var end := After(After(init, before), run);
            Enabled(end, Direct) && forall msg :: Enabled(end, Broadcast(msg))
  {
    DispatcherBatches.RunKeepsInv(init, before);
    var s := After(init, before);
    run := FinishCase(s);
    if s.worker.Sending? {
      var t := After(s, run);
      Before(t, Receive, []);
      RunConcat(s, run, [Receive]);
      run := run + [Receive];
    }
  }

  lemma {:induction false} RunConcat(s: State, first: seq<Action>, second: seq<Action>)
    requires IsRun(s, first) && IsRun(After(s, first), second)
    requires IsPromptRun(s, first, 0) && IsPromptRun(After(s, first), second, 0)
    ensures IsRun(s, first + second) && After(s, first + second) == After(After(s, first), second)
    ensures IsPromptRun(s, first + second, 0)
    decreases |first|
  {
    if first == [] {
      assert first + second == second;
    } else {
      assert (first + second)[1..] == first[1..] + second;
      RunConcat(Next(s, first[0]), first[1..], second);
    }
  }
}
