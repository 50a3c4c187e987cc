/** `autonomousState` of daemon/cmd/symmetry-fake-agent/autonomous.go as an object: its methods update
    the fields step by step, against the functions of `Autonomous`. The input channel is the sequence of
    polls still to come and the writer is the sequence of records written. */
module AutonomousAgent {
  import opened Options
  import A = Autonomous

  class Agent {
    var completed: nat
    var guidance: seq<string>
    var paused: bool
    var waiting: bool
    var decision: string
    var commands: map<string, A.Receipt>
    var inputs: seq<A.Event>
    var open: bool
    var output: seq<A.Record>

    constructor (inputs: seq<A.Event>)
      ensures State() == A.INITIAL && this.inputs == inputs && open && output == []
    {
      completed, guidance, paused, waiting, decision, commands := 0, [], false, false, "", map[];
      this.inputs, open, output := inputs, true, [];
    }

    function State(): A.State
      reads this
    {
      A.State(completed, guidance, paused, waiting, decision, commands)
    }

    /** The object stands as the result says, having written the result's output. */
    ghost predicate Shows(before: seq<A.Record>, r: A.Result, failure: Option<A.Failure>)
      reads this
    {
      State() == r.state && inputs == r.events && open == r.open && output == before + r.out && failure == r.failure
    }

    method Apply(line: A.Line) returns (failure: Option<A.Failure>)
      modifies this`guidance, this`paused, this`waiting, this`decision, this`commands, this`output
      ensures var a := A.Apply(old(State()), line);
              State() == a.state && output == old(output) + a.out && failure == a.failure
    {
      if !line.parses { return Some(A.BadControl); }
      var kind := line.kind;
      if kind != "provide_input" && !line.uuid { return Some(A.BadCommandId); }
      if kind != "provide_input" && line.commandId in commands {
        var receipt := commands[line.commandId];
        var outcome := receipt.outcome;
        if receipt.raw != line.raw { outcome := false; }
        output := output + [A.CommandApplied(line.commandId, kind, outcome, true, line.message)];
        return None;
      }
      var applied, deferred := true, false;
      if !line.decodes {
        applied := false;
      } else if kind == "guidance" {
        if line.message.None? || waiting { applied := false; } else { guidance := guidance + [line.message.value]; }
      } else if kind == "pause" {
        if paused || waiting || !line.emptyPayload { applied := false; } else { paused := true; }
      } else if kind == "resume" {
        if !paused || !line.emptyPayload { applied := false; } else { paused := false; }
      } else if kind == "provide_input" {
        if line.optionId.None? || !waiting || (line.optionId.value != "staged" && line.optionId.value != "defer") {
          applied := false;
        } else {
          waiting := false;
          decision := line.optionId.value;
          deferred := decision == "defer";
        }
      } else {
        applied := false;
      }
      if kind == "provide_input" {
        if !applied { return Some(A.BadDecision); }
        output := output + [A.DecisionReceived(decision)];
      } else {
        commands := commands[line.commandId := A.Receipt(line.raw, applied)];
        output := output + [A.CommandApplied(line.commandId, kind, applied, false, line.message)];
      }
      return if deferred then Some(A.Deferred) else None;
    }

    /** What is left to do, after what was written, is what was to be done from the start. */
    ghost predicate Continues(before: seq<A.Record>, whole: A.Result)
      reads this
    {
      var rest := A.Boundary(State(), inputs, open);
      whole == rest.(out := whole.out) && before + whole.out == output + rest.out
    }

    /** Block until the channel has something to say. */
    method Await()
      requires (paused || waiting) && open
      modifies this`inputs
      ensures |inputs| <= |old(inputs)| && (inputs == [] || !inputs[0].NotYet?)
      ensures A.Boundary(State(), inputs, open) == old(A.Boundary(State(), inputs, open))
    {
      while |inputs| > 0 && inputs[0].NotYet?
        invariant |inputs| <= |old(inputs)|
        invariant A.Boundary(State(), inputs, open) == old(A.Boundary(State(), inputs, open))
        decreases |inputs|
      {
        inputs := inputs[1..];
      }
    }

    /** Take what the channel has: its end, or a line to apply. */
    method Receive() returns (more: bool, failure: Option<A.Failure>)
      requires open && (inputs == [] || !inputs[0].NotYet?)
      modifies this`guidance, this`paused, this`waiting, this`decision, this`commands,
        this`output, this`inputs, this`open
      ensures !more ==> Shows(old(output), A.Boundary(old(State()), old(inputs), true), failure)
      ensures more ==> open && |inputs| < |old(inputs)|
      ensures more ==> Continues(old(output), A.Boundary(old(State()), old(inputs), true))
    {
      hide A.Apply, A.Boundary;
      BoundaryUnfolds(State(), inputs, open);
      if |inputs| == 0 || inputs[0].Closed? {
        open, inputs := false, [];
        return false, if paused || waiting then Some(A.InputClosed) else None;
      }
      var line := inputs[0].line;
      inputs := inputs[1..];
      failure := Apply(line);
      if failure.Some? { return false, failure; }
      more := true;
    }

    method Boundary() returns (failure: Option<A.Failure>)
      modifies this`guidance, this`paused, this`waiting, this`decision, this`commands,
        this`output, this`inputs, this`open
      ensures Shows(old(output), A.Boundary(old(State()), old(inputs), old(open)), failure)
    {
      hide A.Apply, A.Boundary;
      ghost var whole := A.Boundary(State(), inputs, open);
      while true
        invariant open == old(open) && Continues(old(output), whole)
        decreases |inputs|
      {
        if paused || waiting {
          BoundaryUnfolds(State(), inputs, open);
          if !open { return Some(A.NeedsInput); }
          Await();
        } else {
          BoundaryUnfolds(State(), inputs, open);
          if !open { return None; }
          if |inputs| > 0 && inputs[0].NotYet? {
            inputs := inputs[1..];
            return None;
          }
        }
        var more;
        more, failure := Receive();
        if !more { return; }
      }
    }

    method Execute(c: A.Config) returns (failure: Option<A.Failure>)
      requires A.ValidConfig(c) && State() == A.INITIAL && open && output == []
      modifies this
      ensures Shows([], A.Execute(c, old(inputs)), failure)
    {
      hide A.OneStep, A.Steps;
      ghost var whole := A.Execute(c, inputs);
      output := output + [A.Begun];
      var step := 1;
      while step <= c.steps
        invariant 1 <= step <= c.steps + 1
        invariant var rest := A.Steps(c, step, State(), inputs, open);
                  whole == rest.(out := whole.out) && whole.out == output + rest.out
      {
        ghost var before, s, events, was := output, State(), inputs, open;
        StepsUnfold(c, step, s, events, was);
        failure := Step(c, step);
        if failure.Some? { return; }
        step := step + 1;
        Regroup(before, A.OneStep(c, step - 1, s, events, was).out, A.Steps(c, step, State(), inputs, open).out);
      }
      StepsUnfold(c, step, State(), inputs, open);
      output := output + [A.Summary(c.steps)];
      return None;
    }

    /** The body of the step loop. */
    method Step(c: A.Config, step: nat) returns (failure: Option<A.Failure>)
      modifies this
      ensures Shows(old(output), A.OneStep(c, step, old(State()), old(inputs), old(open)), failure)
    {
      hide A.Boundary;
      ghost var o, b := output, A.Boundary(State(), inputs, open);
      failure := Boundary();
      if failure.Some? { return; }
      output := output + [A.OperationStarted(step)];
      completed := step;
      output := output + [A.OperationCompleted(step)];
      output := output + [A.Progress(step)];
      ghost var worked := b.out + [A.OperationStarted(step), A.OperationCompleted(step), A.Progress(step)];
      assert output == o + worked;
      ghost var d := A.Boundary(State(), inputs, open);
      failure := Boundary();
      Regroup(o, worked, d.out);
      if failure.Some? { return; }
      if step == c.decisionAt {
        waiting := true;
        output := output + [A.DecisionAsked];
        ghost var asked := worked + d.out + [A.DecisionAsked];
        assert output == o + asked;
        ghost var e := A.Boundary(State(), inputs, open);
        failure := Boundary();
        Regroup(o, asked, e.out);
      }
    }
  }

  lemma Regroup(a: seq<A.Record>, b: seq<A.Record>, c: seq<A.Record>)
    ensures (a + b) + c == a + (b + c)
  {
  }

  /** One unfolding of the step loop. */
  lemma StepsUnfold(c: A.Config, step: nat, s: A.State, events: seq<A.Event>, open: bool)
    requires step <= c.steps + 1
    ensures step > c.steps ==>
              A.Steps(c, step, s, events, open) == A.Result(s, events, open, [A.Summary(c.steps)], None)
    ensures step <= c.steps ==>
              var r := A.OneStep(c, step, s, events, open);
              A.Steps(c, step, s, events, open)
              == if r.failure.Some? then r else A.Prefixed(r.out, A.Steps(c, step + 1, r.state, r.events, r.open))
  {
    hide A.OneStep;
  }

  /** One unfolding of the boundary. */
  lemma BoundaryUnfolds(s: A.State, events: seq<A.Event>, open: bool)
    ensures var r, stuck := A.Boundary(s, events, open), s.paused || s.waiting;
            if !open then r == A.Result(s, events, false, [], if stuck then Some(A.NeedsInput) else None)
            else if events == [] || events[0].Closed? then
              r == A.Result(s, [], false, [], if stuck then Some(A.InputClosed) else None)
            else if events[0].NotYet? then !stuck ==> r == A.Result(s, events[1..], open, [], None)
            else
              var a := A.Apply(s, events[0].line);
              r == if a.failure.Some? then A.Result(a.state, events[1..], open, a.out, a.failure)
                   else A.Prefixed(a.out, A.Boundary(a.state, events[1..], open))
  {
    hide A.Apply;
  }
}
