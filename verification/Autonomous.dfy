/** The autonomous agent of daemon/cmd/symmetry-fake-agent/autonomous.go as functions of its input:
    `apply`, `boundary` and the step loop, and what every run of them guarantees. */
module Autonomous {
  import opened Options

  datatype Config = Config(steps: nat, decisionAt: nat)

  /** What `autonomousSettings` lets through. */
  predicate ValidConfig(c: Config) { 1 <= c.steps && c.decisionAt <= c.steps }

  /** An input line with what decoding makes of it: whether the identity fields unmarshal, the type and
      command id, whether the id is a UUID, whether `decodeInputRecord` accepts the line, and the
      payload as each kind of command reads it (`message` is there when it unmarshals and is not blank). */
  datatype Line = Line(raw: string, parses: bool, kind: string, commandId: string, uuid: bool, decodes: bool,
                       message: Option<string>, emptyPayload: bool, optionId: Option<string>)

  /** One poll of the input channel: a line, nothing yet, or closed. An exhausted sequence is closed. */
  datatype Event = Arrived(line: Line) | NotYet | Closed

  datatype Receipt = Receipt(raw: string, outcome: bool)

  /** `decision` is "" until an option is chosen; `commands` holds the first receipt of each command. */
  datatype State = State(completed: nat, guidance: seq<string>, paused: bool, waiting: bool, decision: string,
                         commands: map<string, Receipt>)

  const INITIAL := State(0, [], false, false, "", map[])

  /** Output records. Of a receipt `replay` and `message` are not printed: whether the command id was repeated,
      and the message its line carries. */
  datatype Record =
    | Begun
    | OperationStarted(step: nat)
    | OperationCompleted(step: nat)
    | Progress(step: nat)
    | DecisionAsked
    | DecisionReceived(option: string)
    | CommandApplied(id: string, kind: string, applied: bool, replay: bool, message: Option<string>)
    | Summary(step: nat)

  datatype Failure = BadControl | BadCommandId | BadDecision | Deferred | NeedsInput | InputClosed

  // ----- apply

  datatype Applied = Applied(state: State, out: seq<Record>, failure: Option<Failure>)

  /** The state change a newly decoded command asks for, or none when it is rejected. */
  function Command(s: State, line: Line): Option<State> {
    if !line.decodes then None
    else match line.kind
      case "guidance" =>
        if line.message.None? || s.waiting then None
        else Some(s.(guidance := s.guidance + [line.message.value]))
      case "pause" => if s.paused || s.waiting || !line.emptyPayload then None else Some(s.(paused := true))
      case "resume" => if !s.paused || !line.emptyPayload then None else Some(s.(paused := false))
      case "provide_input" =>
        if line.optionId.None? || !s.waiting ||
            (line.optionId.value != "staged" && line.optionId.value != "defer") then None
        else Some(s.(waiting := false, decision := line.optionId.value))
      case _ => None
  }

  function Apply(s: State, line: Line): Applied {
    if !line.parses then Applied(s, [], Some(BadControl))
    else if line.kind == "provide_input" then
      var t := Command(s, line);
      if t.None? then Applied(s, [], Some(BadDecision))
      else Applied(t.value, [DecisionReceived(t.value.decision)],
                   if t.value.decision == "defer" then Some(Deferred) else None)
    else if !line.uuid then Applied(s, [], Some(BadCommandId))
    else if line.commandId in s.commands then
      var receipt := s.commands[line.commandId];
      var outcome := receipt.outcome && receipt.raw == line.raw;
      Applied(s, [CommandApplied(line.commandId, line.kind, outcome, true, line.message)], None)
    else
      var t := Command(s, line);
      var u := if t.Some? then t.value else s;
      Applied(u.(commands := u.commands[line.commandId := Receipt(line.raw, t.Some?)]),
              [CommandApplied(line.commandId, line.kind, t.Some?, false, line.message)], None)
  }

  // ----- boundary

  datatype Result = Result(state: State, events: seq<Event>, open: bool, out: seq<Record>, failure: Option<Failure>)

  function Prefixed(out: seq<Record>, r: Result): Result { r.(out := out + r.out) }

  /** Take controls until none is waiting; while paused or waiting, block for the next. */
  function Boundary(s: State, events: seq<Event>, open: bool): (r: Result)
    ensures |r.events| <= |events|
    ensures r.failure.None? ==> !r.state.paused && !r.state.waiting
    decreases |events|
  {
    if !open then
      Result(s, events, false, [], if s.paused || s.waiting then Some(NeedsInput) else None)
    else if events == [] || events[0].Closed? then
      Result(s, [], false, [], if s.paused || s.waiting then Some(InputClosed) else None)
    else if events[0].NotYet? then
      if s.paused || s.waiting then Boundary(s, events[1..], open) else Result(s, events[1..], open, [], None)
    else
      var a := Apply(s, events[0].line);
      if a.failure.Some? then Result(a.state, events[1..], open, a.out, a.failure)
      else Prefixed(a.out, Boundary(a.state, events[1..], open))
  }

  /** Applying the lines of a stretch of input one after the other, up to where the input closes. */
  function Fold(s: State, events: seq<Event>): (State, seq<Record>)
    decreases |events|
  {
    if events == [] || events[0].Closed? then (s, [])
    else if events[0].NotYet? then Fold(s, events[1..])
    else
      var a := Apply(s, events[0].line);
      var rest := Fold(a.state, events[1..]);
      (rest.0, a.out + rest.1)
  }

  /** A boundary applies every line it takes, in order, and goes on until one fails, the input closes, or nothing
      is waiting while the agent is free to work. */
  lemma {:induction false} BoundaryFolds(s: State, events: seq<Event>)
    ensures var r := Boundary(s, events, true);
            var n := |events| - |r.events|;
            && r.events == events[n..] && Fold(s, events[..n]) == (r.state, r.out)
            && (r.failure.None? && r.open ==> n > 0 && events[n - 1].NotYet?)
            && (!r.open ==> r.events == [])
    decreases |events|
  {
    hide Apply;
    var r := Boundary(s, events, true);
    var n := |events| - |r.events|;
    if events != [] && !events[0].Closed? {
      if events[0].Arrived? {
        var a := Apply(s, events[0].line);
        if a.failure.None? {
          BoundaryFolds(a.state, events[1..]);
        } else {
          assert events[..1][1..] == [] && a.out + [] == a.out;
        }
      } else if s.paused || s.waiting {
        BoundaryFolds(s, events[1..]);
      }
      assert n > 0 ==> events[..n][1..] == events[1..][..n - 1];
    }
  }

  // ----- the step loop

  /** One operation, with the boundaries around it and the decision after it. */
  function OneStep(c: Config, step: nat, s: State, events: seq<Event>, open: bool): (r: Result)
    ensures |r.events| <= |events|
  {
    var b := Boundary(s, events, open);
    if b.failure.Some? then b else
      var worked := [OperationStarted(step), OperationCompleted(step), Progress(step)];
      var d := Prefixed(b.out + worked, Boundary(b.state.(completed := step), b.events, b.open));
      if d.failure.Some? || step != c.decisionAt then d
      else Prefixed(d.out + [DecisionAsked], Boundary(d.state.(waiting := true), d.events, d.open))
  }

  function Steps(c: Config, step: nat, s: State, events: seq<Event>, open: bool): (r: Result)
    requires step <= c.steps + 1
    decreases c.steps + 1 - step
  {
    if step > c.steps then Result(s, events, open, [Summary(c.steps)], None) else
      var r := OneStep(c, step, s, events, open);
      if r.failure.Some? then r else Prefixed(r.out, Steps(c, step + 1, r.state, r.events, r.open))
  }

  function Execute(c: Config, events: seq<Event>): Result
    requires ValidConfig(c)
  {
    Prefixed([Begun], Steps(c, 1, INITIAL, events, true))
  }

  // ----- what each kind of line does, on the fields

  /** The first line of a command id: when it is applied, what that changes, and the receipt. */
  lemma FirstReceipt(s: State, line: Line)
    requires line.parses && line.kind != "provide_input" && line.uuid && line.commandId !in s.commands
    ensures var a := Apply(s, line);
            var guided := line.decodes && line.kind == "guidance" && line.message.Some? && !s.waiting;
            var paused := line.decodes && line.kind == "pause" && line.emptyPayload && !s.paused && !s.waiting;
            var resumed := line.decodes && line.kind == "resume" && line.emptyPayload && s.paused;
            var applied := guided || paused || resumed;
            && a.failure == None
            && a.out == [CommandApplied(line.commandId, line.kind, applied, false, line.message)]
            && a.state.commands == s.commands[line.commandId := Receipt(line.raw, applied)]
            && a.state.guidance == (if guided then s.guidance + [line.message.value] else s.guidance)
            && a.state.paused == (if paused then true else if resumed then false else s.paused)
            && a.state.waiting == s.waiting && a.state.decision == s.decision && a.state.completed == s.completed
  {
  }

  /** A repeated command id changes nothing, and is answered as the first line was, or rejected if it differs. */
  lemma RepeatedReceipt(s: State, line: Line)
    requires line.parses && line.kind != "provide_input" && line.uuid && line.commandId in s.commands
    ensures var a, first := Apply(s, line), s.commands[line.commandId];
            && a.state == s && a.failure == None
            && a.out == [CommandApplied(line.commandId, line.kind, first.outcome && first.raw == line.raw, true,
                                        line.message)]
  {
  }

  /** An answer is taken exactly while waiting and only if it is one of the two options; the second ends the run. */
  lemma Answered(s: State, line: Line)
    requires line.parses && line.kind == "provide_input"
    ensures var a := Apply(s, line);
            var option := line.optionId == Some("staged") || line.optionId == Some("defer");
            var taken := line.decodes && s.waiting && option;
            && (!taken ==> a == Applied(s, [], Some(BadDecision)))
            && (taken ==>
                  && a.state == s.(waiting := false, decision := line.optionId.value)
                  && a.out == [DecisionReceived(line.optionId.value)]
                  && a.failure == (if line.optionId == Some("defer") then Some(Deferred) else None))
  {
  }

  lemma Refused(s: State, line: Line)
    ensures !line.parses ==> Apply(s, line) == Applied(s, [], Some(BadControl))
    ensures line.parses && line.kind != "provide_input" && !line.uuid ==>
              Apply(s, line) == Applied(s, [], Some(BadCommandId))
  {
  }

  // ----- replays

  predicate Replay(seen: set<string>, line: Line) {
    line.parses && line.kind != "provide_input" && line.uuid && line.commandId in seen
  }

  /** The ids on record after a line. */
  function Seen(seen: set<string>, line: Line): set<string> {
    if line.parses && line.kind != "provide_input" && line.uuid then seen + {line.commandId} else seen
  }

  /** The input without every line that repeats an earlier command id. */
  function Deduplicated(events: seq<Event>, seen: set<string>): seq<Event> {
    if events == [] then []
    else if !events[0].Arrived? then [events[0]] + Deduplicated(events[1..], seen)
    else if Replay(seen, events[0].line) then Deduplicated(events[1..], seen)
    else [events[0]] + Deduplicated(events[1..], Seen(seen, events[0].line))
  }

  /** The output without the receipts of replays. */
  function WithoutReplays(out: seq<Record>): seq<Record> {
    if out == [] then []
    else if out[0].CommandApplied? && out[0].replay then WithoutReplays(out[1..])
    else [out[0]] + WithoutReplays(out[1..])
  }

  lemma {:induction false} WithoutReplaysConcat(a: seq<Record>, b: seq<Record>)
    ensures WithoutReplays(a + b) == WithoutReplays(a) + WithoutReplays(b)
  {
    if a == [] {
      assert a + b == b;
    } else {
      assert (a + b)[1..] == a[1..] + b;
      WithoutReplaysConcat(a[1..], b);
    }
  }

  /** Two results that differ only in replays still to come and receipts of replays. */
  predicate Alike(r: Result, q: Result) {
    && r.state == q.state && r.open == q.open && r.failure == q.failure
    && WithoutReplays(r.out) == WithoutReplays(q.out)
    && (r.failure.None? ==> q.events == Deduplicated(r.events, r.state.commands.Keys))
  }

  lemma AlikePrefixed(a: seq<Record>, r: Result, b: seq<Record>, q: Result)
    requires Alike(r, q) && WithoutReplays(a) == WithoutReplays(b)
    ensures Alike(Prefixed(a, r), Prefixed(b, q))
  {
    WithoutReplaysConcat(a, r.out);
    WithoutReplaysConcat(b, q.out);
  }

  lemma {:induction false} BoundaryAlike(s: State, events: seq<Event>, open: bool)
    ensures Alike(Boundary(s, events, open), Boundary(s, Deduplicated(events, s.commands.Keys), open))
    decreases |events|
  {
    var seen := s.commands.Keys;
    if open && events != [] && !events[0].Closed? {
      if events[0].NotYet? {
        assert Deduplicated(events, seen)[1..] == Deduplicated(events[1..], seen);
        if s.paused || s.waiting { BoundaryAlike(s, events[1..], open); }
      } else {
        ArrivedAlike(s, events, open);
      }
    }
  }

  lemma {:induction false} ArrivedAlike(s: State, events: seq<Event>, open: bool)
    requires open && events != [] && events[0].Arrived?
    ensures Alike(Boundary(s, events, open), Boundary(s, Deduplicated(events, s.commands.Keys), open))
    decreases |events|, 0
  {
    hide Command;
    var seen, line, rest := s.commands.Keys, events[0].line, events[1..];
    var a := Apply(s, line);
    if Replay(seen, line) {
      BoundaryAlike(s, rest, open);
      AlikePrefixed(a.out, Boundary(s, rest, open), [], Boundary(s, Deduplicated(rest, seen), open));
      assert Prefixed([], Boundary(s, Deduplicated(rest, seen), open)) == Boundary(s, Deduplicated(rest, seen), open);
    } else {
      assert Deduplicated(events, seen)[1..] == Deduplicated(rest, Seen(seen, line));
      if a.failure.None? {
        CommandKeepsCommands(s, line);
        assert a.state.commands.Keys == Seen(seen, line);
        BoundaryAlike(a.state, rest, open);
        AlikePrefixed(a.out, Boundary(a.state, rest, open), a.out,
            Boundary(a.state, Deduplicated(rest, Seen(seen, line)), open));
      }
    }
  }

  lemma CommandKeepsCommands(s: State, line: Line)
    ensures Command(s, line).Some? ==> Command(s, line).value.commands == s.commands
  {
  }

  lemma OneStepAlike(c: Config, step: nat, s: State, events: seq<Event>, open: bool)
    ensures Alike(OneStep(c, step, s, events, open), OneStep(c, step, s, Deduplicated(events, s.commands.Keys), open))
  {
    hide Boundary, Deduplicated, WithoutReplays;
    var other := Deduplicated(events, s.commands.Keys);
    var b, b' := Boundary(s, events, open), Boundary(s, other, open);
    BoundaryAlike(s, events, open);
    if b.failure.None? {
      var worked := [OperationStarted(step), OperationCompleted(step), Progress(step)];
      var t := b.state.(completed := step);
      BoundaryAlike(t, b.events, b.open);
      WithoutReplaysConcat(b.out, worked);
      WithoutReplaysConcat(b'.out, worked);
      AlikePrefixed(b.out + worked, Boundary(t, b.events, b.open), b'.out + worked, Boundary(t, b'.events, b.open));
      var d, d' := Prefixed(b.out + worked, Boundary(t, b.events, b.open)),
          Prefixed(b'.out + worked, Boundary(t, b'.events, b.open));
      if d.failure.None? && step == c.decisionAt {
        var u := d.state.(waiting := true);
        BoundaryAlike(u, d.events, d.open);
        WithoutReplaysConcat(d.out, [DecisionAsked]);
        WithoutReplaysConcat(d'.out, [DecisionAsked]);
        AlikePrefixed(d.out + [DecisionAsked], Boundary(u, d.events, d.open), d'.out + [DecisionAsked],
            Boundary(u, d'.events, d.open));
      }
    }
  }

  lemma {:induction false} StepsAlike(c: Config, step: nat, s: State, events: seq<Event>, open: bool)
    requires step <= c.steps + 1
    ensures Alike(Steps(c, step, s, events, open), Steps(c, step, s, Deduplicated(events, s.commands.Keys), open))
    decreases c.steps + 1 - step
  {
    hide OneStep, Deduplicated, WithoutReplays;
    if step <= c.steps {
      var other := Deduplicated(events, s.commands.Keys);
      OneStepAlike(c, step, s, events, open);
      var r, q := OneStep(c, step, s, events, open), OneStep(c, step, s, other, open);
      if r.failure.None? {
        StepsAlike(c, step + 1, r.state, r.events, r.open);
        AlikePrefixed(r.out, Steps(c, step + 1, r.state, r.events, r.open), q.out,
            Steps(c, step + 1, q.state, q.events, q.open));
      }
    }
  }

  /** Deleting every line that repeats an earlier command id changes neither how the run ends, nor the
      state it ends in, nor any output other than the receipts of those lines. */
  lemma ReplaysInvisible(c: Config, events: seq<Event>)
    requires ValidConfig(c)
    ensures var r, q := Execute(c, events), Execute(c, Deduplicated(events, {}));
            r.state == q.state && r.failure == q.failure && WithoutReplays(r.out) == WithoutReplays(q.out)
  {
    hide Steps, Deduplicated, WithoutReplays;
    assert INITIAL.commands.Keys == {};
    StepsAlike(c, 1, INITIAL, events, true);
    AlikePrefixed([Begun], Steps(c, 1, INITIAL, events, true), [Begun],
        Steps(c, 1, INITIAL, Deduplicated(events, {}), true));
  }

  // ----- what an observer of the output may rely on

  /** What the output so far says; `lawful` turns false at the first record that breaks a rule. */
  datatype Watch = Watch(paused: bool, waiting: bool, running: bool, completed: nat, decision: string,
                         guidance: seq<string>, lawful: bool)

  const FRESH := Watch(false, false, false, 0, "", [], true)

  /** The rules: an operation starts only while neither paused nor waiting and in order, a first applied
      pause needs neither, a first applied resume needs a pause, and a question is asked only when
      neither; so paused and waiting never hold together. */
  function Observe(w: Watch, r: Record): Watch {
    match r
    case OperationStarted(n) =>
      w.(running := true, lawful := w.lawful && !w.paused && !w.waiting && !w.running && n == w.completed + 1)
    case OperationCompleted(n) =>
      w.(running := false, completed := n, lawful := w.lawful && w.running && n == w.completed + 1)
    case DecisionAsked => w.(waiting := true, lawful := w.lawful && !w.paused && !w.waiting && !w.running)
    case DecisionReceived(option) => w.(waiting := false, decision := option, lawful := w.lawful && w.waiting)
    case CommandApplied(_, kind, applied, replay, message) =>
      if !applied || replay then w
      else if kind == "pause" then w.(paused := true, lawful := w.lawful && !w.paused && !w.waiting && !w.running)
      else if kind == "resume" then w.(paused := false, lawful := w.lawful && w.paused && !w.running)
      else if kind == "guidance" && message.Some? then w.(guidance := w.guidance + [message.value])
      else w
    case _ => w
  }

  function ObserveAll(w: Watch, out: seq<Record>): Watch
    decreases |out|
  {
    if out == [] then w else ObserveAll(Observe(w, out[0]), out[1..])
  }

  lemma {:induction false} ObserveConcat(w: Watch, a: seq<Record>, b: seq<Record>)
    ensures ObserveAll(w, a + b) == ObserveAll(ObserveAll(w, a), b)
    decreases a
  {
    if a == [] {
      assert a + b == b;
    } else {
      assert (a + b)[1..] == a[1..] + b;
      ObserveConcat(Observe(w, a[0]), a[1..], b);
    }
  }

  /** The observer and the agent agree, between operations. */
  predicate Agree(w: Watch, s: State) {
    && w == Watch(s.paused, s.waiting, false, s.completed, s.decision, s.guidance, true)
    && !(s.paused && s.waiting)
  }

  lemma ApplyAgrees(w: Watch, s: State, line: Line)
    requires Agree(w, s)
    ensures Agree(ObserveAll(w, Apply(s, line).out), Apply(s, line).state)
  {
    var a := Apply(s, line);
    if a.out != [] {
      assert a.out[1..] == [];
      assert ObserveAll(w, a.out) == Observe(w, a.out[0]);
    }
  }

  lemma {:induction false} BoundaryAgrees(w: Watch, s: State, events: seq<Event>, open: bool)
    requires Agree(w, s)
    ensures var r := Boundary(s, events, open);
            && Agree(ObserveAll(w, r.out), r.state) && r.state.completed == s.completed
            && (r.failure.None? ==> r.state.decision == s.decision || (s.waiting && r.state.decision == "staged"))
            && (r.failure.None? && s.waiting ==> r.state.decision == "staged")
    decreases |events|
  {
    if open && events != [] && !events[0].Closed? {
      if events[0].NotYet? {
        if s.paused || s.waiting { BoundaryAgrees(w, s, events[1..], open); }
      } else {
        var a := Apply(s, events[0].line);
        ApplyAgrees(w, s, events[0].line);
        ApplyDecides(s, events[0].line);
        if a.failure.None? {
          var v := ObserveAll(w, a.out);
          BoundaryAgrees(v, a.state, events[1..], open);
          ObserveConcat(w, a.out, Boundary(a.state, events[1..], open).out);
        }
      }
    }
  }

  /** A command that does not end the run changes the decision only by answering "staged". */
  lemma ApplyDecides(s: State, line: Line)
    ensures var a := Apply(s, line);
            && a.state.completed == s.completed
            && (a.failure.None? ==>
                  || (a.state.waiting == s.waiting && a.state.decision == s.decision)
                  || (s.waiting && !a.state.waiting && a.state.decision == "staged"))
  {
  }

  /** One operation as the observer sees it. */
  lemma WorkObserved(w: Watch, s: State, step: nat)
    requires Agree(w, s) && !s.paused && !s.waiting && step == s.completed + 1
    ensures Agree(ObserveAll(w, [OperationStarted(step), OperationCompleted(step), Progress(step)]),
        s.(completed := step))
  {
    var worked := [OperationStarted(step), OperationCompleted(step), Progress(step)];
    assert worked[1..] == [OperationCompleted(step), Progress(step)];
    assert worked[1..][1..] == [Progress(step)];
    assert worked[1..][1..][1..] == [];
    var w1 := Observe(w, worked[0]);
    var w2 := Observe(w1, worked[1]);
    assert ObserveAll(w2, [Progress(step)]) == Observe(w2, Progress(step)) by { assert [Progress(step)][1..] == []; }
    assert ObserveAll(w1, worked[1..]) == ObserveAll(w2, [Progress(step)]);
  }

  lemma AskObserved(w: Watch, s: State)
    requires Agree(w, s) && !s.paused && !s.waiting
    ensures Agree(ObserveAll(w, [DecisionAsked]), s.(waiting := true))
  {
    assert [DecisionAsked][1..] == [];
    assert ObserveAll(w, [DecisionAsked]) == Observe(w, DecisionAsked);
  }

  /** The decision after step `n` is the configured one. */
  predicate Decided(c: Config, s: State, n: nat) { 0 < c.decisionAt <= n ==> s.decision == "staged" }

  lemma OneStepAgrees(c: Config, step: nat, w: Watch, s: State, events: seq<Event>, open: bool)
    requires Agree(w, s) && step == s.completed + 1 && Decided(c, s, s.completed)
    ensures var r := OneStep(c, step, s, events, open);
            && Agree(ObserveAll(w, r.out), r.state)
            && (r.failure.None? ==> r.state.completed == step && Decided(c, r.state, step))
  {
    hide Boundary, ObserveAll;
    BoundaryAgrees(w, s, events, open);
    var b := Boundary(s, events, open);
    if b.failure.None? {
      var worked := [OperationStarted(step), OperationCompleted(step), Progress(step)];
      var w1, t := ObserveAll(w, b.out), b.state.(completed := step);
      WorkObserved(w1, b.state, step);
      var w2 := ObserveAll(w1, worked);
      ObserveConcat(w, b.out, worked);
      BoundaryAgrees(w2, t, b.events, b.open);
      var e := Boundary(t, b.events, b.open);
      ObserveConcat(w, b.out + worked, e.out);
      var w3 := ObserveAll(w2, e.out);
      if e.failure.None? && step == c.decisionAt {
        AskObserved(w3, e.state);
        var u, w4 := e.state.(waiting := true), ObserveAll(w3, [DecisionAsked]);
        BoundaryAgrees(w4, u, e.events, e.open);
        var f := Boundary(u, e.events, e.open);
        ObserveConcat(w, b.out + worked + e.out, [DecisionAsked]);
        ObserveConcat(w, b.out + worked + e.out + [DecisionAsked], f.out);
      }
    }
  }

  lemma {:induction false} StepsAgree(c: Config, step: nat, w: Watch, s: State, events: seq<Event>, open: bool)
    requires step <= c.steps + 1 && Agree(w, s) && step == s.completed + 1 && Decided(c, s, s.completed)
    ensures var r := Steps(c, step, s, events, open);
            && Agree(ObserveAll(w, r.out), r.state)
            && (r.failure.None? ==> r.state.completed == c.steps && Decided(c, r.state, c.steps))
    decreases c.steps + 1 - step
  {
    hide OneStep, ObserveAll;
    if step <= c.steps {
      OneStepAgrees(c, step, w, s, events, open);
      var r := OneStep(c, step, s, events, open);
      if r.failure.None? {
        StepsAgree(c, step + 1, ObserveAll(w, r.out), r.state, r.events, r.open);
        ObserveConcat(w, r.out, Steps(c, step + 1, r.state, r.events, r.open).out);
      }
    } else {
      SilentObserved(w, Summary(c.steps));
    }
  }

  lemma SilentObserved(w: Watch, r: Record)
    requires r.Begun? || r.Summary?
    ensures ObserveAll(w, [r]) == w
  {
    assert [r][1..] == [];
    assert ObserveAll(w, [r]) == ObserveAll(Observe(w, r), []);
  }

  /** Every run, however its input arrives: the output is lawful to its last record, and a run that ends
      without an error completed every step and, if a decision was configured, was answered "staged". */
  lemma RunLawful(c: Config, events: seq<Event>)
    requires ValidConfig(c)
    ensures var r := Execute(c, events);
            && ObserveAll(FRESH, r.out).lawful && !(r.state.paused && r.state.waiting)
            && (r.failure.None? ==> r.state.completed == c.steps && !r.state.paused && !r.state.waiting)
            && (r.failure.None? && c.decisionAt > 0 ==> r.state.decision == "staged")
  {
    hide Steps, ObserveAll;
    StepsAgree(c, 1, FRESH, INITIAL, events, true);
    SilentObserved(FRESH, Begun);
    var r := Steps(c, 1, INITIAL, events, true);
    ObserveConcat(FRESH, [Begun], r.out);
    StepsEndIdle(c, 1, INITIAL, events, true);
  }

  /** The messages of the guidance commands applied, in order. */
  function Messages(out: seq<Record>): seq<string>
    decreases |out|
  {
    if out == [] then [] else
    var r := out[0];
    var first := r.CommandApplied? && r.kind == "guidance" && r.applied && !r.replay;
    (if first && r.message.Some? then [r.message.value] else []) + Messages(out[1..])
  }

  lemma {:induction false} MessagesObserved(w: Watch, out: seq<Record>)
    ensures ObserveAll(w, out).guidance == w.guidance + Messages(out)
    decreases |out|
  {
    if out != [] {
      MessagesObserved(Observe(w, out[0]), out[1..]);
    }
  }

  /** In every run the guidance held is the list of messages applied, each once and in the order of their
      receipts. */
  lemma GuidanceIsMessages(c: Config, events: seq<Event>)
    requires ValidConfig(c)
    ensures var r := Execute(c, events); r.state.guidance == Messages(r.out)
  {
    hide Steps, ObserveAll, Messages;
    StepsAgree(c, 1, FRESH, INITIAL, events, true);
    SilentObserved(FRESH, Begun);
    var r := Steps(c, 1, INITIAL, events, true);
    ObserveConcat(FRESH, [Begun], r.out);
    MessagesObserved(FRESH, [Begun] + r.out);
  }

  /** The operation completed last, before each question in the output. */
  function Asked(out: seq<Record>, last: nat): seq<nat>
    decreases |out|
  {
    if out == [] then []
    else (if out[0].DecisionAsked? then [last] else []) + Asked(out[1..], Completed(out[..1], last))
  }

  function Completed(out: seq<Record>, last: nat): nat
    decreases |out|
  {
    if out == [] then last else Completed(out[1..], if out[0].OperationCompleted? then out[0].step else last)
  }

  lemma {:induction false} AskedConcat(a: seq<Record>, b: seq<Record>, last: nat)
    ensures Asked(a + b, last) == Asked(a, last) + Asked(b, Completed(a, last))
    ensures Completed(a + b, last) == Completed(b, Completed(a, last))
    decreases |a|
  {
    if a == [] {
      assert a + b == b;
    } else {
      assert (a + b)[1..] == a[1..] + b && (a + b)[..1] == a[..1] && a[..1][1..] == [];
      AskedConcat(a[1..], b, Completed(a[..1], last));
      assert Completed(a[..1], last) == if a[0].OperationCompleted? then a[0].step else last;
    }
  }

  lemma {:induction false} BoundaryAsksNothing(s: State, events: seq<Event>, open: bool, last: nat)
    ensures var r := Boundary(s, events, open); Asked(r.out, last) == [] && Completed(r.out, last) == last
    decreases |events|
  {
    hide Asked, Completed;
    AskedNone(last);
    if open && events != [] && !events[0].Closed? {
      if events[0].NotYet? {
        if s.paused || s.waiting { BoundaryAsksNothing(s, events[1..], open, last); }
      } else {
        var a := Apply(s, events[0].line);
        ApplyAsksNothing(s, events[0].line, last);
        if a.failure.None? {
          BoundaryAsksNothing(a.state, events[1..], open, last);
          AskedConcat(a.out, Boundary(a.state, events[1..], open).out, last);
        }
      }
    }
  }

  lemma AskedNone(last: nat)
    ensures Asked([], last) == [] && Completed([], last) == last
  {
  }

  lemma ApplyAsksNothing(s: State, line: Line, last: nat)
    ensures Asked(Apply(s, line).out, last) == [] && Completed(Apply(s, line).out, last) == last
  {
    var out := Apply(s, line).out;
    if out != [] {
      assert out[1..] == [] && out[..1] == out;
      assert !out[0].DecisionAsked? && !out[0].OperationCompleted?;
      assert Completed(out, last) == Completed(out[1..], last);
    }
  }

  lemma WorkAsksNothing(step: nat, last: nat)
    ensures var out := [OperationStarted(step), OperationCompleted(step), Progress(step)];
            Asked(out, last) == [] && Completed(out, last) == step
    ensures Asked([DecisionAsked], last) == [last] && Completed([DecisionAsked], last) == last
  {
    var out := [OperationStarted(step), OperationCompleted(step), Progress(step)];
    assert out == [OperationStarted(step)] + ([OperationCompleted(step)] + [Progress(step)]);
    OneAsked(OperationStarted(step), last);
    OneAsked(OperationCompleted(step), last);
    OneAsked(Progress(step), step);
    OneAsked(DecisionAsked, last);
    AskedConcat([OperationCompleted(step)], [Progress(step)], last);
    AskedConcat([OperationStarted(step)], [OperationCompleted(step)] + [Progress(step)], last);
  }

  lemma OneAsked(r: Record, last: nat)
    ensures Asked([r], last) == if r.DecisionAsked? then [last] else []
    ensures Completed([r], last) == if r.OperationCompleted? then r.step else last
  {
    assert [r][1..] == [] && [r][..1] == [r];
  }

  /** One step asks only if it is the configured one, and only after its operation. */
  lemma OneStepAsks(c: Config, step: nat, s: State, events: seq<Event>, open: bool, last: nat)
    ensures var r := OneStep(c, step, s, events, open);
            && (Asked(r.out, last) == [] || (step == c.decisionAt && Asked(r.out, last) == [step]))
            && (r.failure.None? ==> Asked(r.out, last) == if step == c.decisionAt then [step] else [])
            && (r.failure.None? ==> Completed(r.out, last) == step)
  {
    hide Boundary, Asked, Completed;
    var b := Boundary(s, events, open);
    BoundaryAsksNothing(s, events, open, last);
    if b.failure.None? {
      var worked := [OperationStarted(step), OperationCompleted(step), Progress(step)];
      var d := Boundary(b.state.(completed := step), b.events, b.open);
      WorkAsksNothing(step, last);
      AskedConcat(b.out, worked, last);
      BoundaryAsksNothing(b.state.(completed := step), b.events, b.open, step);
      AskedConcat(b.out + worked, d.out, last);
      var out := b.out + worked + d.out;
      if d.failure.None? && step == c.decisionAt {
        var e := Boundary(d.state.(waiting := true), d.events, d.open);
        WorkAsksNothing(step, step);
        AskedConcat(out, [DecisionAsked], last);
        BoundaryAsksNothing(d.state.(waiting := true), d.events, d.open, step);
        AskedConcat(out + [DecisionAsked], e.out, last);
      }
    }
  }

  lemma {:induction false} StepsAsk(c: Config, step: nat, s: State, events: seq<Event>, open: bool)
    requires 1 <= step <= c.steps + 1
    ensures var r := Steps(c, step, s, events, open);
            && (Asked(r.out, step - 1) == [] || (step <= c.decisionAt && Asked(r.out, step - 1) == [c.decisionAt]))
            && (r.failure.None? && step <= c.decisionAt <= c.steps ==> Asked(r.out, step - 1) == [c.decisionAt])
    decreases c.steps + 1 - step
  {
    hide OneStep, Asked, Completed;
    if step > c.steps {
      OneAsked(Summary(c.steps), step - 1);
    } else {
      var r := OneStep(c, step, s, events, open);
      OneStepAsks(c, step, s, events, open, step - 1);
      if r.failure.None? {
        StepsAsk(c, step + 1, r.state, r.events, r.open);
        AskedConcat(r.out, Steps(c, step + 1, r.state, r.events, r.open).out, step - 1);
      }
    }
  }

  /** In every run the question is asked at most once, right after the configured operation, and a run that ends
      without an error has asked it if one was configured. */
  lemma AskedOnce(c: Config, events: seq<Event>)
    requires ValidConfig(c)
    ensures var r := Execute(c, events);
            && (Asked(r.out, 0) == [] || (c.decisionAt > 0 && Asked(r.out, 0) == [c.decisionAt]))
            && (r.failure.None? && c.decisionAt > 0 ==> Asked(r.out, 0) == [c.decisionAt])
  {
    hide Steps, Asked, Completed;
    StepsAsk(c, 1, INITIAL, events, true);
    OneAsked(Begun, 0);
    AskedConcat([Begun], Steps(c, 1, INITIAL, events, true).out, 0);
  }

  lemma {:induction false} StepsEndIdle(c: Config, step: nat, s: State, events: seq<Event>, open: bool)
    requires step <= c.steps + 1 && (step > c.steps ==> !s.paused && !s.waiting)
    ensures var r := Steps(c, step, s, events, open); r.failure.None? ==> !r.state.paused && !r.state.waiting
    decreases c.steps + 1 - step
  {
    hide Boundary;
    if step <= c.steps {
      var r := OneStep(c, step, s, events, open);
      if r.failure.None? { StepsEndIdle(c, step + 1, r.state, r.events, r.open); }
    }
  }

  /** What lawful output means at each record. */
  lemma {:induction false} LawfulMeans(out: seq<Record>, k: nat)
    requires ObserveAll(FRESH, out).lawful && k < |out|
    ensures var w := ObserveAll(FRESH, out[..k]);
            && w.lawful && !(w.paused && w.waiting)
            && (out[k].OperationStarted? ==> !w.paused && !w.waiting && out[k].step == w.completed + 1)
            && (out[k].CommandApplied? && out[k].applied && !out[k].replay && out[k].kind == "pause" ==> !w.paused)
            && (out[k].CommandApplied? && out[k].applied && !out[k].replay && out[k].kind == "resume" ==> w.paused)
  {
    hide ObserveAll;
    var w := ObserveAll(FRESH, out[..k]);
    assert out == out[..k] + ([out[k]] + out[k + 1..]);
    ObserveConcat(FRESH, out[..k], [out[k]] + out[k + 1..]);
    ObserveConcat(w, [out[k]], out[k + 1..]);
    LawfulBefore(Observe(w, out[k]), out[k + 1..]);
    ObserveOne(w, out[k]);
    Exclusive(out[..k]);
  }

  lemma ObserveOne(w: Watch, r: Record)
    ensures ObserveAll(w, [r]) == Observe(w, r)
    ensures Observe(w, r).lawful ==> w.lawful
  {
    assert [r][1..] == [];
    assert ObserveAll(w, [r]) == ObserveAll(Observe(w, r), []);
  }

  lemma {:induction false} LawfulBefore(w: Watch, out: seq<Record>)
    ensures ObserveAll(w, out).lawful ==> w.lawful
    decreases |out|
  {
    if out != [] {
      LawfulBefore(Observe(w, out[0]), out[1..]);
      ObserveOne(w, out[0]);
    }
  }

  lemma {:induction false} Exclusive(out: seq<Record>)
    ensures var w := ObserveAll(FRESH, out); w.lawful ==> !(w.paused && w.waiting)
  {
    if out != [] {
      var front, last := out[..|out| - 1], out[|out| - 1];
      assert out == front + [last];
      Exclusive(front);
      ObserveConcat(FRESH, front, [last]);
      ObserveOne(ObserveAll(FRESH, front), last);
    }
  }
}
