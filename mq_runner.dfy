/** The legacy queue consumer of bin/mq_runner.py. A message names shell
    commands to run, plus optional Python hooks: `pre` before the commands,
    `success` after them, `post` (a command) last, and `error` when anything
    raised. Hooks go through an allow-list check of the names they use.

    Python's `compile`/`eval` are not modelled: an expression is given as the
    names its byte code refers to, whether it compiles, and whether its
    evaluation raises. A command's exit status comes from an oracle, and
    so does whether launching the `post` command raises. */
module MqRunner {
  import opened Wrappers

  /** A hook expression as the runner sees it. */
  datatype Expr = Expr(compiles: bool, names: seq<string>, failure: Option<string>)

  /** What running a piece of Python did: it completed, or it raised. */
  datatype Outcome = Completed | Raised(message: string)

  /** The names every hook may use. */
  const HookNames: seq<string> := ["requests", "update_export"]

  function NameErrorMessage(name: string): string {
    "The use of '" + name + "' is not allowed"
  }

  /** The first name not on the allow-list, if any. */
  function FirstDisallowed(names: seq<string>, allowed: seq<string>): (r: Option<string>)
    ensures r.None? <==> forall i :: 0 <= i < |names| ==> names[i] in allowed
    ensures r.Some? ==> exists i :: 0 <= i < |names| && names[i] == r.value && r.value !in allowed &&
                                    forall j :: 0 <= j < i ==> names[j] in allowed
  {
    if names == [] then None
    else if names[0] !in allowed then Some(names[0])
    else
      var rest := FirstDisallowed(names[1..], allowed);
      if rest.Some? then
        ghost var i :| 0 <= i < |names[1..]| && names[1..][i] == rest.value && rest.value !in allowed &&
                       forall j :: 0 <= j < i ==> names[1..][j] in allowed;
        assert names[i + 1] == rest.value;
        rest
      else
        rest
  }

  /** What `evaluate` does with an expression: compile, reject the first
      name outside the allow-list, then evaluate. */
  function Evaluation(e: Expr, allowed: seq<string>): Outcome {
    if !e.compiles then Raised("invalid syntax")
    else match FirstDisallowed(e.names, allowed)
      case Some(name) => Raised(NameErrorMessage(name))
      case None => if e.failure.Some? then Raised(e.failure.value) else Completed
  }

  /** An expression completes exactly when it compiles, uses only allowed
      names and does not raise while evaluated; a compiled expression that
      uses a name outside the list raises NameError for such a name. */
  lemma EvaluationSpec(e: Expr, allowed: seq<string>)
    ensures Evaluation(e, allowed) == Completed <==>
              e.compiles && e.failure.None? && forall i :: 0 <= i < |e.names| ==> e.names[i] in allowed
    ensures e.compiles && (exists i :: 0 <= i < |e.names| && e.names[i] !in allowed) ==>
              exists name :: name in e.names && name !in allowed &&
                             Evaluation(e, allowed) == Raised(NameErrorMessage(name))
  {
    if e.compiles && FirstDisallowed(e.names, allowed).Some? {
      var name := FirstDisallowed(e.names, allowed).value;
      assert Evaluation(e, allowed) == Raised(NameErrorMessage(name));
    }
  }

  /** `evaluate`: the loop over `code.co_names` with an early raise. */
  method Evaluate(e: Expr, allowed: seq<string>) returns (r: Outcome)
    ensures r == Evaluation(e, allowed)
  {
    if !e.compiles {
      return Raised("invalid syntax");
    }
    var i := 0;
    while i < |e.names|
      invariant 0 <= i <= |e.names|
      invariant forall j :: 0 <= j < i ==> e.names[j] in allowed
    {
      if e.names[i] !in allowed {
        FirstDisallowedAt(e.names, allowed, i);
        return Raised(NameErrorMessage(e.names[i]));
      }
      i := i + 1;
    }
    if e.failure.Some? {
      return Raised(e.failure.value);
    }
    return Completed;
  }

  /** The first disallowed name is the one at the first index that fails. */
  lemma {:induction false} FirstDisallowedAt(names: seq<string>, allowed: seq<string>, i: nat)
    requires i < |names| && names[i] !in allowed
    requires forall j :: 0 <= j < i ==> names[j] in allowed
    ensures FirstDisallowed(names, allowed) == Some(names[i])
  {
    if i > 0 {
      FirstDisallowedAt(names[1..], allowed, i - 1);
    }
  }

  /** The `cmds` entry of a message: a list, or a single command. */
  datatype Commands = CommandList(cmds: seq<string>) | Single(cmd: string)

  /** A decoded message. `None` stands for a key that is absent or null,
      which the code treats alike for every key but `cmds`. */
  datatype Message = Message(pre: Option<Expr>, cmds: Option<Commands>, success: Option<Expr>,
                             post: Option<string>, error: Option<Expr>)

  datatype Hook = Pre | Success | OnError
  datatype Stage = Main | Post

  /** What the consumer does, in order. */
  datatype Event = Evaluated(hook: Hook) | Ran(command: string, stage: Stage) | Acked

  /** Events of a stretch of the `try` block, and whether it ended by raising. */
  datatype Attempt = Attempt(events: seq<Event>, raised: bool)

  /** The list the code iterates over after wrapping a single command. */
  function CommandsOf(c: Commands): seq<string> {
    match c
    case CommandList(cmds) => cmds
    case Single(cmd) => [cmd]
  }

  /** Evaluating an optional hook. */
  function HookAttempt(hook: Hook, e: Option<Expr>): Attempt {
    if e.None? then Attempt([], false)
    else Attempt([Evaluated(hook)], Evaluation(e.value, HookNames).Raised?)
  }

  /** Running the `post` command: its exit status is ignored, but launching
      it may raise, and that happens inside the `try`. */
  function PostAttempt(post: Option<string>, launches: string -> bool): Attempt {
    if post.None? then Attempt([], false) else Attempt([Ran(post.value, Post)], !launches(post.value))
  }

  /** Sequencing inside the `try`: `next` happens only when `a` did not raise. */
  function Then(a: Attempt, next: Attempt): Attempt {
    if a.raised then a else Attempt(a.events + next.events, next.raised)
  }

  /** Running the commands in order; a non-zero exit raises RuntimeError. */
  function RunCommands(cmds: seq<string>, exitOf: string -> int): Attempt {
    if cmds == [] then Attempt([], false)
    else if exitOf(cmds[0]) != 0 then Attempt([Ran(cmds[0], Main)], true)
    else
      var rest := RunCommands(cmds[1..], exitOf);
      Attempt([Ran(cmds[0], Main)] + rest.events, rest.raised)
  }

  /** The `try` block of `callback`. */
  function TryBlock(m: Message, exitOf: string -> int, launches: string -> bool): Attempt {
    if m.cmds.None? then Attempt([], true)
    else
      Then(Then(Then(HookAttempt(Pre, m.pre), RunCommands(CommandsOf(m.cmds.value), exitOf)),
                HookAttempt(Success, m.success)),
           PostAttempt(m.post, launches))
  }

  /** Everything `callback` does for a body; `None` is a body that is not JSON.
      An `error` hook that raises escapes `callback`, so no ack follows. */
  function CallbackEvents(body: Option<Message>, exitOf: string -> int, launches: string -> bool): seq<Event> {
    match body
    case None => []
    case Some(m) =>
      var t := TryBlock(m, exitOf, launches);
      if t.raised && m.error.Some? then
        if Evaluation(m.error.value, HookNames).Raised? then t.events + [Evaluated(OnError)]
        else t.events + [Evaluated(OnError), Acked]
      else t.events + [Acked]
  }

  /** Commands run in order; the first non-zero exit is the last command run
      and the only way the run raises. */
  lemma {:induction false} RunCommandsSpec(cmds: seq<string>, exitOf: string -> int)
    ensures var r := RunCommands(cmds, exitOf);
      |r.events| <= |cmds| &&
      (forall i :: 0 <= i < |r.events| ==> r.events[i] == Ran(cmds[i], Main)) &&
      (r.raised <==> exists i :: 0 <= i < |cmds| && exitOf(cmds[i]) != 0) &&
      (r.raised ==> |r.events| > 0 && exitOf(cmds[|r.events| - 1]) != 0 &&
                    forall i :: 0 <= i < |r.events| - 1 ==> exitOf(cmds[i]) == 0) &&
      (!r.raised ==> |r.events| == |cmds|)
  {
    if cmds != [] && exitOf(cmds[0]) == 0 {
      RunCommandsSpec(cmds[1..], exitOf);
      var rest := RunCommands(cmds[1..], exitOf);
      assert forall i :: 0 <= i < |cmds[1..]| ==> cmds[1..][i] == cmds[i + 1];
      if rest.raised {
        var i :| 0 <= i < |cmds[1..]| && exitOf(cmds[1..][i]) != 0;
        assert exitOf(cmds[i + 1]) != 0;
      } else {
        forall i | 0 <= i < |cmds| ensures exitOf(cmds[i]) == 0 {
          if i > 0 {
            assert cmds[i] == cmds[1..][i - 1];
          }
        }
      }
    }
  }

  /** Running the first `i` commands when none of them fails. */
  lemma {:induction false} RunCommandsAllZero(cmds: seq<string>, exitOf: string -> int)
    requires forall j :: 0 <= j < |cmds| ==> exitOf(cmds[j]) == 0
    ensures RunCommands(cmds, exitOf) == Attempt(seq(|cmds|, j requires 0 <= j < |cmds| => Ran(cmds[j], Main)), false)
  {
    if cmds != [] {
      RunCommandsAllZero(cmds[1..], exitOf);
    }
  }

  /** One step of the command loop. */
  lemma RunCommandsStep(cmds: seq<string>, exitOf: string -> int, i: nat)
    requires i < |cmds|
    requires forall j :: 0 <= j < i ==> exitOf(cmds[j]) == 0
    ensures exitOf(cmds[i]) != 0 ==>
              RunCommands(cmds, exitOf) == Attempt(seq(i + 1, j requires 0 <= j <= i => Ran(cmds[j], Main)), true)
  {
    RunCommandsSpec(cmds, exitOf);
  }

  /** The command loop of `callback`, stopping at the first non-zero exit. */
  method RunAll(cmds: seq<string>, exitOf: string -> int) returns (a: Attempt)
    ensures a == RunCommands(cmds, exitOf)
  {
    var events: seq<Event> := [];
    var i := 0;
    while i < |cmds|
      invariant 0 <= i <= |cmds|
      invariant forall j :: 0 <= j < i ==> exitOf(cmds[j]) == 0
      invariant events == seq(i, j requires 0 <= j < i => Ran(cmds[j], Main))
    {
      events := events + [Ran(cmds[i], Main)];
      if exitOf(cmds[i]) != 0 {
        RunCommandsStep(cmds, exitOf, i);
        return Attempt(events, true);
      }
      i := i + 1;
    }
    RunCommandsAllZero(cmds, exitOf);
    return Attempt(events, false);
  }

  /** Evaluating an optional hook through `evaluate`. */
  method RunHook(hook: Hook, e: Option<Expr>) returns (a: Attempt)
    ensures a == HookAttempt(hook, e)
  {
    if e.None? {
      return Attempt([], false);
    }
    var outcome := Evaluate(e.value, HookNames);
    return Attempt([Evaluated(hook)], outcome.Raised?);
  }

  /** `callback`: decode, run the `try` block, maybe the `error` hook, then ack. */
  method Callback(body: Option<Message>, exitOf: string -> int, launches: string -> bool) returns (log: seq<Event>)
    ensures log == CallbackEvents(body, exitOf, launches)
  {
    if body.None? {
      return [];
    }
    var m := body.value;
    var raised := false;
    log := [];
    if m.cmds.None? {
      raised := true;
    } else {
      var pre := RunHook(Pre, m.pre);
      log, raised := pre.events, pre.raised;
      if !raised {
        var run := RunAll(CommandsOf(m.cmds.value), exitOf);
        log, raised := log + run.events, run.raised;
      }
      if !raised {
        var success := RunHook(Success, m.success);
        log, raised := log + success.events, success.raised;
      }
      if !raised && m.post.Some? {
        log, raised := log + [Ran(m.post.value, Post)], !launches(m.post.value);
      }
    }
    if raised && m.error.Some? {
      var handler := RunHook(OnError, m.error);
      log := log + handler.events;
      if handler.raised {
        return;
      }
    }
    log := log + [Acked];
  }

  /** An unparseable body is not acked; a parseable one is acked once, as the
      last event, unless its `error` hook raised. */
  lemma AckPolicy(body: Option<Message>, exitOf: string -> int, launches: string -> bool)
    ensures body.None? ==> CallbackEvents(body, exitOf, launches) == []
    ensures body.Some? ==>
      var log := CallbackEvents(body, exitOf, launches);
      var m := body.value;
      (Acked in log <==>
        !(TryBlock(m, exitOf, launches).raised && m.error.Some? && Evaluation(m.error.value, HookNames).Raised?)) &&
      forall i :: 0 <= i < |log| && log[i] == Acked ==> i == |log| - 1
  {
    if body.Some? {
      TryBlockNoAck(body.value, exitOf, launches);
    }
  }

  /** The `try` block itself never acks. */
  lemma TryBlockNoAck(m: Message, exitOf: string -> int, launches: string -> bool)
    ensures Acked !in TryBlock(m, exitOf, launches).events
  {
    if m.cmds.Some? {
      RunCommandsSpec(CommandsOf(m.cmds.value), exitOf);
    }
  }

  /** The `try` block raises exactly when `cmds` is missing, `pre` raises, a
      command exits non-zero, `success` raises or launching `post` raises;
      the `error` hook runs exactly then, when present. */
  lemma ErrorHookSpec(m: Message, exitOf: string -> int, launches: string -> bool)
    ensures TryBlock(m, exitOf, launches).raised <==>
      m.cmds.None? ||
      (m.pre.Some? && Evaluation(m.pre.value, HookNames).Raised?) ||
      (exists c :: c in CommandsOf(m.cmds.value) && exitOf(c) != 0) ||
      (m.success.Some? && Evaluation(m.success.value, HookNames).Raised?) ||
      (m.post.Some? && !launches(m.post.value))
    ensures Evaluated(OnError) in CallbackEvents(Some(m), exitOf, launches) <==>
      TryBlock(m, exitOf, launches).raised && m.error.Some?
  {
    TryBlockNoError(m, exitOf, launches);
    if m.cmds.Some? {
      var cmds := CommandsOf(m.cmds.value);
      RunCommandsSpec(cmds, exitOf);
      if exists c :: c in cmds && exitOf(c) != 0 {
        var c :| c in cmds && exitOf(c) != 0;
        var i :| 0 <= i < |cmds| && cmds[i] == c;
      }
    }
  }

  /** The `try` block never evaluates the `error` hook. */
  lemma TryBlockNoError(m: Message, exitOf: string -> int, launches: string -> bool)
    ensures Evaluated(OnError) !in TryBlock(m, exitOf, launches).events
  {
    if m.cmds.Some? {
      RunCommandsSpec(CommandsOf(m.cmds.value), exitOf);
    }
  }

  /** `pre` comes first; the commands run are, in order, the leading commands
      of the (wrapped) list up to and including the first failing one. */
  lemma CommandOrder(m: Message, exitOf: string -> int, launches: string -> bool)
    requires m.cmds.Some?
    ensures m.pre.Some? ==> CallbackEvents(Some(m), exitOf, launches)[0] == Evaluated(Pre)
    ensures var t := TryBlock(m, exitOf, launches);
      var cmds := CommandsOf(m.cmds.value);
      var pre := HookAttempt(Pre, m.pre);
      !pre.raised ==>
        var run := RunCommands(cmds, exitOf);
        t.events[..|pre.events| + |run.events|] == pre.events + run.events &&
        |run.events| <= |cmds| &&
        (forall i :: 0 <= i < |run.events| ==> run.events[i] == Ran(cmds[i], Main)) &&
        (forall i :: 0 <= i < |run.events| - 1 ==> exitOf(cmds[i]) == 0) &&
        (|run.events| < |cmds| ==> exitOf(cmds[|run.events| - 1]) != 0)
  {
    var cmds := CommandsOf(m.cmds.value);
    RunCommandsSpec(cmds, exitOf);
    var pre := HookAttempt(Pre, m.pre);
    var run := RunCommands(cmds, exitOf);
    var a := Then(pre, run);
    var b := Then(a, HookAttempt(Success, m.success));
    var t := Then(b, PostAttempt(m.post, launches));
    assert t == TryBlock(m, exitOf, launches);
    assert a.events[..] == a.events;
    if !pre.raised {
      assert a.events == pre.events + run.events;
      assert a.events <= b.events <= t.events;
    }
  }

  /** The part of the `try` block before the `success` hook raises exactly
      when `pre` raises or some command exits non-zero, and neither evaluates
      the `success` hook nor runs `post`. */
  lemma MainStage(m: Message, exitOf: string -> int)
    requires m.cmds.Some?
    ensures var cmds := CommandsOf(m.cmds.value);
      var a := Then(HookAttempt(Pre, m.pre), RunCommands(cmds, exitOf));
      (a.raised <==> HookAttempt(Pre, m.pre).raised || exists c :: c in cmds && exitOf(c) != 0) &&
      Evaluated(Success) !in a.events && forall c :: Ran(c, Post) !in a.events
  {
    var cmds := CommandsOf(m.cmds.value);
    RunCommandsSpec(cmds, exitOf);
    var pre := HookAttempt(Pre, m.pre);
    var run := RunCommands(cmds, exitOf);
    assert Evaluated(Success) !in pre.events && Evaluated(Success) !in run.events;
    assert forall c :: Ran(c, Post) !in pre.events && Ran(c, Post) !in run.events;
    if !pre.raised && exists c :: c in cmds && exitOf(c) != 0 {
      var c :| c in cmds && exitOf(c) != 0;
      var i :| 0 <= i < |cmds| && cmds[i] == c;
    }
  }

  /** The `success` hook is evaluated exactly when `pre` and every command
      succeed and there is one, and it comes before `post`. */
  lemma SuccessHook(m: Message, exitOf: string -> int, launches: string -> bool)
    requires m.cmds.Some?
    ensures var log := CallbackEvents(Some(m), exitOf, launches);
      var cmds := CommandsOf(m.cmds.value);
      var clean := HookAttempt(Pre, m.pre).raised == false && forall c :: c in cmds ==> exitOf(c) == 0;
      (Evaluated(Success) in log <==> clean && m.success.Some?) &&
      (m.post.Some? && Ran(m.post.value, Post) in log && m.success.Some? ==>
         exists i, j :: 0 <= i < j < |log| && log[i] == Evaluated(Success) && log[j] == Ran(m.post.value, Post))
  {
    MainStage(m, exitOf);
    var a := Then(HookAttempt(Pre, m.pre), RunCommands(CommandsOf(m.cmds.value), exitOf));
    var suc := HookAttempt(Success, m.success);
    var log := CallbackEvents(Some(m), exitOf, launches);
    if !a.raised && suc.events != [] && !suc.raised && m.post.Some? {
      assert log[|a.events|] == Evaluated(Success);
      assert log[|a.events| + 1] == Ran(m.post.value, Post);
    }
  }

  /** `post` runs exactly when `pre`, every command and the `success` hook
      succeed and there is one. */
  lemma PostRuns(m: Message, exitOf: string -> int, launches: string -> bool)
    requires m.cmds.Some?
    ensures var log := CallbackEvents(Some(m), exitOf, launches);
      var cmds := CommandsOf(m.cmds.value);
      var clean := HookAttempt(Pre, m.pre).raised == false && forall c :: c in cmds ==> exitOf(c) == 0;
      (exists c :: Ran(c, Post) in log) <==> clean && !HookAttempt(Success, m.success).raised && m.post.Some?
  {
    MainStage(m, exitOf);
    var log := CallbackEvents(Some(m), exitOf, launches);
    assert forall c :: Ran(c, Post) !in HookAttempt(Success, m.success).events;
    if m.post.Some? && Ran(m.post.value, Post) in log {
      assert exists c :: Ran(c, Post) in log;
    }
  }

}
