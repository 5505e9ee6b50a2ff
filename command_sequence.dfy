/**
 * The install plan's steps and the runner of `ExecuteCommandSequence`: run
 * the steps in order through the executor and stop at the first non-zero exit.
 * The rendering of commands to shell text is a parameter, so the runner's laws
 * hold whatever the texts are.
 */
module CommandSequence {
  import opened TextOps
  import opened EnvTypes
  import opened Executor

  /** The shell commands the install plan can contain, with the proxy and repository they embed. */
  datatype Command =
    | Pull(proxy: string)
    | RemoveOld
    | Clone(proxy: string, repo: string)
    | InstallVenv(proxy: string)
    | InstallBase(proxy: string)
    | AddCudaPath

  /** `(step name, command, timeout seconds, use real-time output)`. */
  datatype Step = Step(name: string, command: Command, timeout: int, realtime: bool)

  /** Real-time steps go through the live relay; the others through the executor with their timeout. */
  function StepInvocation(s: Step, text: Command -> string): (inv: Invocation)
    ensures inv.command == text(s.command)
    ensures inv.channel == Relay <==> s.realtime
    ensures !s.realtime ==> inv.channel == Captured(Some(s.timeout))
  {
    if s.realtime then Invocation(text(s.command), Relay)
    else Invocation(text(s.command), Captured(Some(s.timeout)))
  }

  function Invocations(steps: seq<Step>, text: Command -> string): (invs: seq<Invocation>)
    ensures |invs| == |steps|
    ensures forall j :: 0 <= j < |steps| ==> invs[j] == StepInvocation(steps[j], text)
  {
    if steps == [] then [] else [StepInvocation(steps[0], text)] + Invocations(steps[1..], text)
  }

  /** `ExecuteCommandSequence`: run the steps in order and stop at the first non-zero exit. */
  function RunSequence(w: World, steps: seq<Step>, text: Command -> string): (ComponentResult, World)
    decreases |steps|
  {
    if steps == [] then
      (SuccessResult(ParallaxProject, "Command sequence completed successfully"), w)
    else
      var (r, w1) := Run(w, StepInvocation(steps[0], text));
      if r.code != 0 then
        (StepFailure(steps[0], text), w1)
      else RunSequence(w1, steps[1..], text)
  }

  /** The exit code the n-th step of a sequence started in `w` sees. */
  function StepCode(w: World, steps: seq<Step>, text: Command -> string, j: nat): int
    requires j < |steps|
  {
    w.answer(|w.log| + j, StepInvocation(steps[j], text)).code
  }

  /** The failure a step reports. */
  function StepFailure(s: Step, text: Command -> string): (r: ComponentResult)
    ensures r.status == Failed && r.code == 25 && r.component == ParallaxProject
  {
    FailureResult(ParallaxProject, "Failed at step '" + s.name + "': " + text(s.command), 25)
  }

  /** One step of the runner, and the exit codes the remaining steps see after it. */
  lemma RunSequenceHead(w: World, steps: seq<Step>, text: Command -> string)
    requires steps != []
    ensures var w1 := World(w.answer, w.log + [StepInvocation(steps[0], text)]);
      && RunSequence(w, steps, text) ==
           (if StepCode(w, steps, text, 0) != 0 then (StepFailure(steps[0], text), w1)
            else RunSequence(w1, steps[1..], text))
      && forall j :: 0 <= j < |steps| - 1 ==> StepCode(w1, steps[1..], text, j) == StepCode(w, steps, text, j + 1)
  {
  }

  /** The invocations of the first `k + 1` steps, the first one split off. */
  lemma InvocationsCons(steps: seq<Step>, text: Command -> string, k: nat)
    requires k < |steps|
    ensures Invocations(steps[..k + 1], text) == [StepInvocation(steps[0], text)] + Invocations(steps[1..][..k], text)
  {
    assert steps[..k + 1][1..] == steps[1..][..k];
  }

  /**
   * The prefix law: when step `k` is the first non-zero exit, exactly steps
   * 0..k ran, in order, and the result names step `k`.
   */
  lemma {:induction false} SequenceStopsAtFirstFailure(w: World, steps: seq<Step>, text: Command -> string, k: nat)
    requires k < |steps|
    requires forall j :: 0 <= j < k ==> StepCode(w, steps, text, j) == 0
    requires StepCode(w, steps, text, k) != 0
    ensures RunSequence(w, steps, text).0 == StepFailure(steps[k], text)
    ensures RunSequence(w, steps, text).1 == World(w.answer, w.log + Invocations(steps[..k + 1], text))
    decreases k
  {
    var w1 := World(w.answer, w.log + [StepInvocation(steps[0], text)]);
    RunSequenceHead(w, steps, text);
    if k > 0 {
      assert StepCode(w, steps, text, 0) == 0;
      SequenceStopsAtFirstFailure(w1, steps[1..], text, k - 1);
      assert steps[1..][k - 1] == steps[k];
      InvocationsCons(steps, text, k);
      AppendAssoc(w.log, [StepInvocation(steps[0], text)], Invocations(steps[1..][..k], text));
    } else {
      InvocationsCons(steps, text, 0);
    }
  }

  /** With every exit code 0 all steps run and the sequence succeeds. */
  lemma {:induction false} SequenceAllSucceed(w: World, steps: seq<Step>, text: Command -> string)
    requires forall j :: 0 <= j < |steps| ==> StepCode(w, steps, text, j) == 0
    ensures RunSequence(w, steps, text).0 == SuccessResult(ParallaxProject, "Command sequence completed successfully")
    ensures RunSequence(w, steps, text).1 == World(w.answer, w.log + Invocations(steps, text))
    decreases |steps|
  {
    if steps != [] {
      var w1 := World(w.answer, w.log + [StepInvocation(steps[0], text)]);
      RunSequenceHead(w, steps, text);
      assert StepCode(w, steps, text, 0) == 0;
      SequenceAllSucceed(w1, steps[1..], text);
      AppendAssoc(w.log, [StepInvocation(steps[0], text)], Invocations(steps[1..], text));
    } else {
      assert w.log + [] == w.log;
    }
  }

  /**
   * Whatever the answers, the runner executes a prefix of the steps, and it
   * succeeds exactly when every step exits 0.
   */
  lemma SequenceRunsPrefix(w: World, steps: seq<Step>, text: Command -> string)
    ensures var (r, w1) := RunSequence(w, steps, text);
      && w1.answer == w.answer
      && (exists k :: 0 <= k <= |steps| && w1.log == w.log + Invocations(steps[..k], text))
      && (r.status == Success <==> forall j :: 0 <= j < |steps| ==> StepCode(w, steps, text, j) == 0)
      && (r.status != Success ==> r.status == Failed && r.code == 25)
  {
    var (r, w1) := RunSequence(w, steps, text);
    if forall j :: 0 <= j < |steps| ==> StepCode(w, steps, text, j) == 0 {
      SequenceAllSucceed(w, steps, text);
      assert steps[..|steps|] == steps;
      assert w1.log == w.log + Invocations(steps[..|steps|], text);
    } else {
      var k := FirstFailure(w, steps, text);
      SequenceStopsAtFirstFailure(w, steps, text, k);
      assert w1.log == w.log + Invocations(steps[..k + 1], text);
      assert StepCode(w, steps, text, k) != 0;
    }
  }

  /** Some step exits non-zero, so there is a first one. */
  lemma FirstFailure(w: World, steps: seq<Step>, text: Command -> string) returns (k: nat)
    requires exists j :: 0 <= j < |steps| && StepCode(w, steps, text, j) != 0
    ensures k < |steps| && StepCode(w, steps, text, k) != 0
    ensures forall j :: 0 <= j < k ==> StepCode(w, steps, text, j) == 0
  {
    k := 0;
    while StepCode(w, steps, text, k) == 0
      invariant 0 <= k < |steps|
      invariant forall j :: 0 <= j < k ==> StepCode(w, steps, text, j) == 0
      invariant exists j :: k <= j < |steps| && StepCode(w, steps, text, j) != 0
      decreases |steps| - k
    {
      k := k + 1;
    }
  }
}
