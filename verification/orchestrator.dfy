/** `run_steps`: the sequential state machine that walks the step catalog.
    Each step is described by what it does when asked — whether constructing
    it or its `always_run` hook raised, its probe before and after `setup`,
    and what `setup` did — and the run records which hooks were invoked,
    what was printed, and how the process ended. */
module Orchestrator {
  import opened Outcomes
  import opened Text

  /** One step as the orchestrator meets it. */
  datatype StepRun = StepRun(
    name: string,                    // display_name, matched against skip/force
    doing: string,                   // display_doing, printed before setup
    init: Option<Error>,             // error raised by the step's constructor
    hook: Option<Error>,             // error raised by always_run
    pre: Probe,                      // already_satisfied before setup
    setup: SetupResult,              // what setup did, if invoked
    post: Probe,                     // already_satisfied after setup
    troubleshooting: Option<string>) // display_troubleshooting

  /** A step hook the orchestrator invoked. */
  datatype Event = AlwaysRun(step: string) | Setup(step: string)

  /** How the process ends. Both `exit(1)` calls and an escaping exception
      end it with status 1. */
  datatype Ending =
    | Finished                       // every step resolved: status 0
    | ForcedExit(step: string)       // exit(1) right after a forced setup
    | FailedExit(step: string)       // exit(1) after a failed re-check
    | Raised(error: Error)           // an exception escaped the run

  datatype Verdict = Proceed | Halt(ending: Ending)

  datatype StepTrace = StepTrace(events: seq<Event>, output: seq<string>, verdict: Verdict)

  datatype RunTrace = RunTrace(events: seq<Event>, output: seq<string>, ending: Ending)

  const Banner := "=================== Trouble-shooting ==================="

  function ExitStatus(e: Ending): (code: int)
    ensures code == 0 <==> e == Finished
    ensures code == 0 || code == 1
  {
    if e.Finished? then 0 else 1
  }

  /** Python truthiness of `display_troubleshooting`: None and "" are false. */
  predicate HasRemedy(s: StepRun) {
    s.troubleshooting.Some? && s.troubleshooting.value != ""
  }

  /** The lines printed when a step stays unsatisfied after its setup. */
  function FailureReport(s: StepRun): (lines: seq<string>)
    ensures |lines| >= 1 && lines[0] == "ERROR: " + s.name + " failed."
    ensures HasRemedy(s) <==> |lines| == 4
    ensures HasRemedy(s) ==> lines[1..] == ["", Banner, s.troubleshooting.value]
    ensures !HasRemedy(s) ==> |lines| == 1
  {
    ["ERROR: " + s.name + " failed."]
      + (if HasRemedy(s) then ["", Banner, s.troubleshooting.value] else [])
  }

  /** The guard in front of `setup`: the step was built, its hook returned,
      its name is not in the skip string, and it is either unsatisfied or
      forced. A probe that raises here escapes before the force test. */
  predicate SetupInvoked(s: StepRun, skip: string, force: string) {
    && s.init.None? && s.hook.None?
    && !Contains(skip, s.name)
    && s.pre.Holds?
    && (!s.pre.ok || Contains(force, s.name))
  }

  /** Only `CommandFailed` is caught around `setup`; anything else escapes. */
  predicate SetupEscapes(s: StepRun) {
    s.setup.SetupThrew? && !s.setup.error.CommandFailed?
  }

  /** One iteration of the loop in `run_steps`. */
  function RunOne(s: StepRun, skip: string, force: string): (t: StepTrace)
    ensures s.init.Some? ==> t == StepTrace([], [], Halt(Raised(s.init.value)))
    ensures s.init.None? ==>
      t.events == [AlwaysRun(s.name)] + (if SetupInvoked(s, skip, force) then [Setup(s.name)] else [])
    ensures s.init.None? && s.hook.None? && Contains(skip, s.name) ==> t == StepTrace([AlwaysRun(s.name)], [], Proceed)
    ensures t.verdict == Halt(ForcedExit(s.name)) <==>
      SetupInvoked(s, skip, force) && Contains(force, s.name) && !SetupEscapes(s)
    ensures t.verdict.Halt? && t.verdict.ending.FailedExit? ==>
      SetupInvoked(s, skip, force) && !Contains(force, s.name) && s.post == Holds(false)
    ensures SetupInvoked(s, skip, force) <==> |t.output| > 0 && t.output[0] == s.doing + "..."
  {
    match s.init
    case Some(e) => StepTrace([], [], Halt(Raised(e)))
    case None =>
      var began := [AlwaysRun(s.name)];
      if s.hook.Some? then StepTrace(began, [], Halt(Raised(s.hook.value)))
      else if Contains(skip, s.name) then StepTrace(began, [], Proceed)
      else match s.pre
        case ProbeRaised(e) => StepTrace(began, [], Halt(Raised(e)))
        case Holds(satisfied) =>
          var forced := Contains(force, s.name);
          if satisfied && !forced then StepTrace(began, [], Proceed)
          else
            var events := began + [Setup(s.name)];
            var announced := [s.doing + "..."];
            if SetupEscapes(s) then StepTrace(events, announced, Halt(Raised(s.setup.error)))
            else
              var printed := announced + (if s.setup.SetupThrew? then [s.setup.error.stderr] else []);
              if forced then StepTrace(events, printed, Halt(ForcedExit(s.name)))
              else match s.post
                case ProbeRaised(e) => StepTrace(events, printed, Halt(Raised(e)))
                case Holds(true) => StepTrace(events, printed, Proceed)
                case Holds(false) => StepTrace(events, printed + FailureReport(s), Halt(FailedExit(s.name)))
  }

  /** Which exceptions escape one iteration: those from the hook, from the
      first probe, from `setup` unless it is `CommandFailed`, and from the
      re-check of an unforced step. */
  lemma RunOneRaises(s: StepRun, skip: string, force: string)
    ensures s.init.None? && s.hook.Some? ==>
      RunOne(s, skip, force).verdict == Halt(Raised(s.hook.value))
    ensures s.init.None? && s.hook.None? && !Contains(skip, s.name) && s.pre.ProbeRaised? ==>
      RunOne(s, skip, force).verdict == Halt(Raised(s.pre.error))
    ensures SetupInvoked(s, skip, force) && SetupEscapes(s) ==>
      RunOne(s, skip, force).verdict == Halt(Raised(s.setup.error))
    ensures SetupInvoked(s, skip, force) && !SetupEscapes(s) && !Contains(force, s.name) && s.post.ProbeRaised? ==>
      RunOne(s, skip, force).verdict == Halt(Raised(s.post.error))
  {
  }

  /** A caught `CommandFailed` has its stderr printed right after the
      announcement, and the failure exit happens exactly when an unforced
      step's setup does not escape and the re-check says unsatisfied. */
  lemma RunOneReport(s: StepRun, skip: string, force: string)
    ensures SetupInvoked(s, skip, force) && !SetupEscapes(s) && s.setup.SetupThrew? ==>
      |RunOne(s, skip, force).output| >= 2 &&
      RunOne(s, skip, force).output[1] == s.setup.error.stderr
    ensures RunOne(s, skip, force).verdict == Halt(FailedExit(s.name)) <==>
      SetupInvoked(s, skip, force) && !Contains(force, s.name) && !SetupEscapes(s) && s.post == Holds(false)
  {
  }

  /** What one iteration prints: nothing unless `setup` is invoked; then the
      announcement, the stderr of a caught `CommandFailed`, and the failure
      report only when the run exits on a failed re-check. */
  lemma RunOneOutput(s: StepRun, skip: string, force: string)
    ensures !SetupInvoked(s, skip, force) ==> RunOne(s, skip, force).output == []
    ensures RunOne(s, skip, force).verdict != Halt(FailedExit(s.name)) ==> |RunOne(s, skip, force).output| <= 2
    ensures SetupInvoked(s, skip, force) && SetupEscapes(s) ==> RunOne(s, skip, force).output == [s.doing + "..."]
    ensures SetupInvoked(s, skip, force) && !SetupEscapes(s) ==>
      RunOne(s, skip, force).output ==
        [s.doing + "..."] + (if s.setup.SetupThrew? then [s.setup.error.stderr] else [])
        + (if RunOne(s, skip, force).verdict == Halt(FailedExit(s.name)) then FailureReport(s) else [])
    ensures RunOne(s, skip, force).verdict == Halt(FailedExit(s.name)) ==>
      var out := RunOne(s, skip, force).output;
      |out| >= |FailureReport(s)| && out[|out| - |FailureReport(s)|..] == FailureReport(s)
  {
  }

  predicate Proceeds(s: StepRun, skip: string, force: string) {
    RunOne(s, skip, force).verdict == Proceed
  }

  /** `run_steps` over the catalog's steps, once the OS is known. */
  function Run(steps: seq<StepRun>, skip: string, force: string): (r: RunTrace)
    ensures r.ending == Finished <==> forall i :: 0 <= i < |steps| ==> Proceeds(steps[i], skip, force)
    decreases |steps|
  {
    if |steps| == 0 then RunTrace([], [], Finished)
    else
      var t := RunOne(steps[0], skip, force);
      if t.verdict.Halt? then RunTrace(t.events, t.output, t.verdict.ending)
      else
        var rest := Run(steps[1..], skip, force);
        assert forall i :: 1 <= i < |steps| ==> steps[i] == steps[1..][i - 1];
        RunTrace(t.events + rest.events, t.output + rest.output, rest.ending)
  }

  /** The events of steps that all ran, concatenated. */
  function EventsOf(steps: seq<StepRun>, skip: string, force: string): seq<Event>
    decreases |steps|
  {
    if |steps| == 0 then [] else RunOne(steps[0], skip, force).events + EventsOf(steps[1..], skip, force)
  }

  function OutputOf(steps: seq<StepRun>, skip: string, force: string): seq<string>
    decreases |steps|
  {
    if |steps| == 0 then [] else RunOne(steps[0], skip, force).output + OutputOf(steps[1..], skip, force)
  }

  /** The steps whose `always_run` was invoked, in order. */
  function HookedSteps(events: seq<Event>): seq<string>
    decreases |events|
  {
    if |events| == 0 then []
    else (if events[0].AlwaysRun? then [events[0].step] else []) + HookedSteps(events[1..])
  }

  lemma {:induction false} HookedStepsConcat(a: seq<Event>, b: seq<Event>)
    ensures HookedSteps(a + b) == HookedSteps(a) + HookedSteps(b)
    decreases |a|
  {
    if |a| == 0 {
      assert a + b == b;
    } else {
      var h := if a[0].AlwaysRun? then [a[0].step] else [];
      assert (a + b)[0] == a[0] && (a + b)[1..] == a[1..] + b;
      HookedStepsConcat(a[1..], b);
      assert HookedSteps(a + b) == h + (HookedSteps(a[1..]) + HookedSteps(b));
      assert HookedSteps(a) == h + HookedSteps(a[1..]);
    }
  }

  function StepNames(steps: seq<StepRun>): (r: seq<string>)
    ensures |r| == |steps|
    ensures forall i :: 0 <= i < |steps| ==> r[i] == steps[i].name
  {
    seq(|steps|, i requires 0 <= i < |steps| => steps[i].name)
  }

  lemma StepNamesCons(steps: seq<StepRun>)
    requires |steps| > 0
    ensures StepNames(steps) == [steps[0].name] + StepNames(steps[1..])
  {
  }

  /** A run that every step passes: the events and output are those of all
      steps, in order. */
  lemma {:induction false} RunWhenAllProceed(steps: seq<StepRun>, skip: string, force: string)
    requires forall i :: 0 <= i < |steps| ==> Proceeds(steps[i], skip, force)
    ensures Run(steps, skip, force) ==
      RunTrace(EventsOf(steps, skip, force), OutputOf(steps, skip, force), Finished)
    decreases |steps|
  {
    if |steps| > 0 {
      assert forall i :: 0 <= i < |steps| - 1 ==> steps[1..][i] == steps[i + 1];
      RunWhenAllProceed(steps[1..], skip, force);
    }
  }

  /** No step after the first one that halts is reached: the run's ending
      is that step's, and its events and output are those of the steps up to
      and including it. */
  lemma {:induction false} RunStopsAtFirstHalt(steps: seq<StepRun>, skip: string, force: string, k: int)
    requires 0 <= k < |steps|
    requires forall i :: 0 <= i < k ==> Proceeds(steps[i], skip, force)
    requires !Proceeds(steps[k], skip, force)
    ensures Run(steps, skip, force) ==
      RunTrace(EventsOf(steps[..k + 1], skip, force), OutputOf(steps[..k + 1], skip, force),
               RunOne(steps[k], skip, force).verdict.ending)
    decreases k
  {
    var prefix := steps[..k + 1];
    if k == 0 {
      assert prefix[1..] == [];
    } else {
      assert forall i :: 0 <= i < k - 1 ==> steps[1..][i] == steps[i + 1];
      RunStopsAtFirstHalt(steps[1..], skip, force, k - 1);
      assert prefix[1..] == steps[1..][..k];
    }
  }

  /** Skip precedence: a step whose name occurs in the skip string never has
      its `setup` invoked, whatever its probe says and even when the force
      string names it too. */
  lemma {:induction false} SkipPrecedence(steps: seq<StepRun>, skip: string, force: string)
    ensures forall n :: Setup(n) in Run(steps, skip, force).events ==> !Contains(skip, n)
    decreases |steps|
  {
    if |steps| > 0 {
      SkipPrecedence(steps[1..], skip, force);
    }
  }

  /** Every step the run reaches, skipped or not, gets its `always_run`
      invoked before anything else happens to it, as long as it could be
      constructed. */
  lemma {:induction false} HooksOfReachedSteps(steps: seq<StepRun>, skip: string, force: string)
    requires forall i :: 0 <= i < |steps| ==> steps[i].init.None?
    ensures HookedSteps(EventsOf(steps, skip, force)) == StepNames(steps)
    decreases |steps|
  {
    if |steps| > 0 {
      HooksOfReachedSteps(steps[1..], skip, force);
      HookedStepsConcat(RunOne(steps[0], skip, force).events, EventsOf(steps[1..], skip, force));
      StepNamesCons(steps);
    }
  }

  /** The hooks a run invokes follow the catalog order, stop where the run
      stops, and cover the whole catalog when it finishes. */
  lemma {:induction false} HooksFollowCatalog(steps: seq<StepRun>, skip: string, force: string)
    ensures HookedSteps(Run(steps, skip, force).events) <= StepNames(steps)
    ensures Run(steps, skip, force).ending == Finished ==>
      HookedSteps(Run(steps, skip, force).events) == StepNames(steps)
    decreases |steps|
  {
    if |steps| > 0 {
      var tail := steps[1..];
      var t := RunOne(steps[0], skip, force);
      var rest := Run(tail, skip, force);
      StepNamesCons(steps);
      HooksFollowCatalog(tail, skip, force);
      StepHooks(steps[0], skip, force);
      if t.verdict.Proceed? {
        assert Run(steps, skip, force).events == t.events + rest.events;
        HookedStepsConcat(t.events, rest.events);
      } else {
        assert Run(steps, skip, force).events == t.events;
      }
    }
  }

  /** One step hooks itself, unless it could not be constructed. */
  lemma StepHooks(s: StepRun, skip: string, force: string)
    ensures HookedSteps(RunOne(s, skip, force).events) == if s.init.None? then [s.name] else []
    ensures RunOne(s, skip, force).verdict.Proceed? ==> s.init.None?
  {
    var head := [AlwaysRun(s.name)];
    var setup := [Setup(s.name)];
    HookedStepsConcat(head, setup);
    assert HookedSteps(setup) == [];
    assert HookedSteps(head) == [s.name];
  }

  /** A step passed over without `setup`: skipped, or satisfied and not forced. */
  predicate PassedOver(s: StepRun, skip: string, force: string) {
    && s.init.None? && s.hook.None?
    && (Contains(skip, s.name) || (s.pre == Holds(true) && !Contains(force, s.name)))
  }

  /** Idempotent short-circuit: when every step is skipped or already
      satisfied and unforced, no `setup` is invoked, nothing is printed, every
      hook runs in catalog order, and the run finishes with status 0. */
  lemma {:induction false} ShortCircuit(steps: seq<StepRun>, skip: string, force: string)
    requires forall i :: 0 <= i < |steps| ==> PassedOver(steps[i], skip, force)
    ensures Run(steps, skip, force) == RunTrace(Hooks(StepNames(steps)), [], Finished)
    decreases |steps|
  {
    if |steps| > 0 {
      var tail := steps[1..];
      assert forall i :: 0 <= i < |tail| ==> tail[i] == steps[i + 1];
      ShortCircuit(tail, skip, force);
      PassedOverProceeds(steps[0], skip, force);
      var rest := Run(tail, skip, force);
      assert Run(steps, skip, force) == RunTrace([AlwaysRun(steps[0].name)] + rest.events, [] + rest.output, rest.ending);
      StepNamesCons(steps);
      HooksCons(steps[0].name, StepNames(tail));
    }
  }

  lemma PassedOverProceeds(s: StepRun, skip: string, force: string)
    requires PassedOver(s, skip, force)
    ensures RunOne(s, skip, force) == StepTrace([AlwaysRun(s.name)], [], Proceed)
  {
  }

  lemma HooksCons(name: string, names: seq<string>)
    ensures Hooks([name] + names) == [AlwaysRun(name)] + Hooks(names)
  {
  }

  /** The `always_run` events for a list of names. */
  function Hooks(names: seq<string>): (r: seq<Event>)
    ensures |r| == |names|
    ensures forall i :: 0 <= i < |names| ==> r[i] == AlwaysRun(names[i])
  {
    seq(|names|, i requires 0 <= i < |names| => AlwaysRun(names[i]))
  }

  /** Force terminates: a reached, forced, unskipped step whose probe does
      not raise has `setup` invoked even if already satisfied; the run ends
      with status 1 right after it and reaches no later step — by `exit(1)`,
      or by the exception when setup raises something other than
      `CommandFailed` (the base `setup` raises NotImplementedError). */
  lemma ForceTerminates(steps: seq<StepRun>, skip: string, force: string, k: int)
    requires 0 <= k < |steps|
    requires forall i :: 0 <= i < k ==> Proceeds(steps[i], skip, force)
    requires steps[k].init.None? && steps[k].hook.None? && steps[k].pre.Holds?
    requires Contains(force, steps[k].name) && !Contains(skip, steps[k].name)
    ensures !SetupEscapes(steps[k]) ==> Run(steps, skip, force).ending == ForcedExit(steps[k].name)
    ensures SetupEscapes(steps[k]) ==> Run(steps, skip, force).ending == Raised(steps[k].setup.error)
    ensures ExitStatus(Run(steps, skip, force).ending) == 1
    ensures HookedSteps(Run(steps, skip, force).events) == StepNames(steps[..k + 1])
    ensures Run(steps, skip, force).events[|Run(steps, skip, force).events| - 1] == Setup(steps[k].name)
  {
    var prefix := steps[..k + 1];
    ForcedStep(steps[k], skip, force);
    RunStopsAtFirstHalt(steps, skip, force, k);
    ReachedBuilt(steps, skip, force, k, prefix);
    HooksOfReachedSteps(prefix, skip, force);
    LastEvents(prefix, skip, force);
  }

  /** Every step up to the first one that halts could be constructed, when
      that one could. */
  lemma ReachedBuilt(steps: seq<StepRun>, skip: string, force: string, k: int, prefix: seq<StepRun>)
    requires 0 <= k < |steps| && prefix == steps[..k + 1]
    requires forall i :: 0 <= i < k ==> Proceeds(steps[i], skip, force)
    requires steps[k].init.None?
    ensures forall i :: 0 <= i < |prefix| ==> prefix[i].init.None?
  {
    forall i | 0 <= i < k + 1 ensures prefix[i].init.None? {
      if i < k {
        StepHooks(steps[i], skip, force);
      }
    }
  }

  /** A built, forced, unskipped step whose probe answers invokes its hook
      and `setup`, then halts. */
  lemma ForcedStep(s: StepRun, skip: string, force: string)
    requires s.init.None? && s.hook.None? && s.pre.Holds?
    requires Contains(force, s.name) && !Contains(skip, s.name)
    ensures RunOne(s, skip, force).events == [AlwaysRun(s.name), Setup(s.name)]
    ensures RunOne(s, skip, force).verdict ==
      Halt(if SetupEscapes(s) then Raised(s.setup.error) else ForcedExit(s.name))
  {
  }

  /** The events of a list of steps end with those of its last step. */
  lemma LastEvents(steps: seq<StepRun>, skip: string, force: string)
    requires |steps| > 0
    ensures EventsOf(steps, skip, force) ==
      EventsOf(steps[..|steps| - 1], skip, force) + RunOne(steps[|steps| - 1], skip, force).events
  {
    var last := [steps[|steps| - 1]];
    assert steps == steps[..|steps| - 1] + last;
    EventsOfConcat(steps[..|steps| - 1], last, skip, force);
    assert last[1..] == [];
  }

  lemma {:induction false} EventsOfConcat(a: seq<StepRun>, b: seq<StepRun>, skip: string, force: string)
    ensures EventsOf(a + b, skip, force) == EventsOf(a, skip, force) + EventsOf(b, skip, force)
    decreases |a|
  {
    if |a| == 0 {
      assert a + b == b;
    } else {
      var h := RunOne(a[0], skip, force).events;
      assert (a + b)[0] == a[0] && (a + b)[1..] == a[1..] + b;
      EventsOfConcat(a[1..], b, skip, force);
      AppendAssoc(h, EventsOf(a[1..], skip, force), EventsOf(b, skip, force));
    }
  }

  /** Failure handling: an unforced step whose setup returned or raised
      `CommandFailed` is decided by the re-check — satisfied means the run
      continues; unsatisfied means exit 1 after printing the failure and,
      only if the step has a non-empty remedy, the remedy. */
  lemma RecheckDecides(s: StepRun, skip: string, force: string)
    requires SetupInvoked(s, skip, force) && !Contains(force, s.name)
    requires !SetupEscapes(s)
    requires s.post.Holds?
    ensures Proceeds(s, skip, force) <==> s.post.ok
    ensures !s.post.ok ==> RunOne(s, skip, force).verdict == Halt(FailedExit(s.name))
    ensures !s.post.ok ==>
      var out := RunOne(s, skip, force).output;
      |out| >= |FailureReport(s)| && out[|out| - |FailureReport(s)|..] == FailureReport(s)
    ensures !s.post.ok && HasRemedy(s) ==>
      var out := RunOne(s, skip, force).output;
      |out| >= 4 && out[|out| - 4..] == ["ERROR: " + s.name + " failed.", "", Banner, s.troubleshooting.value]
    ensures !s.post.ok && !HasRemedy(s) ==>
      var out := RunOne(s, skip, force).output;
      out[|out| - 1] == "ERROR: " + s.name + " failed."
  {
  }
}
