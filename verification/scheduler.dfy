/**
 * The concurrent protocol's scheduling loop as a state machine. Its state
 * is the pair of alive flags of the Signal Receiver (P1) and the Spectral
 * Analyzer (P3) and the latest temperature reading; each round of the loop
 * is driven by what the operating system reports in that round.
 */
module Scheduler {
  import opened Wrappers
  import opened Stats
  import opened Trace
  import opened Monitor
  import opened Analysis

  /** The seconds of CPU the receiver and the analyzer get per quantum. */
  const ReceiverQuantumSeconds: nat := 10
  const AnalyzerQuantumSeconds: nat := 5

  /** `p1_sigue_vivo`, `p3_sigue_vivo` and `last_data_from_p3`. */
  datatype LoopState = LoopState(p1Alive: bool, p3Alive: bool, last: int)

  /** Both workloads alive and no reading yet. */
  const Initial := LoopState(true, true, -1)

  /** What the operating system reports during one round of the loop. */
  datatype Round = Round(
    p1Exited: bool,       // the poll after P1's quantum finds it exited
    p1Exit: ExitInfo,     // P1's measurement when it is reaped this round
    p3Output: string,     // the bytes waiting in the analyzer's pipe after its quantum
    p3Exited: bool,       // the poll after P3's quantum finds it exited
    p3Exit: ExitInfo,     // P3's measurement when it is reaped this round
    p3ExitedLate: bool,   // the poll of the clean-up branch finds P3 exited
    shieldPid: int,       // the pid the shield launch gets
    shieldExit: ExitInfo) // the shield's measurement

  /** A new loop state and the actions that led to it. */
  datatype Step = Step(state: LoopState, actions: seq<Action>)

  /**
   * P1's quantum: resume it for ten seconds and poll it. If it exited, its
   * statistics are saved, and a still-running P3 is resumed, reaped with a
   * blocking wait and saved too; both flags drop. Otherwise P1 is paused.
   */
  function ReceiverQuantum(pid1: int, pid3: int, s: LoopState, r: Round): Step
  {
    if !s.p1Alive then Step(s, [])
    else
      var head := [Resume(pid1), Sleep(ReceiverQuantumSeconds), Poll(pid1)];
      if r.p1Exited then
        var saveP1 := [Save(ReceiverPath, SlotOf(pid1, r.p1Exit))];
        if s.p3Alive then
          Step(LoopState(false, false, s.last),
               head + saveP1 + [Resume(pid3), BlockingWait(pid3), Save(AnalyzerPath, SlotOf(pid3, r.p3Exit))])
        else
          Step(s.(p1Alive := false), head + saveP1)
      else
        Step(s, head + [Suspend(pid1)])
  }

  /**
   * P3's quantum, only while both are alive: resume it for five seconds,
   * take the latest reading from its output and poll it. If it exited, its
   * statistics are saved and P1 is killed, reaped and saved; both flags
   * drop. Otherwise P3 is paused. When only P3 is alive, the clean-up branch
   * polls it once and saves it if it exited.
   */
  function AnalyzerQuantum(pid1: int, pid3: int, s: LoopState, r: Round): Step
  {
    if s.p3Alive && s.p1Alive then
      var reading := NextReading(s.last, r.p3Output);
      var head := [Resume(pid3), Sleep(AnalyzerQuantumSeconds), Poll(pid3)];
      if r.p3Exited then
        Step(LoopState(false, false, reading),
             head + [Save(AnalyzerPath, SlotOf(pid3, r.p3Exit)), ForceKill(pid1), BlockingWait(pid1), Save(ReceiverPath, SlotOf(pid1, r.p1Exit))])
      else
        Step(s.(last := reading), head + [Suspend(pid3)])
    else if s.p3Alive && !s.p1Alive then
      if r.p3ExitedLate then
        Step(s.(p3Alive := false), [Poll(pid3), Save(AnalyzerPath, SlotOf(pid3, r.p3Exit))])
      else
        Step(s, [Poll(pid3)])
    else
      Step(s, [])
  }

  /**
   * The shield evaluation, only while both are alive: when the rule gives an
   * argument, the shield is launched with it and waited for without a
   * timeout, and the reading is reset to -1.
   */
  function ShieldEvaluation(s: LoopState, r: Round): Step
  {
    if s.p1Alive && s.p3Alive then
      match ShieldArg(s.last)
      case None => Step(s, [])
      case Some(arg) =>
        Step(s.(last := -1),
             [Launch(ShieldPath, Some(arg))] + WaitLog(r.shieldPid, ShieldPath, 0, [], r.shieldExit))
    else
      Step(s, [])
  }

  /** One round of the loop: the three phases in order. */
  function RoundStep(pid1: int, pid3: int, s: LoopState, r: Round): Step
  {
    var a := ReceiverQuantum(pid1, pid3, s, r);
    var b := AnalyzerQuantum(pid1, pid3, a.state, r);
    var c := ShieldEvaluation(b.state, r);
    Step(c.state, a.actions + b.actions + c.actions)
  }

  /** Whether the loop goes round again. */
  predicate Running(s: LoopState)
  {
    s.p1Alive || s.p3Alive
  }

  /** The loop run on the rounds the operating system reports, until both flags drop or the reports run out. */
  function Run(pid1: int, pid3: int, s: LoopState, rounds: seq<Round>): Step
    decreases |rounds|
  {
    if !Running(s) || rounds == [] then Step(s, [])
    else
      var first := RoundStep(pid1, pid3, s, rounds[0]);
      var rest := Run(pid1, pid3, first.state, rounds[1..]);
      Step(rest.state, first.actions + rest.actions)
  }

  /** Quiet actions, one save, quiet actions: no launch, and one save under that save's name. */
  lemma OneSaveBetween(before: seq<Action>, save: Action, after: seq<Action>, name: string)
    requires forall i :: 0 <= i < |before| ==> !before[i].Save? && !before[i].Launch?
    requires forall i :: 0 <= i < |after| ==> !after[i].Save? && !after[i].Launch?
    requires save.Save?
    ensures Count(before + [save] + after, LaunchKind) == 0
    ensures SavesNamed(before + [save] + after, name) == (if save.name == name then 1 else 0)
  {
    QuietLog(before, name);
    QuietLog(after, name);
    assert before + [save] + after == before + ([save] + after);
    CountConcat(before, [save] + after, LaunchKind);
    CountCons(save, after, LaunchKind);
    SavesNamedConcat(before, [save] + after, name);
    SavesNamedCons(save, after, name);
  }

  /** A log of two such pieces: no launch, and one save under each of the two names. */
  lemma TwoSavesBetween(before: seq<Action>, save1: Action, mid: seq<Action>, save2: Action, name: string)
    requires forall i :: 0 <= i < |before| ==> !before[i].Save? && !before[i].Launch?
    requires forall i :: 0 <= i < |mid| ==> !mid[i].Save? && !mid[i].Launch?
    requires save1.Save? && save2.Save?
    ensures Count(before + [save1] + mid + [save2], LaunchKind) == 0
    ensures SavesNamed(before + [save1] + mid + [save2], name)
         == (if save1.name == name then 1 else 0) + (if save2.name == name then 1 else 0)
  {
    OneSaveBetween(before, save1, mid, name);
    OneSaveBetween([], save2, [], name);
    assert [] + [save2] + [] == [save2];
    CountConcat(before + [save1] + mid, [save2], LaunchKind);
    SavesNamedConcat(before + [save1] + mid, [save2], name);
  }

  /** The receiver's quantum never launches anything and saves P1 or P3 exactly when it drops that flag. */
  lemma ReceiverQuantumSaves(pid1: int, pid3: int, s: LoopState, r: Round)
    ensures var st := ReceiverQuantum(pid1, pid3, s, r);
      && Count(st.actions, LaunchKind) == 0
      && SavesNamed(st.actions, ShieldPath) == 0
      && SavesNamed(st.actions, ReceiverPath) == (if s.p1Alive && !st.state.p1Alive then 1 else 0)
      && SavesNamed(st.actions, AnalyzerPath) == (if s.p3Alive && !st.state.p3Alive then 1 else 0)
  {
    PathsDistinct();
    var head := [Resume(pid1), Sleep(ReceiverQuantumSeconds), Poll(pid1)];
    var saveP1 := Save(ReceiverPath, SlotOf(pid1, r.p1Exit));
    var saveP3 := Save(AnalyzerPath, SlotOf(pid3, r.p3Exit));
    if s.p1Alive && r.p1Exited && s.p3Alive {
      var mid := [Resume(pid3), BlockingWait(pid3)];
      assert head + [saveP1] + [Resume(pid3), BlockingWait(pid3), saveP3] == head + [saveP1] + mid + [saveP3];
      TwoSavesBetween(head, saveP1, mid, saveP3, ReceiverPath);
      TwoSavesBetween(head, saveP1, mid, saveP3, ShieldPath);
      TwoSavesBetween(head, saveP1, mid, saveP3, AnalyzerPath);
    } else if s.p1Alive && r.p1Exited {
      assert head + [saveP1] == head + [saveP1] + [];
      OneSaveBetween(head, saveP1, [], ReceiverPath);
      OneSaveBetween(head, saveP1, [], ShieldPath);
      OneSaveBetween(head, saveP1, [], AnalyzerPath);
    } else if s.p1Alive {
      QuietLog(head + [Suspend(pid1)], ReceiverPath);
      QuietLog(head + [Suspend(pid1)], ShieldPath);
      QuietLog(head + [Suspend(pid1)], AnalyzerPath);
    }
  }

  /**
   * The analyzer's quantum never launches anything and saves P1 or P3
   * exactly when it drops that flag.
   */
  lemma AnalyzerQuantumSaves(pid1: int, pid3: int, s: LoopState, r: Round)
    ensures var st := AnalyzerQuantum(pid1, pid3, s, r);
      && Count(st.actions, LaunchKind) == 0
      && SavesNamed(st.actions, ShieldPath) == 0
      && SavesNamed(st.actions, ReceiverPath) == (if s.p1Alive && !st.state.p1Alive then 1 else 0)
      && SavesNamed(st.actions, AnalyzerPath) == (if s.p3Alive && !st.state.p3Alive then 1 else 0)
  {
    PathsDistinct();
    var head := [Resume(pid3), Sleep(AnalyzerQuantumSeconds), Poll(pid3)];
    var saveP1 := Save(ReceiverPath, SlotOf(pid1, r.p1Exit));
    var saveP3 := Save(AnalyzerPath, SlotOf(pid3, r.p3Exit));
    if s.p3Alive && s.p1Alive && r.p3Exited {
      var mid := [ForceKill(pid1), BlockingWait(pid1)];
      assert head + [saveP3, ForceKill(pid1), BlockingWait(pid1), saveP1] == head + [saveP3] + mid + [saveP1];
      TwoSavesBetween(head, saveP3, mid, saveP1, ReceiverPath);
      TwoSavesBetween(head, saveP3, mid, saveP1, ShieldPath);
      TwoSavesBetween(head, saveP3, mid, saveP1, AnalyzerPath);
    } else if s.p3Alive && s.p1Alive {
      QuietLog(head + [Suspend(pid3)], ReceiverPath);
      QuietLog(head + [Suspend(pid3)], ShieldPath);
      QuietLog(head + [Suspend(pid3)], AnalyzerPath);
    } else if s.p3Alive && r.p3ExitedLate {
      assert [Poll(pid3), saveP3] == [Poll(pid3)] + [saveP3] + [];
      OneSaveBetween([Poll(pid3)], saveP3, [], ReceiverPath);
      OneSaveBetween([Poll(pid3)], saveP3, [], ShieldPath);
      OneSaveBetween([Poll(pid3)], saveP3, [], AnalyzerPath);
    } else if s.p3Alive {
      QuietLog([Poll(pid3)], ReceiverPath);
      QuietLog([Poll(pid3)], ShieldPath);
      QuietLog([Poll(pid3)], AnalyzerPath);
    }
  }

  /**
   * The shield evaluation saves nothing for P1 or P3, and launches the
   * shield, then saves its statistics, exactly when both are alive and the
   * rule gives an argument for the current reading.
   */
  lemma ShieldEvaluationSaves(s: LoopState, r: Round)
    ensures var st := ShieldEvaluation(s, r);
      var launched := s.p1Alive && s.p3Alive && ShieldArg(s.last).Some?;
      && Count(st.actions, LaunchKind) == (if launched then 1 else 0)
      && SavesNamed(st.actions, ShieldPath) == (if launched then 1 else 0)
      && SavesNamed(st.actions, ReceiverPath) == 0
      && SavesNamed(st.actions, AnalyzerPath) == 0
  {
    PathsDistinct();
    if s.p1Alive && s.p3Alive && ShieldArg(s.last).Some? {
      var launch := Launch(ShieldPath, ShieldArg(s.last));
      var save := Save(ShieldPath, SlotOf(r.shieldPid, r.shieldExit));
      assert ShieldEvaluation(s, r).actions == [launch, BlockingWait(r.shieldPid), save];
      CountShort(launch, BlockingWait(r.shieldPid), save, LaunchKind);
      SavesNamedShort(launch, BlockingWait(r.shieldPid), save, ShieldPath);
      SavesNamedShort(launch, BlockingWait(r.shieldPid), save, ReceiverPath);
      SavesNamedShort(launch, BlockingWait(r.shieldPid), save, AnalyzerPath);
    }
  }

  /**
   * At the head of the loop the two alive flags are equal, and a round
   * keeps them so: either both workloads are still alive after it, or
   * neither is. The clean-up branch for a lone P3 is therefore never taken,
   * and what its poll would report makes no difference.
   */
  lemma RoundKeepsFlagsEqual(pid1: int, pid3: int, s: LoopState, r: Round, lateExit: bool)
    requires s.p1Alive == s.p3Alive
    ensures var t := RoundStep(pid1, pid3, s, r).state;
      t.p1Alive == t.p3Alive && (t.p1Alive ==> s.p1Alive)
    ensures RoundStep(pid1, pid3, s, r.(p3ExitedLate := lateExit)) == RoundStep(pid1, pid3, s, r)
  {
  }

  /**
   * At most one shield launch per round, and one exactly when both workloads
   * survive their quanta and the rule gives an argument for the reading taken
   * in this round; the launch carries that argument and leaves the reading at -1.
   */
  lemma RoundLaunch(pid1: int, pid3: int, s: LoopState, r: Round)
    requires s.p1Alive == s.p3Alive
    ensures var st := RoundStep(pid1, pid3, s, r);
      var reading := NextReading(s.last, r.p3Output);
      var launched := s.p1Alive && !r.p1Exited && !r.p3Exited && ShieldArg(reading).Some?;
      && Count(st.actions, LaunchKind) == (if launched then 1 else 0)
      && (launched ==> st.state == LoopState(true, true, -1) && Launch(ShieldPath, ShieldArg(reading)) in st.actions)
      && (!launched && st.state.p1Alive ==> st.state.last == reading)
  {
    var a := ReceiverQuantum(pid1, pid3, s, r);
    var b := AnalyzerQuantum(pid1, pid3, a.state, r);
    var c := ShieldEvaluation(b.state, r);
    ReceiverQuantumSaves(pid1, pid3, s, r);
    AnalyzerQuantumSaves(pid1, pid3, a.state, r);
    ShieldEvaluationSaves(b.state, r);
    CountConcat(a.actions, b.actions, LaunchKind);
    CountConcat(a.actions + b.actions, c.actions, LaunchKind);
    if s.p1Alive && !r.p1Exited && !r.p3Exited && ShieldArg(NextReading(s.last, r.p3Output)).Some? {
      assert c.actions[0] == Launch(ShieldPath, ShieldArg(NextReading(s.last, r.p3Output)));
      assert (a.actions + b.actions + c.actions)[|a.actions + b.actions|] == c.actions[0];
    }
  }

  /**
   * A round saves P1 and P3 exactly when it drops their flags, and saves the
   * shield's statistics once for each launch.
   */
  lemma RoundSaves(pid1: int, pid3: int, s: LoopState, r: Round)
    requires s.p1Alive == s.p3Alive
    ensures var st := RoundStep(pid1, pid3, s, r);
      && SavesNamed(st.actions, ReceiverPath) == (if s.p1Alive && !st.state.p1Alive then 1 else 0)
      && SavesNamed(st.actions, AnalyzerPath) == (if s.p3Alive && !st.state.p3Alive then 1 else 0)
      && SavesNamed(st.actions, ShieldPath) == Count(st.actions, LaunchKind)
  {
    var a := ReceiverQuantum(pid1, pid3, s, r);
    var b := AnalyzerQuantum(pid1, pid3, a.state, r);
    var c := ShieldEvaluation(b.state, r);
    ReceiverQuantumSaves(pid1, pid3, s, r);
    AnalyzerQuantumSaves(pid1, pid3, a.state, r);
    ShieldEvaluationSaves(b.state, r);
    CountConcat(a.actions, b.actions, LaunchKind);
    CountConcat(a.actions + b.actions, c.actions, LaunchKind);
    SavesNamedConcat(a.actions, b.actions, ReceiverPath);
    SavesNamedConcat(a.actions + b.actions, c.actions, ReceiverPath);
    SavesNamedConcat(a.actions, b.actions, AnalyzerPath);
    SavesNamedConcat(a.actions + b.actions, c.actions, AnalyzerPath);
    SavesNamedConcat(a.actions, b.actions, ShieldPath);
    SavesNamedConcat(a.actions + b.actions, c.actions, ShieldPath);
  }

  /**
   * Over a whole run from a loop head with equal flags: the flags stay equal,
   * P1 and P3 are each saved exactly once if the run ends them (and not at
   * all otherwise), the shield is saved once per launch, and there are no
   * more launches than reported rounds.
   */
  lemma {:induction false} RunSaves(pid1: int, pid3: int, s: LoopState, rounds: seq<Round>)
    requires s.p1Alive == s.p3Alive
    ensures var st := Run(pid1, pid3, s, rounds);
      && st.state.p1Alive == st.state.p3Alive
      && SavesNamed(st.actions, ReceiverPath) == (if s.p1Alive && !st.state.p1Alive then 1 else 0)
      && SavesNamed(st.actions, AnalyzerPath) == (if s.p3Alive && !st.state.p3Alive then 1 else 0)
      && SavesNamed(st.actions, ShieldPath) == Count(st.actions, LaunchKind) <= |rounds|
    decreases |rounds|
  {
    if Running(s) && rounds != [] {
      var first := RoundStep(pid1, pid3, s, rounds[0]);
      var rest := Run(pid1, pid3, first.state, rounds[1..]);
      RoundKeepsFlagsEqual(pid1, pid3, s, rounds[0], false);
      RoundLaunch(pid1, pid3, s, rounds[0]);
      RoundSaves(pid1, pid3, s, rounds[0]);
      RunSaves(pid1, pid3, first.state, rounds[1..]);
      if !first.state.p1Alive {
        assert rest == Step(first.state, []);
      }
      CountConcat(first.actions, rest.actions, LaunchKind);
      SavesNamedConcat(first.actions, rest.actions, ReceiverPath);
      SavesNamedConcat(first.actions, rest.actions, AnalyzerPath);
      SavesNamedConcat(first.actions, rest.actions, ShieldPath);
    }
  }

  /** A concurrent run that finishes has saved P1 and P3 exactly once each. */
  lemma FinishedRunSavesEach(pid1: int, pid3: int, rounds: seq<Round>)
    requires !Running(Run(pid1, pid3, Initial, rounds).state)
    ensures var log := Run(pid1, pid3, Initial, rounds).actions;
      SavesNamed(log, ReceiverPath) == 1 && SavesNamed(log, AnalyzerPath) == 1
  {
    RunSaves(pid1, pid3, Initial, rounds);
  }
}
