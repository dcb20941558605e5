/**
 * The mission orchestrator: its static state (the per-role statistics
 * table, the selected protocol, the cycle counter and the sequential
 * baseline time) and the operations that update it.
 *
 * Every operation that deals with the operating system takes what the
 * system reports as an oracle parameter and returns the log of actions it
 * performed; the statistics table always ends up as the saves in that log
 * make it.
 */
module Kernel {
  import opened Wrappers
  import opened CText
  import opened Stats
  import opened Trace
  import opened Monitor
  import opened Analysis
  import opened Scheduler

  /** The timeout of the analyzer's final wait in the sequential protocol. */
  const SequentialAnalyzerTimeout: int := 5

  /** What the operating system reports during the sequential protocol. */
  datatype SequentialOracle = SequentialOracle(
    pid1: int, pid2: int, pid3: int,     // the pids the three launches get
    p1Exit: ExitInfo, p2Exit: ExitInfo, p3Exit: ExitInfo,
    p3Polls: seq<bool>,                  // the analyzer's polls under its timeout
    p3Output: string)                    // the bytes the analyzer leaves in its pipe

  /** What the operating system reports during the concurrent protocol. */
  datatype ConcurrentOracle = ConcurrentOracle(pid1: int, pid3: int, rounds: seq<Round>)

  datatype ScenarioOracle = ScenarioOracle(sequential: SequentialOracle, concurrent: ConcurrentOracle)

  /** Protocol 1's opening: launch the three workloads, then pause P2 and P3. */
  function SequentialLaunches(o: SequentialOracle): seq<Action>
  {
    [Launch(ReceiverPath, None), Launch(ShieldPath, None), Launch(AnalyzerPath, None), Suspend(o.pid2), Suspend(o.pid3)]
  }

  /** The opening saves nothing. */
  lemma SequentialLaunchesSaveNothing(o: SequentialOracle)
    ensures NoSave(SequentialLaunches(o))
  {
  }

  /**
   * Protocol 1: launch the three workloads, pause P2 and P3, wait for P1,
   * then resume and wait for P2, then resume P3 and wait for it under a
   * five-second timeout.
   */
  function SequentialLog(o: SequentialOracle): seq<Action>
  {
    SequentialLaunches(o)
    + WaitLog(o.pid1, ReceiverPath, 0, [], o.p1Exit)
    + [Resume(o.pid2)]
    + WaitLog(o.pid2, ShieldPath, 0, [], o.p2Exit)
    + [Resume(o.pid3)]
    + WaitLog(o.pid3, AnalyzerPath, SequentialAnalyzerTimeout, o.p3Polls, o.p3Exit)
  }

  /** Protocol 2: launch P1 and P3, pause P3, then run the scheduling loop. */
  function ConcurrentLog(o: ConcurrentOracle): seq<Action>
  {
    [Launch(ReceiverPath, None), Launch(AnalyzerPath, None), Suspend(o.pid3)]
    + Run(o.pid1, o.pid3, Initial, o.rounds).actions
  }

  /** `ejecutar_escenario`: protocols 1 and 2 run; 3 and 4 are placeholders and any other number is rejected. */
  function ProtocolLog(scenario: int, o: ScenarioOracle): seq<Action>
  {
    if scenario == 1 then SequentialLog(o.sequential)
    else if scenario == 2 then ConcurrentLog(o.concurrent)
    else []
  }

  /** Three logs with saves, separated by logs without: the table is what the three make of it in turn. */
  lemma ApplySavesThree(t: StatsTable, p: seq<Action>, w1: seq<Action>, m1: seq<Action>, w2: seq<Action>, m2: seq<Action>, w3: seq<Action>)
    requires NoSave(p) && NoSave(m1) && NoSave(m2)
    ensures ApplySaves(t, p + w1 + m1 + w2 + m2 + w3) == ApplySaves(ApplySaves(ApplySaves(t, w1), w2), w3)
  {
    ApplySavesSkips(t, [], p);
    assert [] + p == p;
    ApplySavesConcat(t, p, w1);
    ApplySavesSkips(t, p + w1, m1);
    ApplySavesConcat(t, p + w1 + m1, w2);
    ApplySavesConcat(ApplySaves(t, w1), [], w2);
    ApplySavesSkips(t, p + w1 + m1 + w2, m2);
    ApplySavesConcat(t, p + w1 + m1 + w2 + m2, w3);
  }

  /** Saving the three roles' paths in turn fills every slot of the table. */
  lemma SavedAllThree(t: StatsTable, s1: Slot, s2: Slot, s3: Slot)
    ensures Saved(Saved(Saved(t, ReceiverPath, s1), ShieldPath, s2), AnalyzerPath, s3) == StatsTable(s1, s2, s3)
  {
    ReceiverPathRole();
    ShieldPathRole();
    AnalyzerPathRole();
  }

  /**
   * After the sequential protocol every slot holds the measurement of its
   * own workload, whatever the table held before.
   */
  lemma SequentialFillsTable(t: StatsTable, o: SequentialOracle)
    ensures ApplySaves(t, SequentialLog(o))
         == StatsTable(SlotOf(o.pid1, o.p1Exit), SlotOf(o.pid2, o.p2Exit), SlotOf(o.pid3, o.p3Exit))
  {
    var w1 := WaitLog(o.pid1, ReceiverPath, 0, [], o.p1Exit);
    var w2 := WaitLog(o.pid2, ShieldPath, 0, [], o.p2Exit);
    var w3 := WaitLog(o.pid3, AnalyzerPath, SequentialAnalyzerTimeout, o.p3Polls, o.p3Exit);
    SequentialLaunchesSaveNothing(o);
    ApplySavesThree(t, SequentialLaunches(o),
                    w1, [Resume(o.pid2)], w2, [Resume(o.pid3)], w3);
    WaitLogSaves(t, o.pid1, ReceiverPath, 0, [], o.p1Exit);
    var t1 := ApplySaves(t, w1);
    WaitLogSaves(t1, o.pid2, ShieldPath, 0, [], o.p2Exit);
    var t2 := ApplySaves(t1, w2);
    WaitLogSaves(t2, o.pid3, AnalyzerPath, SequentialAnalyzerTimeout, o.p3Polls, o.p3Exit);
    SavedAllThree(t, SlotOf(o.pid1, o.p1Exit), SlotOf(o.pid2, o.p2Exit), SlotOf(o.pid3, o.p3Exit));
  }

  /**
   * Appending one action, two more, then one more appends the four: sequence
   * bookkeeping for `AnalyzerSlice`, stated over variables so that the
   * verifier does not unfold the literal paths in its saves.
   */
  lemma AppendFour(h: seq<Action>, a: Action, b: Action, c: Action, d: Action)
    ensures h + [a] + [b, c] + [d] == h + [a, b, c, d]
  {
  }

  /** One more round of the loop: the rest of the run starts where that round left the state. */
  lemma RunAdvance(pid1: int, pid3: int, s: LoopState, rounds: seq<Round>, i: nat, s': LoopState, a: seq<Action>)
    requires i < |rounds| && Running(s)
    requires Step(s', a) == RoundStep(pid1, pid3, s, rounds[i])
    ensures var rest := Run(pid1, pid3, s', rounds[i + 1..]);
      Run(pid1, pid3, s, rounds[i..]) == Step(rest.state, a + rest.actions)
  {
    assert rounds[i..][1..] == rounds[i + 1..];
  }

  /** The loop's invariant survives one more round. */
  lemma RunInvariantStep(pid1: int, pid3: int, head: seq<Action>, whole: Step, log: seq<Action>,
                         s: LoopState, rounds: seq<Round>, i: nat, s': LoopState, a: seq<Action>)
    requires i < |rounds| && Running(s)
    requires Step(s', a) == RoundStep(pid1, pid3, s, rounds[i])
    requires head + whole.actions == log + Run(pid1, pid3, s, rounds[i..]).actions
    requires whole.state == Run(pid1, pid3, s, rounds[i..]).state
    ensures head + whole.actions == (log + a) + Run(pid1, pid3, s', rounds[i + 1..]).actions
    ensures whole.state == Run(pid1, pid3, s', rounds[i + 1..]).state
  {
    RunAdvance(pid1, pid3, s, rounds, i, s', a);
    var rest := Run(pid1, pid3, s', rounds[i + 1..]);
    assert log + (a + rest.actions) == (log + a) + rest.actions;
  }

  /** A run that has stopped, or has no more rounds, does nothing more. */
  lemma RunStopped(pid1: int, pid3: int, s: LoopState, rounds: seq<Round>)
    requires !Running(s) || rounds == []
    ensures Run(pid1, pid3, s, rounds) == Step(s, [])
  {
  }

  /**
   * A concurrent protocol that finishes saves the receiver and the analyzer
   * exactly once each, and the shield once per launch, with no more launches
   * than reported rounds.
   */
  lemma ConcurrentSavesEach(o: ConcurrentOracle)
    requires !Running(Run(o.pid1, o.pid3, Initial, o.rounds).state)
    ensures var log := ConcurrentLog(o);
      && SavesNamed(log, ReceiverPath) == 1
      && SavesNamed(log, AnalyzerPath) == 1
      && SavesNamed(log, ShieldPath) == Count(log, LaunchKind) - 2 <= |o.rounds|
  {
    var head := [Launch(ReceiverPath, None), Launch(AnalyzerPath, None), Suspend(o.pid3)];
    var run := Run(o.pid1, o.pid3, Initial, o.rounds).actions;
    RunSaves(o.pid1, o.pid3, Initial, o.rounds);
    CountShort(Launch(ReceiverPath, None), Launch(AnalyzerPath, None), Suspend(o.pid3), LaunchKind);
    CountConcat(head, run, LaunchKind);
    SavesNamedShort(Launch(ReceiverPath, None), Launch(AnalyzerPath, None), Suspend(o.pid3), ReceiverPath);
    SavesNamedShort(Launch(ReceiverPath, None), Launch(AnalyzerPath, None), Suspend(o.pid3), AnalyzerPath);
    SavesNamedShort(Launch(ReceiverPath, None), Launch(AnalyzerPath, None), Suspend(o.pid3), ShieldPath);
    SavesNamedConcat(head, run, ReceiverPath);
    SavesNamedConcat(head, run, AnalyzerPath);
    SavesNamedConcat(head, run, ShieldPath);
  }

  /**
   * The protocol the selection prompt keeps: `scanf("%d")` yields no number
   * (`None`) or one; only 1 to 4 are kept, anything else leaves 0.
   */
  function Selection(input: Option<int>): (r: int)
    ensures 0 <= r <= 4
    ensures r != 0 <==> input.Some? && 1 <= input.value <= 4
    ensures r != 0 ==> r == input.value
  {
    if input.Some? && 1 <= input.value <= 4 then input.value else 0
  }

  /** The baseline after a cycle: set by a protocol-1 cycle while still 0.0, never changed otherwise. */
  function NextBaseline(scenario: int, baseline: real, cycleTime: real): (b: real)
    ensures baseline != 0.0 ==> b == baseline
    ensures b != baseline ==> scenario == 1 && b == cycleTime
    ensures scenario == 1 && baseline == 0.0 ==> b == cycleTime
  {
    if scenario == 1 && baseline == 0.0 then cycleTime else baseline
  }

  /**
   * The operands of the speedup division, when the cycle computes one: only
   * for protocols above 1 and only once the baseline is positive, so the
   * divisor's numerator is never the unset 0.0 baseline.
   */
  function Speedup(scenario: int, baseline: real, cycleTime: real): (r: Option<(real, real)>)
    ensures r.Some? <==> scenario > 1 && baseline > 0.0
    ensures r.Some? ==> r.value.0 == baseline > 0.0 && r.value.1 == cycleTime
  {
    if scenario == 1 then None
    else if scenario > 1 && baseline > 0.0 then Some((baseline, cycleTime))
    else None
  }

  /** The baseline after a series of cycles, each given by its protocol and its measured time. */
  function BaselineAfter(baseline: real, cycles: seq<(int, real)>): real
    decreases |cycles|
  {
    if cycles == [] then baseline
    else BaselineAfter(NextBaseline(cycles[0].0, baseline, cycles[0].1), cycles[1..])
  }

  /** The time of the first protocol-1 cycle that measured a nonzero time, or 0.0 if there is none. */
  function FirstSequentialTime(cycles: seq<(int, real)>): real
    decreases |cycles|
  {
    if cycles == [] then 0.0
    else if cycles[0].0 == 1 && cycles[0].1 != 0.0 then cycles[0].1
    else FirstSequentialTime(cycles[1..])
  }

  /** Once set, the baseline never changes. */
  lemma {:induction false} BaselineSticks(baseline: real, cycles: seq<(int, real)>)
    requires baseline != 0.0
    ensures BaselineAfter(baseline, cycles) == baseline
    decreases |cycles|
  {
    if cycles != [] {
      BaselineSticks(NextBaseline(cycles[0].0, baseline, cycles[0].1), cycles[1..]);
    }
  }

  /** From an unset baseline, the baseline is the time of the first protocol-1 cycle that measured one. */
  lemma {:induction false} BaselineIsFirstSequentialTime(cycles: seq<(int, real)>)
    ensures BaselineAfter(0.0, cycles) == FirstSequentialTime(cycles)
    decreases |cycles|
  {
    if cycles != [] {
      var b := NextBaseline(cycles[0].0, 0.0, cycles[0].1);
      if b != 0.0 {
        BaselineSticks(b, cycles[1..]);
      } else {
        BaselineIsFirstSequentialTime(cycles[1..]);
      }
    }
  }

  /** The orchestrator's static state. */
  class Orchestrator {
    var stats: StatsTable     // usage_p*, pid_p*, time_p*
    var scenario: int         // escenario_actual
    var cycle: int            // ciclo_actual
    var baseline: real        // tiempo_escenario_1

    /**
     * The bounds the main loop keeps: a selected protocol is 0 to 4 and the
     * cycle counter starts at 1. It says nothing about the other fields;
     * each method's ensures gives the whole new state.
     */
    ghost predicate Valid()
      reads this
    {
      0 <= scenario <= 4 && cycle >= 1
    }

    /** The statics as the program starts. */
    constructor ()
      ensures Valid()
      ensures stats == ZeroTable && scenario == 0 && cycle == 1 && baseline == 0.0
    {
      stats := ZeroTable;
      scenario := 0;
      cycle := 1;
      baseline := 0.0;
    }

    /** `guardar_stats_proceso`: store a measurement in the slot of the role the name is recognised as. */
    method GuardarStatsProceso(name: string, pid: int, wallTime: real, usage: Usage)
      modifies this`stats
      ensures stats == Saved(old(stats), name, Slot(pid, wallTime, usage))
    {
      if Contains(name, "proceso1") {
        stats := stats.(p1 := Slot(pid, wallTime, usage));
      } else if Contains(name, "proceso2") {
        stats := stats.(p2 := Slot(pid, wallTime, usage));
      } else if Contains(name, "proceso3") {
        stats := stats.(p3 := Slot(pid, wallTime, usage));
      }
    }

    /** Save a measurement and log the save. */
    method SaveAndLog(name: string, pid: int, e: ExitInfo, log: seq<Action>, ghost t: StatsTable) returns (log': seq<Action>)
      requires stats == ApplySaves(t, log)
      modifies this`stats
      ensures log' == log + [Save(name, SlotOf(pid, e))]
      ensures stats == ApplySaves(t, log')
    {
      GuardarStatsProceso(name, pid, e.wallTime, e.usage);
      ApplySavesSnoc(t, log, Save(name, SlotOf(pid, e)));
      log' := log + [Save(name, SlotOf(pid, e))];
    }

    /** `inicializar_ciclo`: every pid, wall time and usage record back to zero. */
    method InicializarCiclo()
      modifies this`stats
      ensures stats == ZeroTable
    {
      stats := StatsTable(Slot(0, 0.0, ZeroUsage), Slot(0, 0.0, ZeroUsage), Slot(0, 0.0, ZeroUsage));
    }

    /** `reiniciar_escenario`, the SIGTSTP handler: back to the selection prompt and cycle 1. */
    method ReiniciarEscenario()
      modifies this`scenario, this`cycle
      ensures scenario == 0 && cycle == 1
      ensures Valid()
    {
      scenario := 0;
      cycle := 1;
    }

    /**
     * The timed wait of `esperar_proceso`: one poll a second, stopping at the
     * first poll that reaps the workload; when the timeout runs out, SIGKILL
     * and a blocking reap.
     */
    method PollUntilExit(pid: int, timeout: int, polls: seq<bool>) returns (log: seq<Action>)
      requires timeout > 0
      ensures log == Countdown(pid, timeout, polls, 0)
    {
      log := [];
      var remaining := timeout;
      while remaining > 0
        invariant 0 <= remaining <= timeout
        invariant log + Countdown(pid, remaining, polls, timeout - remaining) == Countdown(pid, timeout, polls, 0)
      {
        log := log + [Poll(pid)];
        if Polled(polls, timeout - remaining) {
          return;
        }
        log := log + [Sleep(1)];
        remaining := remaining - 1;
      }
      log := log + [ForceKill(pid), BlockingWait(pid)];
    }

    /**
     * `esperar_proceso`: wait for a workload, under a timeout of one poll a
     * second when `timeout > 0`, killing it when the timeout runs out, and
     * save its statistics on every path.
     */
    method EsperarProceso(pid: int, name: string, timeout: int, polls: seq<bool>, e: ExitInfo) returns (log: seq<Action>)
      modifies this`stats
      ensures log == WaitLog(pid, name, timeout, polls, e)
      ensures stats == ApplySaves(old(stats), log)
    {
      if timeout > 0 {
        log := PollUntilExit(pid, timeout, polls);
      } else {
        log := [BlockingWait(pid)];
      }
      GuardarStatsProceso(name, pid, e.wallTime, e.usage);
      log := log + [Save(name, SlotOf(pid, e))];
      WaitLogSaves(old(stats), pid, name, timeout, polls, e);
    }

    /**
     * Protocol 1. The value `leer_datos_p3` reads at the end is returned as
     * `analysis`; the protocol itself does nothing with it.
     */
    method EjecutarEscenario1(o: SequentialOracle) returns (log: seq<Action>, analysis: int)
      modifies this`stats
      ensures log == SequentialLog(o)
      ensures stats == ApplySaves(old(stats), log)
      ensures stats == StatsTable(SlotOf(o.pid1, o.p1Exit), SlotOf(o.pid2, o.p2Exit), SlotOf(o.pid3, o.p3Exit))
      ensures analysis == LeerDatosP3(o.p3Output)
    {
      var launches := SequentialLaunches(o);
      ghost var t0 := stats;
      var w1 := EsperarProceso(o.pid1, ReceiverPath, 0, [], o.p1Exit);
      ghost var t1 := stats;
      var w2 := EsperarProceso(o.pid2, ShieldPath, 0, [], o.p2Exit);
      ghost var t2 := stats;
      var w3 := EsperarProceso(o.pid3, AnalyzerPath, SequentialAnalyzerTimeout, o.p3Polls, o.p3Exit);
      log := launches + w1 + [Resume(o.pid2)] + w2 + [Resume(o.pid3)] + w3;
      analysis := LeerDatosP3(o.p3Output);
      SequentialLaunchesSaveNothing(o);
      ApplySavesThree(t0, launches, w1, [Resume(o.pid2)], w2, [Resume(o.pid3)], w3);
      SequentialFillsTable(t0, o);
    }

    /** The receiver's quantum of one round of protocol 2. */
    method ReceiverTurn(pid1: int, pid3: int, s: LoopState, r: Round) returns (s': LoopState, log: seq<Action>)
      modifies this`stats
      ensures Step(s', log) == ReceiverQuantum(pid1, pid3, s, r)
      ensures stats == ApplySaves(old(stats), log)
    {
      s' := s;
      log := [];
      if s.p1Alive {
        log := [Resume(pid1), Sleep(ReceiverQuantumSeconds), Poll(pid1)];
        ApplySavesSkips(old(stats), [], log);
        assert [] + log == log;
        if r.p1Exited {
          s' := s'.(p1Alive := false);
          log := SaveAndLog(ReceiverPath, pid1, r.p1Exit, log, old(stats));
          if s'.p3Alive {
            ApplySavesSkips(old(stats), log, [Resume(pid3), BlockingWait(pid3)]);
            log := log + [Resume(pid3), BlockingWait(pid3)];
            log := SaveAndLog(AnalyzerPath, pid3, r.p3Exit, log, old(stats));
            s' := s'.(p3Alive := false);
          }
        } else {
          ApplySavesSkips(old(stats), log, [Suspend(pid1)]);
          log := log + [Suspend(pid1)];
        }
      }
    }

    /** Save one workload, run a piece of log that saves nothing, save another. */
    method SaveTwice(first: string, pidA: int, eA: ExitInfo, mid: seq<Action>, second: string, pidB: int, eB: ExitInfo,
                     log: seq<Action>, ghost t: StatsTable) returns (log': seq<Action>)
      requires stats == ApplySaves(t, log) && NoSave(mid)
      modifies this`stats
      ensures log' == log + [Save(first, SlotOf(pidA, eA))] + mid + [Save(second, SlotOf(pidB, eB))]
      ensures stats == ApplySaves(t, log')
    {
      log' := SaveAndLog(first, pidA, eA, log, t);
      ApplySavesSkips(t, log', mid);
      log' := log' + mid;
      log' := SaveAndLog(second, pidB, eB, log', t);
    }

    /** The analyzer's quantum while both workloads are alive. */
    method AnalyzerSlice(pid1: int, pid3: int, s: LoopState, r: Round) returns (s': LoopState, log: seq<Action>)
      requires s.p3Alive && s.p1Alive
      modifies this`stats
      ensures Step(s', log) == AnalyzerQuantum(pid1, pid3, s, r)
      ensures stats == ApplySaves(old(stats), log)
    {
      log := [Resume(pid3), Sleep(AnalyzerQuantumSeconds), Poll(pid3)];
      ApplySavesSkips(old(stats), [], log);
      assert [] + log == log;
      if r.p3Exited {
        ghost var head := log;
        log := SaveTwice(AnalyzerPath, pid3, r.p3Exit, [ForceKill(pid1), BlockingWait(pid1)], ReceiverPath, pid1, r.p1Exit, log, old(stats));
        AppendFour(head, Save(AnalyzerPath, SlotOf(pid3, r.p3Exit)), ForceKill(pid1), BlockingWait(pid1), Save(ReceiverPath, SlotOf(pid1, r.p1Exit)));
        s' := LoopState(false, false, NextReading(s.last, r.p3Output));
      } else {
        ApplySavesSkips(old(stats), log, [Suspend(pid3)]);
        log := log + [Suspend(pid3)];
        s' := s.(last := NextReading(s.last, r.p3Output));
      }
    }

    /** The clean-up poll of the analyzer once the receiver has ended. */
    method CleanupPoll(pid1: int, pid3: int, s: LoopState, r: Round) returns (s': LoopState, log: seq<Action>)
      requires s.p3Alive && !s.p1Alive
      modifies this`stats
      ensures Step(s', log) == AnalyzerQuantum(pid1, pid3, s, r)
      ensures stats == ApplySaves(old(stats), log)
    {
      s' := s;
      log := [Poll(pid3)];
      ApplySavesSkips(old(stats), [], log);
      assert [] + log == log;
      if r.p3ExitedLate {
        s' := s'.(p3Alive := false);
        log := SaveAndLog(AnalyzerPath, pid3, r.p3Exit, log, old(stats));
      }
    }

    /** The analyzer's quantum, or the clean-up poll, of one round of protocol 2. */
    method AnalyzerTurn(pid1: int, pid3: int, s: LoopState, r: Round) returns (s': LoopState, log: seq<Action>)
      modifies this`stats
      ensures Step(s', log) == AnalyzerQuantum(pid1, pid3, s, r)
      ensures stats == ApplySaves(old(stats), log)
    {
      if s.p3Alive && s.p1Alive {
        s', log := AnalyzerSlice(pid1, pid3, s, r);
      } else if s.p3Alive {
        s', log := CleanupPoll(pid1, pid3, s, r);
      } else {
        s', log := s, [];
      }
    }

    /** The shield evaluation of one round of protocol 2. */
    method ShieldTurn(s: LoopState, r: Round) returns (s': LoopState, log: seq<Action>)
      modifies this`stats
      ensures Step(s', log) == ShieldEvaluation(s, r)
      ensures stats == ApplySaves(old(stats), log)
    {
      s' := s;
      log := [];
      if s.p1Alive && s.p3Alive {
        var arg := ShieldArg(s.last);
        if arg.Some? {
          var wait := EsperarProceso(r.shieldPid, ShieldPath, 0, [], r.shieldExit);
          log := [Launch(ShieldPath, arg)] + wait;
          ApplySavesSkips(old(stats), [], [Launch(ShieldPath, arg)]);
          ApplySavesConcat(old(stats), [Launch(ShieldPath, arg)], wait);
          assert [] + [Launch(ShieldPath, arg)] == [Launch(ShieldPath, arg)];
          s' := s'.(last := -1);
        }
      }
    }

    /** One round of protocol 2: the receiver's quantum, the analyzer's, and the shield evaluation. */
    method RoundTurn(pid1: int, pid3: int, s: LoopState, r: Round) returns (s': LoopState, log: seq<Action>)
      modifies this`stats
      ensures Step(s', log) == RoundStep(pid1, pid3, s, r)
      ensures stats == ApplySaves(old(stats), log)
    {
      var s1, a := ReceiverTurn(pid1, pid3, s, r);
      var s2, b := AnalyzerTurn(pid1, pid3, s1, r);
      var c;
      s', c := ShieldTurn(s2, r);
      ApplySavesConcat(old(stats), a, b);
      ApplySavesConcat(old(stats), a + b, c);
      log := a + b + c;
    }

    /**
     * Protocol 2: the scheduling loop, run while either workload is alive
     * and the operating system has reported on the round; `finished` says
     * whether both workloads ended.
     */
    method EjecutarEscenario2(o: ConcurrentOracle) returns (log: seq<Action>, finished: bool)
      modifies this`stats
      ensures log == ConcurrentLog(o)
      ensures finished == !Running(Run(o.pid1, o.pid3, Initial, o.rounds).state)
      ensures stats == ApplySaves(old(stats), log)
    {
      log := [Launch(ReceiverPath, None), Launch(AnalyzerPath, None), Suspend(o.pid3)];
      ApplySavesSkips(old(stats), [], log);
      assert [] + log == log;
      ghost var head := log;
      var p1Alive, p3Alive, last := true, true, -1;
      var i := 0;
      assert o.rounds[0..] == o.rounds;
      while (p1Alive || p3Alive) && i < |o.rounds|
        invariant 0 <= i <= |o.rounds|
        invariant stats == ApplySaves(old(stats), log)
        invariant var rest := Run(o.pid1, o.pid3, LoopState(p1Alive, p3Alive, last), o.rounds[i..]);
          head + Run(o.pid1, o.pid3, Initial, o.rounds).actions == log + rest.actions
          && Run(o.pid1, o.pid3, Initial, o.rounds).state == rest.state
        decreases |o.rounds| - i
      {
        var s := LoopState(p1Alive, p3Alive, last);
        var s', a := RoundTurn(o.pid1, o.pid3, s, o.rounds[i]);
        RunInvariantStep(o.pid1, o.pid3, head, Run(o.pid1, o.pid3, Initial, o.rounds), log, s, o.rounds, i, s', a);
        ApplySavesConcat(old(stats), log, a);
        log := log + a;
        p1Alive, p3Alive, last := s'.p1Alive, s'.p3Alive, s'.last;
        i := i + 1;
      }
      RunStopped(o.pid1, o.pid3, LoopState(p1Alive, p3Alive, last), o.rounds[i..]);
      assert log + [] == log;
      finished := !(p1Alive || p3Alive);
    }

    /** `ejecutar_escenario`: run the selected protocol. */
    method EjecutarEscenario(o: ScenarioOracle) returns (log: seq<Action>)
      modifies this`stats
      ensures log == ProtocolLog(scenario, o)
      ensures stats == ApplySaves(old(stats), log)
    {
      match scenario
      case 1 =>
        var analysis;
        log, analysis := EjecutarEscenario1(o.sequential);
      case 2 =>
        var finished;
        log, finished := EjecutarEscenario2(o.concurrent);
      case _ =>
        log := [];
    }

    /**
     * One pass of the main loop: prompt for a protocol when none is
     * selected; if one is, reset the statistics and run it; then record
     * the sequential baseline or report the speedup operands; count the cycle.
     */
    method Cycle(input: Option<int>, o: ScenarioOracle, cycleTime: real) returns (log: seq<Action>, speedup: Option<(real, real)>)
      requires Valid()
      modifies this
      ensures Valid()
      ensures scenario == if old(scenario) == 0 then Selection(input) else old(scenario)
      ensures scenario != 0 ==> log == ProtocolLog(scenario, o) && stats == ApplySaves(ZeroTable, log)
      ensures scenario == 0 ==> log == [] && stats == old(stats)
      ensures baseline == NextBaseline(scenario, old(baseline), cycleTime)
      ensures speedup == Speedup(scenario, old(baseline), cycleTime)
      ensures cycle == old(cycle) + 1
    {
      if scenario == 0 {
        scenario := Selection(input);
      }
      log := [];
      if scenario != 0 {
        InicializarCiclo();
        log := EjecutarEscenario(o);
      }
      speedup := None;
      if scenario == 1 {
        if baseline == 0.0 {
          baseline := cycleTime;
        }
      } else if scenario > 1 && baseline > 0.0 {
        speedup := Some((baseline, cycleTime));
      }
      cycle := cycle + 1;
    }
  }
}
