# Mission orchestrator kernel and telemetry generator, modelled in Dafny

The orchestrator (`kernel.c`) runs three satellite workloads as separate
processes: P1, the Signal Receiver; P2, the Shield Control; and P3, the
Spectral Analyzer. It drives them under two protocols:

- **Protocol 1 (sequential).** Launch all three and pause P2 and P3. Wait for
  P1. Resume P2 and wait for it. Resume P3 and wait for it under a 5-second
  timeout. Finally read the analyzer's summary from its pipe.
- **Protocol 2 (concurrent).** A scheduling loop. P1 gets 10-second quanta.
  P3 gets 5-second quanta, and the latest temperature is parsed out of its
  output. A reactive rule launches P2 with "1" or "0" depending on that
  reading.

Around these sit three pieces of bookkeeping:

- a per-role statistics table (pid, wall time, resource usage), filled by
  `guardar_stats_proceso` after recognising the role by a substring of the
  program path;
- a liveness monitor, `esperar_proceso`, that polls once a second under a
  timeout and escalates to SIGKILL;
- the main loop's bookkeeping: protocol selection, the SIGTSTP reset, and the
  sequential baseline used for the speedup.

The telemetry generator (`generador.c`) writes 40 temperatures. They form a
clamped random walk with a hysteresis flag.

## How the model is built

- The operating system is replaced by oracle values:
  - whether a poll finds a process exited;
  - the pid a launch gets;
  - the wall time and `rusage` measured when a process is reaped;
  - the bytes waiting in a pipe.
- Every operation that talks to the system returns the log of actions it
  performed: launch, SIGCONT, SIGSTOP, SIGKILL, sleep, non-blocking poll,
  blocking reap and statistics save.
- The statistics table is always exactly what the logged saves make of the
  table, applied in order (`Trace.ApplySaves`). Specification functions in
  `Monitor`, `Scheduler` and `Kernel` say which log each operation must
  produce.
- The static variables of `kernel.c` are the fields of the class
  `Kernel.Orchestrator`. Its methods update those fields and are proved
  against the specification functions. The loops of `esperar_proceso`, of
  protocol 2 and of the generator stay loops, with their invariants.

Modules, leaf first:

- `Wrappers`: the Option type.
- `CText`: `strstr`, `isspace`, `atoi` and `%d`.
- `Tokens`: C strings and `strtok`.
- `Stats`: roles, slots and the table.
- `Trace`: the action log.
- `Monitor`: `esperar_proceso`.
- `Analysis`: pipe reads, the reading and the shield rule.
- `Scheduler`: protocol 2's loop as a state machine.
- `Kernel`: protocols, dispatch, main-loop bookkeeping and the class.
- `Generator`: `generador.c`.

### Behaviour taken from the code

The workloads' protocols are easy to read more generously than the code
implements them. The model follows the code:

- **Shield rule.** The shield is not launched on every iteration. The code
  launches it only:
  - with "1" for a reading above 90;
  - with "0" for a reading below 60 that is not the sentinel -1.

  Readings from 60 to 90, and -1, launch nothing (`kernel.c:733-742`).
- **Analyzer quantum.** Not every live workload gets a quantum in turn. The
  code gives P3 a quantum only while both P1 and P3 are alive. Otherwise it
  does a single clean-up poll (`kernel.c:641-723`). Because the two alive
  flags are always equal at the loop head, that clean-up branch never runs
  (`Scheduler.RoundKeepsFlagsEqual`).
- **Reset handler.** The reset does not clear accumulated metrics.
  `reiniciar_escenario` only sets the protocol back to 0 and the cycle
  counter back to 1 (`kernel.c:814-820`). The sequential baseline survives a
  reset.
- **No further bookkeeping.** The code keeps no metrics window, writes no
  JSON reports, and counts neither pauses nor signals.
- **Protocol 1's final read.** A killed analyzer does not necessarily yield 0.
  `leer_datos_p3` reads whatever the analyzer left in the pipe, whether it
  was killed or not, and the result is unused (`kernel.c:467`).
  `EjecutarEscenario1` returns it.
- **Cycle counter.** The counter advances on every pass of the main loop,
  including passes where no protocol was selected (`kernel.c:881`).

## Model

| member | source | states |
|---|---|---|
| CText.Contains | kernel.c:62-79 | `strstr(hay, needle) != NULL` as a recursive search over suffixes; what it decides is stated by `CText.ContainsIffOccurs` |
| CText.Atoi | kernel.c:668 | `atoi`: skip white space, one optional sign, then the longest digit run; its meaning is stated by `CText.AtoiOfDecimal`, `CText.AtoiOfDigits` and `CText.AtoiIgnoresTrailingNonDigit` |
| CText.ContainsIffOccurs | kernel.c:62-79 | the substring search `strstr` used for role dispatch succeeds exactly when the needle occurs at some position of the path |
| CText.DigitRun | kernel.c:295 | the digits `atoi` converts are the longest prefix made of decimal digits, stopped by the first non-digit |
| CText.NatDigits | generador.c:37 | `%d` of a natural number writes a non-empty string of digits |
| CText.Decimal | generador.c:37 | `%d` writes a non-empty string that does not start with white space |
| CText.DigitsValueOfNatDigits | generador.c:37 | the digits `%d` writes for n, read back in base 10, are n |
| CText.AtoiOfDigits | kernel.c:668 | `atoi` of a digit run followed by a non-digit or by nothing is the run's value |
| CText.AtoiOfDecimal | kernel.c:295 | `atoi` reads back exactly the integer `%d` wrote, whatever non-digit text follows it |
| CText.AtoiIgnoresTrailingNonDigit | kernel.c:289-295 | appending a non-digit character such as the newline never changes the value `atoi` reads |
| Tokens.CString | kernel.c:652 | the C string in a buffer is a prefix of it with no NUL, and it is cut at a NUL whenever it is shorter than the buffer |
| Tokens.CStringWhole | kernel.c:652 | a buffer without a NUL is read whole as a C string |
| Tokens.SkipDelims | kernel.c:658 | what `strtok` steps over leaves a text that is empty or starts with a non-delimiter |
| Tokens.SkipDelimsSpec | kernel.c:658 | `strtok` skips exactly a prefix made of delimiters " \n\r\t" and continues on the rest of the text |
| Tokens.TokenRun | kernel.c:658 | a token started at a non-delimiter is not empty |
| Tokens.TokenRunSpec | kernel.c:658-663 | a token is a prefix without delimiters, ended by a delimiter or by the end of the text |
| Tokens.Tokens | kernel.c:657-664 | the tokens successive `strtok(.., " \n\r\t")` calls return, in order; characterised by `Tokens.TokensEmptyIff` and `Tokens.LastTokenSpec` |
| Tokens.LastToken | kernel.c:657-664 | the token the extraction loop keeps last, if any; characterised in both directions by `Tokens.LastTokenSpec` |
| Tokens.TokensEmptyIff | kernel.c:657-664 | the tokenising loop finds no token exactly when the chunk holds nothing but delimiters |
| Tokens.LastTokenIsLastRun | kernel.c:657-664 | the last token the loop keeps is the last maximal run of non-delimiters of the chunk |
| Tokens.LastRunUnique | kernel.c:657-664 | a text has only one last maximal run of non-delimiters |
| Tokens.LastTokenSpec | kernel.c:657-670 | no token exactly when the text is all delimiters; otherwise the kept token is the text's last maximal run of non-delimiters, in both directions |
| Stats.RoleOf | kernel.c:62-79 | the role `guardar_stats_proceso` recognises a path as, testing "proceso1", "proceso2", "proceso3" in that order; characterised by `Stats.RoleOfSpec` |
| Stats.RoleOfSpec | kernel.c:62-79 | a path gets no role exactly when it contains none of "proceso1/2/3"; otherwise it contains its role's tag and none tested earlier (first match wins, in the order 1, 2, 3) |
| Stats.ReceiverPathRole | kernel.c:601 | the receiver's path "./code/escenariosBasicos/proceso1" is recognised as the receiver |
| Stats.RoleOfTagged | kernel.c:62-79 | a path whose only 'p' starts "proceso" followed by 1, 2 or 3 is recognised by that digit, whatever follows the digit |
| Stats.ShieldPathRole | kernel.c:759 | the shield's path is recognised as the shield |
| Stats.AnalyzerPathRole | kernel.c:626 | the analyzer's path is recognised as the analyzer |
| Stats.NombreLegible | kernel.c:116-125 | the readable name is the label of the role the path is recognised as, or the path itself when it matches no role |
| Stats.StatsTable.Set | kernel.c:64-78 | writing a role's slot sets that slot and leaves the other two unchanged |
| Stats.Saved | kernel.c:59-80 | the table after `guardar_stats_proceso`; characterised by `Stats.SavedSpec` |
| Stats.SavedSpec | kernel.c:59-80 | a save overwrites only the slot of the role the name is recognised as; a name of no role leaves the table unchanged |
| Trace.ApplySavesConcat | kernel.c:59-80 | the table after two logs in turn is the table after the first, updated by the second |
| Trace.ApplySavesUntouched | kernel.c:59-80 | a log that never saves under a role's path leaves that role's slot as it was |
| Trace.ApplySavesSkips | kernel.c:59-80 | actions other than saves never change the table |
| Monitor.Countdown | kernel.c:212-239 | the actions of the timed wait: poll, stop on exit, else sleep a second; at the end of the timeout SIGKILL and a blocking reap; its properties are `Monitor.CountdownBounds`, `Monitor.CountdownKills`, `Monitor.CountdownTimesOut` and `Monitor.CountdownExits` |
| Monitor.WaitLog | kernel.c:205-255 | everything `esperar_proceso` does, in order: the timed or blocking wait, then the save; its properties are `Monitor.WaitLogShape` and `Monitor.WaitLogSaves` |
| Monitor.CountdownBounds | kernel.c:215-229 | the timed wait polls and sleeps at most T times and saves nothing |
| Monitor.CountdownKills | kernel.c:215-235 | SIGKILL is sent exactly once, followed by exactly one blocking reap, precisely when none of the T polls sees the exit, and never otherwise |
| Monitor.CountdownTimesOut | kernel.c:215-235 | when no poll sees the exit, all T polls happen and the wait ends with SIGKILL then the reap |
| Monitor.CountdownExits | kernel.c:215-229 | when poll j is the first within the timeout to see the exit, the wait stops at that poll: exactly j + 1 polls, a sleep after each earlier one, no SIGKILL, and the log ends with that poll |
| Monitor.WaitLogShape | kernel.c:205-255 | on every path `esperar_proceso` ends with exactly one save for that pid; with T > 0, at most T polls and one kill plus one reap exactly when no poll sees the exit; with T <= 0, a single blocking reap |
| Monitor.WaitLogSaves | kernel.c:252-254 | `esperar_proceso` changes the table exactly as one save of that pid's measurement does |
| Analysis.ReadChunk | kernel.c:649 | a read takes a prefix of the waiting bytes, as many as are there up to the buffer limit |
| Analysis.LeerDatosP3 | kernel.c:277-305 | no bytes yield 0; otherwise the value is `atoi` of at most the first 127 bytes, the trailing newline making no difference |
| Analysis.StripNewlineKeepsValue | kernel.c:289-290 | dropping one trailing newline does not change what `atoi` reads |
| Analysis.LeerDatosP3RoundTrip | kernel.c:277-305 | an analyzer that prints `%d\n` is read back exactly, whatever follows, whenever its digits fit in the 127 bytes read, including when they fill them and the newline is cut off |
| Analysis.NextReading | kernel.c:647-670 | the reading after one quantum: read a chunk, cut it at a NUL, keep `atoi` of the last token or the previous reading; characterised by `Analysis.NextReadingSpec` |
| Analysis.NextReadingSpec | kernel.c:647-670 | a chunk that is all delimiters keeps the previous reading; otherwise the reading becomes `atoi` of the chunk's last maximal run of non-delimiters |
| Analysis.NextReadingOfLastLine | kernel.c:647-670 | a chunk ending with the line `"n\n"` for a natural n makes n the reading when the text before it has no NUL, is empty or ends in a delimiter, and the whole chunk fits the 1023-byte read |
| Analysis.ShieldArg | kernel.c:733-742 | "1" exactly for readings above 90; "0" exactly for readings below 60 other than -1; no launch exactly for 60..90 and for -1 |
| Scheduler.ReceiverQuantum | kernel.c:583-637 | P1's quantum: resume, sleep 10, poll; on exit save P1 and reap and save a still-running P3; otherwise pause P1; its properties are `Scheduler.ReceiverQuantumSaves` |
| Scheduler.AnalyzerQuantum | kernel.c:639-723 | P3's quantum while both are alive (resume, sleep 5, take the reading, poll; on exit save P3 and kill, reap and save P1; otherwise pause P3), else the clean-up poll; its properties are `Scheduler.AnalyzerQuantumSaves` |
| Scheduler.ShieldEvaluation | kernel.c:725-767 | the shield phase: when both are alive and the rule gives an argument, launch the shield with it, wait for it without a timeout and reset the reading to -1; its properties are `Scheduler.ShieldEvaluationSaves` |
| Scheduler.RoundStep | kernel.c:581-768 | one iteration of the loop: the three phases in order; its properties are `Scheduler.RoundKeepsFlagsEqual`, `Scheduler.RoundLaunch` and `Scheduler.RoundSaves` |
| Scheduler.Run | kernel.c:575-768 | the loop run while either workload is alive, over the rounds the system reports; its properties are `Scheduler.RunSaves` and `Scheduler.FinishedRunSavesEach` |
| Scheduler.ReceiverQuantumSaves | kernel.c:583-637 | P1's quantum launches nothing, never saves the shield, and saves P1 or P3 exactly when it drops that workload's alive flag |
| Scheduler.AnalyzerQuantumSaves | kernel.c:639-723 | P3's quantum, or the clean-up poll, launches nothing, never saves the shield, and saves P1 or P3 exactly when it drops that workload's alive flag |
| Scheduler.ShieldEvaluationSaves | kernel.c:725-767 | the shield is launched, and its statistics saved, once exactly when both workloads are alive and the rule gives an argument; P1 and P3 are never saved here |
| Scheduler.RoundKeepsFlagsEqual | kernel.c:581-768 | with equal alive flags at the loop head, one iteration leaves them equal (both alive or both ended); so the clean-up poll never runs and its outcome never matters |
| Scheduler.RoundLaunch | kernel.c:581-768 | at most one shield launch per iteration, exactly when both workloads survive their quanta and the reading taken this iteration gives an argument; the launch carries that argument and leaves the reading at -1 |
| Scheduler.RoundSaves | kernel.c:581-768 | an iteration saves P1 and P3 exactly when it ends them, and saves the shield once per launch |
| Scheduler.RunSaves | kernel.c:575-768 | over the whole loop the flags stay equal, P1 and P3 are each saved exactly once if the loop ends them, and the shield is saved once per launch, with no more launches than reported rounds (the per-iteration bound is `Scheduler.RoundLaunch`) |
| Scheduler.FinishedRunSavesEach | kernel.c:575-768 | a loop that finishes has saved P1 and P3 exactly once each |
| Kernel.SequentialLog | kernel.c:337-468 | protocol 1's actions: launch three, pause P2 and P3, wait for P1, resume and wait for P2, resume P3 and wait for it under the 5-second timeout; its property is `Kernel.SequentialFillsTable` |
| Kernel.ConcurrentLog | kernel.c:476-772 | protocol 2's actions: launch P1 and P3, pause P3, run the loop; its property is `Kernel.ConcurrentSavesEach` |
| Kernel.ProtocolLog | kernel.c:785-808 | dispatch: protocol 1 or 2, nothing for any other number; performed by `Kernel.Orchestrator.EjecutarEscenario` |
| Kernel.ApplySavesThree | kernel.c:440-464 | three waits separated by pieces that save nothing change the table as the three waits do, in turn |
| Kernel.SavedAllThree | kernel.c:444-464 | saving under the receiver's, the shield's and the analyzer's paths in turn fills the three slots with those measurements, whatever the table held |
| Kernel.SequentialFillsTable | kernel.c:337-468 | after protocol 1 every slot holds its own workload's measurement |
| Kernel.ConcurrentSavesEach | kernel.c:476-772 | a protocol-2 run that finishes saves P1 and P3 exactly once each, and the shield once per launch beyond the two initial launches, with no more such launches than reported rounds |
| Kernel.Selection | kernel.c:837-845 | the kept protocol lies in 0..4; it is nonzero exactly when an integer in 1..4 was read, and is then that integer |
| Kernel.NextBaseline | kernel.c:865-873 | the baseline changes only on a protocol-1 cycle while it is still 0.0, and then becomes that cycle's time |
| Kernel.Speedup | kernel.c:874-879 | speedup operands are produced exactly for protocols above 1 once the baseline is positive, with the baseline as numerator |
| Kernel.BaselineSticks | kernel.c:865-873 | once set, the baseline never changes again, over any series of cycles |
| Kernel.BaselineIsFirstSequentialTime | kernel.c:865-873 | starting unset, the baseline after any series of cycles is the time of the first protocol-1 cycle that measured a nonzero time |
| Kernel.Orchestrator.constructor | kernel.c:37-50 | the statics start with an empty table, no protocol selected, cycle 1 and baseline 0.0 |
| Kernel.Orchestrator.GuardarStatsProceso | kernel.c:59-80 | the table becomes the saved table: only the slot of the recognised role changes |
| Kernel.Orchestrator.InicializarCiclo | kernel.c:98-109 | all three pids, wall times and usage records become zero |
| Kernel.Orchestrator.ReiniciarEscenario | kernel.c:814-820 | the selection goes back to 0 and the cycle counter back to 1; nothing else changes |
| Kernel.Orchestrator.PollUntilExit | kernel.c:212-239 | the polling loop performs exactly the countdown: poll, stop on exit, else sleep a second; at the end of the timeout, SIGKILL and a blocking reap |
| Kernel.Orchestrator.EsperarProceso | kernel.c:205-255 | `esperar_proceso` performs exactly the monitor's log, and the table becomes what that log's single save makes of it |
| Kernel.Orchestrator.EjecutarEscenario1 | kernel.c:337-468 | protocol 1 performs exactly the sequential log, the table ends holding each workload's own measurement, and the final read is `leer_datos_p3` of the analyzer's output |
| Kernel.Orchestrator.ReceiverTurn | kernel.c:583-637 | P1's quantum does exactly what the receiver-quantum specification says, and the table follows its saves |
| Kernel.Orchestrator.AnalyzerSlice | kernel.c:641-707 | P3's quantum while both are alive follows the analyzer-quantum specification, including the reading taken from its output |
| Kernel.Orchestrator.CleanupPoll | kernel.c:709-723 | the clean-up poll follows the analyzer-quantum specification |
| Kernel.Orchestrator.AnalyzerTurn | kernel.c:639-723 | the analyzer phase of an iteration follows its specification in every state |
| Kernel.Orchestrator.ShieldTurn | kernel.c:725-767 | the shield phase launches and waits for the shield exactly as the shield-evaluation specification says, resetting the reading to -1 |
| Kernel.Orchestrator.RoundTurn | kernel.c:581-768 | one iteration of the loop performs exactly one round of the state machine, and the table follows its saves |
| Kernel.Orchestrator.EjecutarEscenario2 | kernel.c:476-772 | protocol 2 performs exactly the concurrent log over the reported rounds, reports whether both workloads ended, and the table follows the saves |
| Kernel.Orchestrator.EjecutarEscenario | kernel.c:785-808 | dispatch runs protocol 1 or 2 and does nothing for 3, 4 or any other number |
| Kernel.Orchestrator.Cycle | kernel.c:833-883 | one pass of the main loop: the prompt only while unselected; the table reset then filled by the protocol's saves; the baseline and speedup as specified; the cycle counter always advances |
| Generator.NextTemp | generador.c:21-34 | while active a step rises by 10..49 or reaches the cap 105, strictly rising below the cap; while inactive it falls by 10..49 or reaches the floor 45, strictly falling above the floor |
| Generator.Hysteresis | generador.c:40-43 | after writing, the flag is off above 90, on below 55, and unchanged from 55 to 90 |
| Generator.StepKeepsSafe | generador.c:16-43 | the loop-head invariant (in [45, 105]; active implies at most 90; inactive implies at least 55) survives every step |
| Generator.Walk | generador.c:19-44 | the temperatures the loop writes, one step and one hysteresis update per draw; its properties are `Generator.WalkBounds` and `Generator.WalkSnoc` |
| Generator.Render | generador.c:37 | the measurements file: one `%d\n` line per temperature; its property is `Generator.RenderLastLine` |
| Generator.WalkBounds | generador.c:19-44 | from a safe state every written temperature lies in [45, 105], consecutive values differ, and a value above 90 is followed by a fall, one below 55 by a rise |
| Generator.WalkSnoc | generador.c:19-44 | one more draw extends the walk by exactly one step from where it stood |
| Generator.RenderLastLine | generador.c:37 | writing one more temperature appends its decimal line to the file |
| Generator.WriteLine | generador.c:37 | `fprintf(f, "%d\n", temp)` appends the temperature and keeps the file equal to the rendering of all temperatures written |
| Generator.Generate | generador.c:14-44 | the generator writes exactly 40 temperatures, each in [45, 105], each the one the walk gives, and the file holds them as decimal lines in order |

## Left out

- Process control is modelled only through its effects. Launches (fork and
  execvp), SIGCONT, SIGSTOP, SIGKILL, `wait4` polls and reaps, and `sleep`
  appear as logged actions whose outcomes the system supplies. Pipe
  creation, the dup2 and close wiring, and `fcntl` are not modelled.
- The error exits are not modelled. The model assumes every launch and
  every pipe setup succeeds. The exits left out are:
  - the `exit(1)` when `pipe` fails (kernel.c:348-361, 493-506);
  - the `exit(1)` when `fcntl` fails (kernel.c:560-563);
  - the child's `exit(1)` when `execvp` fails (kernel.c:266-269);
  - the `return 1` when `fopen` fails (generador.c:7-12).

  A failed `fork` goes unchecked in the code and is not modelled either.
- `enviar_contenido_archivo_a_pipe` (kernel.c:312-329) is not modelled. It
  copies a file into a pipe, which is I/O only.
- The drain-read loop after P1 ends (kernel.c:609-617) is not modelled. It
  only prints what is left in P3's pipe.
- Printing is not modelled: `color_proceso`, `proceso_terminado`,
  `print_fila_tabla`, `mostrar_tabla_recursos`, ANSI colours and every
  message.
- `timeval_diff` and the speedup division are floating-point arithmetic.
  Times are opaque `real` values supplied by the system. `Kernel.Speedup`
  returns the two operands of the division and its guard, not the quotient.
- `ejecutar_escenario_3` and protocol 4 print only. They do nothing in the
  model.
- The asynchrony of the SIGTSTP handler and its `system("clear")` are not
  modelled. `ReiniciarEscenario` models only the handler's effect on the
  statics.
- The 10-second sleep between cycles is not modelled. It is timing only.
- Kernel.Orchestrator.Cycle: of the passes that prompt for a protocol, the
  model covers only those in which a newline follows the typed input. The flush loop after `scanf` (kernel.c:843-844)
  reads until a newline; at end of input `fgetc` returns EOF forever, so the
  source loops in that flush without running any protocol, while `Cycle`
  always finishes and advances the counter.
- `analizador_metricas.py` is not part of this model. It formats JSON files.
- `rand`/`srand` are not modelled. The draws `rand() % 40` are a parameter
  whose values lie in [0, 40).
- CText.Atoi: C's `int` range is not imposed. An out-of-range `atoi` is
  undefined in C, so values are unbounded integers.
- Analysis.ReadChunk: a pipe read is taken to return all waiting bytes up to
  the buffer limit. A read that returns fewer bytes is not modelled.
- Kernel.Orchestrator.EjecutarEscenario2: the loop runs only as many
  iterations as the system reports rounds for. A run whose workloads never
  end is covered for every finite prefix, not as an infinite execution.
- Monitor.Countdown: polls beyond the oracle's sequence report "still
  running". A failed `wait4` (returning -1) is treated like one that finds
  the process still running.
- The `rusage` record is reduced to the fields the orchestrator reports
  (kernel.c:163-173): user and system CPU time and peak memory.
