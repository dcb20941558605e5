/**
 * The liveness monitor `esperar_proceso`: wait for a workload either
 * unboundedly or under a timeout of one non-blocking poll per second,
 * escalating to SIGKILL and a final blocking reap when the timeout runs
 * out, and save the workload's statistics on every path.
 *
 * The operating system is replaced by oracles: `polls[k]` is whether the
 * (k+1)-th non-blocking poll finds the process exited (polls past the end
 * of the sequence find it still running), and `ExitInfo` is the wall time
 * and resource usage measured when the process is reaped.
 */
module Monitor {
  import opened Stats
  import opened Trace

  /** What is measured once a workload is reaped: `now - start` and its `rusage`. */
  datatype ExitInfo = ExitInfo(wallTime: real, usage: Usage)

  function SlotOf(pid: int, e: ExitInfo): Slot
  {
    Slot(pid, e.wallTime, e.usage)
  }

  /** Whether non-blocking poll number `k` (from 0) reports the process exited. */
  predicate Polled(polls: seq<bool>, k: nat)
  {
    k < |polls| && polls[k]
  }

  /** No poll numbered `k` to `k + n - 1` reports an exit. */
  ghost predicate NoExitWithin(polls: seq<bool>, k: nat, n: int)
  {
    forall j :: k <= j < k + n ==> !Polled(polls, j)
  }

  /**
   * The countdown of the timed wait with `remaining` seconds left, the next
   * poll being number `k`: poll; on exit stop; otherwise sleep a second and
   * count down; at zero, SIGKILL and a blocking reap.
   */
  function Countdown(pid: int, remaining: int, polls: seq<bool>, k: nat): seq<Action>
    decreases remaining
  {
    if remaining <= 0 then [ForceKill(pid), BlockingWait(pid)]
    else if Polled(polls, k) then [Poll(pid)]
    else [Poll(pid), Sleep(1)] + Countdown(pid, remaining - 1, polls, k + 1)
  }

  /** Everything `esperar_proceso(pid, name, timeout, ...)` does, in order. */
  function WaitLog(pid: int, name: string, timeout: int, polls: seq<bool>, e: ExitInfo): seq<Action>
  {
    (if timeout > 0 then Countdown(pid, timeout, polls, 0) else [BlockingWait(pid)])
    + [Save(name, SlotOf(pid, e))]
  }

  /** The countdown polls and sleeps at most `remaining` times and saves nothing. */
  lemma {:induction false} CountdownBounds(pid: int, remaining: nat, polls: seq<bool>, k: nat)
    ensures var log := Countdown(pid, remaining, polls, k);
      && Count(log, PollKind) <= remaining
      && Count(log, SleepKind) <= remaining
      && Count(log, SaveKind) == 0
    decreases remaining
  {
    if remaining > 0 && !Polled(polls, k) {
      var rest := Countdown(pid, remaining - 1, polls, k + 1);
      CountdownBounds(pid, remaining - 1, polls, k + 1);
      CountTwoCons(Poll(pid), Sleep(1), rest, PollKind);
      CountTwoCons(Poll(pid), Sleep(1), rest, SleepKind);
      CountTwoCons(Poll(pid), Sleep(1), rest, SaveKind);
    } else if remaining > 0 {
      CountCons(Poll(pid), [], PollKind);
      CountCons(Poll(pid), [], SleepKind);
      CountCons(Poll(pid), [], SaveKind);
      assert [Poll(pid)] + [] == [Poll(pid)];
    } else {
      CountTwoCons(ForceKill(pid), BlockingWait(pid), [], PollKind);
      CountTwoCons(ForceKill(pid), BlockingWait(pid), [], SleepKind);
      CountTwoCons(ForceKill(pid), BlockingWait(pid), [], SaveKind);
      assert [ForceKill(pid), BlockingWait(pid)] + [] == [ForceKill(pid), BlockingWait(pid)];
    }
  }

  /**
   * The countdown sends SIGKILL, exactly once and matched by exactly one
   * blocking reap, precisely when none of its polls finds the process exited.
   */
  lemma {:induction false} CountdownKills(pid: int, remaining: nat, polls: seq<bool>, k: nat)
    ensures var log := Countdown(pid, remaining, polls, k);
      && Count(log, KillKind) == (if NoExitWithin(polls, k, remaining) then 1 else 0)
      && Count(log, WaitKind) == Count(log, KillKind)
    decreases remaining
  {
    if remaining > 0 && !Polled(polls, k) {
      var rest := Countdown(pid, remaining - 1, polls, k + 1);
      CountdownKills(pid, remaining - 1, polls, k + 1);
      CountTwoCons(Poll(pid), Sleep(1), rest, KillKind);
      CountTwoCons(Poll(pid), Sleep(1), rest, WaitKind);
      assert NoExitWithin(polls, k, remaining) <==> NoExitWithin(polls, k + 1, remaining - 1);
    } else if remaining > 0 {
      assert !NoExitWithin(polls, k, remaining);
      CountCons(Poll(pid), [], KillKind);
      CountCons(Poll(pid), [], WaitKind);
      assert [Poll(pid)] + [] == [Poll(pid)];
    } else {
      CountTwoCons(ForceKill(pid), BlockingWait(pid), [], KillKind);
      CountTwoCons(ForceKill(pid), BlockingWait(pid), [], WaitKind);
      assert [ForceKill(pid), BlockingWait(pid)] + [] == [ForceKill(pid), BlockingWait(pid)];
    }
  }

  /** When no poll finds the process exited, all `remaining` polls happen and the log ends with SIGKILL and the reap. */
  lemma {:induction false} CountdownTimesOut(pid: int, remaining: nat, polls: seq<bool>, k: nat)
    requires NoExitWithin(polls, k, remaining)
    ensures var log := Countdown(pid, remaining, polls, k);
      && |log| >= 2 && Count(log, PollKind) == remaining
      && log[|log| - 2] == ForceKill(pid) && log[|log| - 1] == BlockingWait(pid)
    decreases remaining
  {
    if remaining > 0 {
      assert !Polled(polls, k);
      assert NoExitWithin(polls, k + 1, remaining - 1);
      var rest := Countdown(pid, remaining - 1, polls, k + 1);
      var log := Countdown(pid, remaining, polls, k);
      assert log == [Poll(pid), Sleep(1)] + rest;
      CountdownTimesOut(pid, remaining - 1, polls, k + 1);
      CountTwoCons(Poll(pid), Sleep(1), rest, PollKind);
      assert log[|log| - 1] == rest[|rest| - 1] && log[|log| - 2] == rest[|rest| - 2];
    } else {
      CountTwoCons(ForceKill(pid), BlockingWait(pid), [], PollKind);
      assert [ForceKill(pid), BlockingWait(pid)] + [] == [ForceKill(pid), BlockingWait(pid)];
    }
  }

  /**
   * When poll number `j` is the first within the timeout that finds the
   * process exited, the wait stops right there: exactly the polls up to and
   * including `j`, a sleep after each earlier one, no kill, and the log ends
   * with that poll.
   */
  lemma {:induction false} CountdownExits(pid: int, remaining: nat, polls: seq<bool>, k: nat, j: nat)
    requires k <= j < k + remaining && Polled(polls, j) && NoExitWithin(polls, k, j - k)
    ensures var log := Countdown(pid, remaining, polls, k);
      && log != [] && log[|log| - 1] == Poll(pid)
      && Count(log, PollKind) == j - k + 1
      && Count(log, SleepKind) == j - k
      && Count(log, KillKind) == 0
    decreases remaining
  {
    if j == k {
      CountCons(Poll(pid), [], PollKind);
      CountCons(Poll(pid), [], SleepKind);
      CountCons(Poll(pid), [], KillKind);
      assert [Poll(pid)] + [] == [Poll(pid)];
    } else {
      assert !Polled(polls, k);
      assert NoExitWithin(polls, k + 1, j - (k + 1));
      var rest := Countdown(pid, remaining - 1, polls, k + 1);
      var log := Countdown(pid, remaining, polls, k);
      assert log == [Poll(pid), Sleep(1)] + rest;
      CountdownExits(pid, remaining - 1, polls, k + 1, j);
      CountTwoCons(Poll(pid), Sleep(1), rest, PollKind);
      CountTwoCons(Poll(pid), Sleep(1), rest, SleepKind);
      CountTwoCons(Poll(pid), Sleep(1), rest, KillKind);
      assert log[|log| - 1] == rest[|rest| - 1];
    }
  }

  /**
   * On every path the monitor ends with exactly one save of this pid's
   * statistics under `name`. With a timeout T > 0 it polls at most T times,
   * and sends SIGKILL (exactly once, then reaps exactly once) precisely when
   * none of the T polls sees the process exit; with T <= 0 it does a single
   * blocking reap and nothing else.
   */
  lemma WaitLogShape(pid: int, name: string, timeout: int, polls: seq<bool>, e: ExitInfo)
    ensures var log := WaitLog(pid, name, timeout, polls, e);
      && log[|log| - 1] == Save(name, SlotOf(pid, e))
      && Count(log, SaveKind) == 1
      && (timeout <= 0 ==> log == [BlockingWait(pid), Save(name, SlotOf(pid, e))])
      && (timeout > 0 ==>
            && Count(log, PollKind) <= timeout
            && Count(log, KillKind) == Count(log, WaitKind) == (if NoExitWithin(polls, 0, timeout) then 1 else 0))
  {
    var save := [Save(name, SlotOf(pid, e))];
    if timeout > 0 {
      var c := Countdown(pid, timeout, polls, 0);
      CountdownBounds(pid, timeout, polls, 0);
      CountdownKills(pid, timeout, polls, 0);
      CountConcat(c, save, PollKind);
      CountConcat(c, save, SleepKind);
      CountConcat(c, save, SaveKind);
      CountConcat(c, save, KillKind);
      CountConcat(c, save, WaitKind);
      CountPair(Save(name, SlotOf(pid, e)), Save(name, SlotOf(pid, e)), SaveKind);
    } else {
      CountPair(BlockingWait(pid), Save(name, SlotOf(pid, e)), SaveKind);
    }
  }

  /** The monitor changes the statistics table exactly as one save for this pid does. */
  lemma {:induction false} WaitLogSaves(t: StatsTable, pid: int, name: string, timeout: int, polls: seq<bool>, e: ExitInfo)
    ensures ApplySaves(t, WaitLog(pid, name, timeout, polls, e)) == Saved(t, name, SlotOf(pid, e))
  {
    var c := if timeout > 0 then Countdown(pid, timeout, polls, 0) else [BlockingWait(pid)];
    if timeout > 0 {
      CountdownBounds(pid, timeout, polls, 0);
    } else {
      CountPair(BlockingWait(pid), BlockingWait(pid), SaveKind);
    }
    NoSavesNoChange(t, c);
    var log := WaitLog(pid, name, timeout, polls, e);
    assert log[..|log| - 1] == c;
  }

  /** A log with no save leaves the table as it was. */
  lemma {:induction false} NoSavesNoChange(t: StatsTable, log: seq<Action>)
    requires Count(log, SaveKind) == 0
    ensures ApplySaves(t, log) == t
    decreases |log|
  {
    if log != [] {
      var init := log[..|log| - 1];
      assert log == init + [log[|log| - 1]];
      CountConcat(init, [log[|log| - 1]], SaveKind);
      NoSavesNoChange(t, init);
    }
  }
}
