/**
 * The orchestrator's dealings with the operating system, recorded as a log
 * of actions: process launches, signals, sleeps, waits and the statistics
 * it saves. The statistics table is whatever the logged saves make of it.
 */
module Trace {
  import opened Wrappers
  import opened Stats

  datatype Action =
    | Launch(path: string, arg: Option<string>)  // fork + execvp of a workload, with its optional argument
    | Resume(pid: int)                           // kill(pid, SIGCONT)
    | Suspend(pid: int)                          // kill(pid, SIGSTOP)
    | ForceKill(pid: int)                        // kill(pid, SIGKILL)
    | Sleep(seconds: nat)                        // sleep(seconds)
    | Poll(pid: int)                             // wait4(pid, ..., WNOHANG, ...)
    | BlockingWait(pid: int)                     // wait4(pid, ..., 0, ...)
    | Save(name: string, slot: Slot)             // guardar_stats_proceso(name, pid, wall time, usage)

  datatype Kind = LaunchKind | ResumeKind | SuspendKind | KillKind | SleepKind | PollKind | WaitKind | SaveKind

  function KindOf(a: Action): Kind
  {
    match a
    case Launch(_, _) => LaunchKind
    case Resume(_) => ResumeKind
    case Suspend(_) => SuspendKind
    case ForceKill(_) => KillKind
    case Sleep(_) => SleepKind
    case Poll(_) => PollKind
    case BlockingWait(_) => WaitKind
    case Save(_, _) => SaveKind
  }

  /** How many actions of a kind a log holds. */
  function Count(log: seq<Action>, k: Kind): nat
  {
    if log == [] then 0 else (if KindOf(log[0]) == k then 1 else 0) + Count(log[1..], k)
  }

  lemma {:induction false} CountConcat(a: seq<Action>, b: seq<Action>, k: Kind)
    ensures Count(a + b, k) == Count(a, k) + Count(b, k)
  {
    if a != [] {
      assert (a + b)[1..] == a[1..] + b;
      CountConcat(a[1..], b, k);
    } else {
      assert a + b == b;
    }
  }

  lemma CountPair(a: Action, b: Action, k: Kind)
    ensures Count([a], k) == (if KindOf(a) == k then 1 else 0)
    ensures Count([a, b], k) == (if KindOf(a) == k then 1 else 0) + (if KindOf(b) == k then 1 else 0)
  {
    assert [a][1..] == [];
    assert [a, b][1..] == [b];
    assert [b][1..] == [];
  }

  /** Counting one kind of action in a log that starts with `a`. */
  lemma CountCons(a: Action, rest: seq<Action>, k: Kind)
    ensures Count([a] + rest, k) == (if KindOf(a) == k then 1 else 0) + Count(rest, k)
  {
    assert ([a] + rest)[1..] == rest;
  }

  /** Counting one kind of action in a log that starts with `a` and `b`. */
  lemma CountTwoCons(a: Action, b: Action, rest: seq<Action>, k: Kind)
    ensures Count([a, b] + rest, k) == (if KindOf(a) == k then 1 else 0) + (if KindOf(b) == k then 1 else 0) + Count(rest, k)
  {
    CountCons(a, [b] + rest, k);
    CountCons(b, rest, k);
    assert [a] + ([b] + rest) == [a, b] + rest;
  }

  /** Counting one kind of action in logs of one, two and three actions. */
  lemma CountShort(a: Action, b: Action, c: Action, k: Kind)
    ensures Count([a], k) == (if KindOf(a) == k then 1 else 0)
    ensures Count([a, b], k) == Count([a], k) + (if KindOf(b) == k then 1 else 0)
    ensures Count([a, b, c], k) == Count([a, b], k) + (if KindOf(c) == k then 1 else 0)
  {
    CountCons(a, [], k);
    CountCons(b, [], k);
    CountCons(c, [], k);
    assert [a] + [] == [a] && [b] + [] == [b] && [c] + [] == [c];
    CountCons(a, [b], k);
    assert [a] + [b] == [a, b];
    CountCons(b, [c], k);
    assert [b] + [c] == [b, c];
    CountCons(a, [b, c], k);
    assert [a] + [b, c] == [a, b, c];
  }

  /** Counting the saves under one name in a log that starts with `a`. */
  lemma SavesNamedCons(a: Action, rest: seq<Action>, name: string)
    ensures SavesNamed([a] + rest, name) == (if a.Save? && a.name == name then 1 else 0) + SavesNamed(rest, name)
  {
    assert ([a] + rest)[1..] == rest;
  }

  /** Counting the saves under one name in logs of one, two and three actions. */
  lemma SavesNamedShort(a: Action, b: Action, c: Action, name: string)
    ensures SavesNamed([a], name) == (if a.Save? && a.name == name then 1 else 0)
    ensures SavesNamed([a, b], name) == SavesNamed([a], name) + (if b.Save? && b.name == name then 1 else 0)
    ensures SavesNamed([a, b, c], name) == SavesNamed([a, b], name) + (if c.Save? && c.name == name then 1 else 0)
  {
    SavesNamedCons(a, [], name);
    SavesNamedCons(b, [], name);
    SavesNamedCons(c, [], name);
    assert [a] + [] == [a] && [b] + [] == [b] && [c] + [] == [c];
    SavesNamedCons(a, [b], name);
    assert [a] + [b] == [a, b];
    SavesNamedCons(b, [c], name);
    assert [b] + [c] == [b, c];
    SavesNamedCons(a, [b, c], name);
    assert [a] + [b, c] == [a, b, c];
  }

  /** How many saves a log holds under exactly this program name. */
  function SavesNamed(log: seq<Action>, name: string): nat
  {
    if log == [] then 0
    else (if log[0].Save? && log[0].name == name then 1 else 0) + SavesNamed(log[1..], name)
  }

  lemma {:induction false} SavesNamedConcat(a: seq<Action>, b: seq<Action>, name: string)
    ensures SavesNamed(a + b, name) == SavesNamed(a, name) + SavesNamed(b, name)
  {
    if a != [] {
      assert (a + b)[1..] == a[1..] + b;
      SavesNamedConcat(a[1..], b, name);
    } else {
      assert a + b == b;
    }
  }

  /** A log that neither launches nor saves counts no launch and no save under any name. */
  lemma {:induction false} QuietLog(log: seq<Action>, name: string)
    requires forall i :: 0 <= i < |log| ==> !log[i].Save? && !log[i].Launch?
    ensures Count(log, LaunchKind) == 0 && SavesNamed(log, name) == 0
    decreases |log|
  {
    if log != [] {
      assert log == [log[0]] + log[1..];
      CountCons(log[0], log[1..], LaunchKind);
      SavesNamedCons(log[0], log[1..], name);
      QuietLog(log[1..], name);
    }
  }

  /** How many saves a log holds for a role's path. */
  function SavesFor(log: seq<Action>, role: Role): nat
  {
    if log == [] then 0
    else (if log[0].Save? && RoleOf(log[0].name) == Some(role) then 1 else 0) + SavesFor(log[1..], role)
  }

  lemma {:induction false} SavesForConcat(a: seq<Action>, b: seq<Action>, role: Role)
    ensures SavesFor(a + b, role) == SavesFor(a, role) + SavesFor(b, role)
  {
    if a != [] {
      assert (a + b)[1..] == a[1..] + b;
      SavesForConcat(a[1..], b, role);
    } else {
      assert a + b == b;
    }
  }

  /** The statistics table after the saves of a log, applied in order. */
  function ApplySaves(t: StatsTable, log: seq<Action>): StatsTable
  {
    if log == [] then t
    else
      var before := ApplySaves(t, log[..|log| - 1]);
      match log[|log| - 1]
      case Save(name, slot) => Saved(before, name, slot)
      case _ => before
  }

  lemma {:induction false} ApplySavesConcat(t: StatsTable, a: seq<Action>, b: seq<Action>)
    ensures ApplySaves(t, a + b) == ApplySaves(ApplySaves(t, a), b)
    decreases |b|
  {
    if b == [] {
      assert a + b == a;
    } else {
      assert (a + b)[..|a + b| - 1] == a + b[..|b| - 1];
      ApplySavesConcat(t, a, b[..|b| - 1]);
    }
  }

  /** A log without a save for a role leaves that role's slot as it was. */
  lemma {:induction false} ApplySavesUntouched(t: StatsTable, log: seq<Action>, role: Role)
    requires SavesFor(log, role) == 0
    ensures ApplySaves(t, log).Get(role) == t.Get(role)
    decreases |log|
  {
    if log != [] {
      var init := log[..|log| - 1];
      assert log == init + [log[|log| - 1]];
      SavesForConcat(init, [log[|log| - 1]], role);
      ApplySavesUntouched(t, init, role);
      if log[|log| - 1].Save? {
        SavedSpec(ApplySaves(t, init), log[|log| - 1].name, log[|log| - 1].slot);
      }
    }
  }

  /** One more action: a save updates the table, anything else leaves it. */
  lemma ApplySavesSnoc(t: StatsTable, log: seq<Action>, a: Action)
    ensures ApplySaves(t, log + [a]) == if a.Save? then Saved(ApplySaves(t, log), a.name, a.slot) else ApplySaves(t, log)
  {
    assert (log + [a])[..|log + [a]| - 1] == log;
  }

  /** Whether a log holds no save at all. */
  predicate NoSave(piece: seq<Action>)
  {
    forall i :: 0 <= i < |piece| ==> !piece[i].Save?
  }

  /** Actions other than saves leave the table as it was. */
  lemma {:induction false} ApplySavesSkips(t: StatsTable, log: seq<Action>, piece: seq<Action>)
    requires NoSave(piece)
    ensures ApplySaves(t, log + piece) == ApplySaves(t, log)
    decreases |piece|
  {
    if piece != [] {
      var init := piece[..|piece| - 1];
      assert log + piece == (log + init) + [piece[|piece| - 1]];
      ApplySavesSnoc(t, log + init, piece[|piece| - 1]);
      ApplySavesSkips(t, log, init);
    } else {
      assert log + piece == log;
    }
  }
}
