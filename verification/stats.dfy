/**
 * The orchestrator's per-role statistics: the three workload roles, how a
 * role is recognised from a program path, and the table of three slots
 * (pid, wall time, resource usage) that `guardar_stats_proceso` fills in.
 */
module Stats {
  import opened Wrappers
  import opened CText

  /** The program paths the orchestrator launches. */
  const ReceiverPath: string := "./code/escenariosBasicos/proceso1"
  const ShieldPath: string := "./code/escenariosBasicos/proceso2"
  const AnalyzerPath: string := "./code/escenariosBasicos/proceso3"

  /** P1 is the signal receiver, P2 the shield controller, P3 the spectral analyzer. */
  datatype Role = Receiver | Shield | Analyzer

  /** The substring a role's program path is recognised by. */
  function Tag(role: Role): string
  {
    match role
    case Receiver => "proceso1"
    case Shield => "proceso2"
    case Analyzer => "proceso3"
  }

  /** The order in which the tags are tested. */
  function Rank(role: Role): nat
  {
    match role
    case Receiver => 0
    case Shield => 1
    case Analyzer => 2
  }

  /**
   * Role dispatch by substring match on a path: "proceso1", then "proceso2",
   * then "proceso3" are tried, and the first one found decides.
   */
  function RoleOf(name: string): Option<Role>
  {
    if Contains(name, Tag(Receiver)) then Some(Receiver)
    else if Contains(name, Tag(Shield)) then Some(Shield)
    else if Contains(name, Tag(Analyzer)) then Some(Analyzer)
    else None
  }

  /**
   * A path has no role exactly when it contains no tag; otherwise its role's
   * tag is in it and no tag tried earlier is.
   */
  lemma RoleOfSpec(name: string)
    ensures RoleOf(name).None? <==> forall role :: !Contains(name, Tag(role))
    ensures RoleOf(name).Some? ==> Contains(name, Tag(RoleOf(name).value))
    ensures RoleOf(name).Some? ==>
      forall role :: Rank(role) < Rank(RoleOf(name).value) ==> !Contains(name, Tag(role))
  {
    if RoleOf(name).None? {
      forall role ensures !Contains(name, Tag(role)) {
        match role
        case Receiver =>
        case Shield =>
        case Analyzer =>
      }
    }
  }

  /** `Contains` finds a needle placed anywhere in a text. */
  lemma {:induction false} ContainsInfix(p: string, needle: string, q: string)
    ensures Contains(p + needle + q, needle)
    decreases |p|
  {
    if p == [] {
      assert p + needle + q == needle + q;
    } else {
      assert (p + needle + q)[1..] == p[1..] + needle + q;
      ContainsInfix(p[1..], needle, q);
    }
  }

  /** `Contains` does not find a needle whose first character the text does not have. */
  lemma {:induction false} ContainsNeedsFirstChar(hay: string, needle: string)
    requires needle != [] && needle[0] !in hay
    ensures !Contains(hay, needle)
    decreases |hay|
  {
    if hay != [] {
      assert hay[1..] <= hay[1..];
      ContainsNeedsFirstChar(hay[1..], needle);
    }
  }

  /** A text whose only 'p' starts "proceso" followed by the digit `d` contains no tag with another digit. */
  lemma {:induction false} OnlyTag(p: string, d: char, q: string, e: char)
    requires 'p' !in p && 'p' !in q && IsDigit(d) && d != e
    ensures !Contains(p + "proceso" + [d] + q, "proceso" + [e])
  {
    var w := "proceso" + [d];
    var hay := p + "proceso" + [d] + q;
    assert hay == p + w + q;
    var needle := "proceso" + [e];
    ContainsIffOccurs(hay, needle);
    forall i ensures !OccursAt(hay, needle, i) {
      if i < 0 || i + 8 > |hay| {
      } else if i < |p| {
        assert hay[i..i + 8][0] == p[i] != needle[0];
      } else if i >= |p| + 8 {
        assert hay[i..i + 8][0] == q[i - |p| - 8] != needle[0];
      } else if i > |p| {
        assert hay[i..i + 8][0] == w[i - |p|] != needle[0];
      } else {
        assert hay[i..i + 8][7] == w[7] == d != needle[7];
      }
    }
  }

  const PathPrefix: string := "./code/escenariosBasicos/"

  /** The receiver's program path is recognised as the receiver. */
  lemma ReceiverPathRole()
    ensures RoleOf(ReceiverPath) == Some(Receiver)
  {
    assert ReceiverPath == PathPrefix + "proceso1" + [];
    ContainsInfix(PathPrefix, "proceso1", []);
  }

  /**
   * A path whose only 'p' starts "proceso" and the digit `d` is recognised
   * by that digit, whatever follows the digit (an extension, say).
   */
  lemma {:induction false} RoleOfTagged(p: string, d: char, q: string)
    requires 'p' !in p && 'p' !in q && d in "123"
    ensures RoleOf(p + "proceso" + [d] + q) == Some(if d == '1' then Receiver else if d == '2' then Shield else Analyzer)
  {
    var hay := p + "proceso" + [d] + q;
    ContainsInfix(p, "proceso" + [d], q);
    assert p + ("proceso" + [d]) + q == hay;
    assert Tag(Receiver) == "proceso" + ['1'];
    assert Tag(Shield) == "proceso" + ['2'];
    assert Tag(Analyzer) == "proceso" + ['3'];
    if d != '1' {
      OnlyTag(p, d, q, '1');
    }
    if d == '3' {
      OnlyTag(p, d, q, '2');
    }
  }

  /** The shield's program path is recognised as the shield. */
  lemma ShieldPathRole()
    ensures RoleOf(ShieldPath) == Some(Shield)
  {
    RoleOfTagged(PathPrefix, '2', []);
    assert ShieldPath == PathPrefix + "proceso" + ['2'] + [];
  }

  /** The analyzer's program path is recognised as the analyzer. */
  lemma AnalyzerPathRole()
    ensures RoleOf(AnalyzerPath) == Some(Analyzer)
  {
    RoleOfTagged(PathPrefix, '3', []);
    assert AnalyzerPath == PathPrefix + "proceso" + ['3'] + [];
  }

  /**
   * The three workload paths are different names, so that a save under one
   * never counts as a save under another in the scheduler's save counts.
   */
  lemma PathsDistinct()
    ensures ReceiverPath != ShieldPath && ShieldPath != AnalyzerPath && ReceiverPath != AnalyzerPath
  {
    assert ReceiverPath[|ReceiverPath| - 1] == '1';
    assert ShieldPath[|ShieldPath| - 1] == '2';
    assert AnalyzerPath[|AnalyzerPath| - 1] == '3';
  }

  /** The descriptive name printed for a role. */
  function Label(role: Role): string
  {
    match role
    case Receiver => "Receptor de Se\U{00F1}al"
    case Shield => "Control Escudo"
    case Analyzer => "Analizador Espectral"
  }

  /** `nombre_legible`: the descriptive name of the recognised role, or the path itself. */
  function NombreLegible(name: string): (r: string)
    ensures RoleOf(name).Some? ==> r == Label(RoleOf(name).value)
    ensures RoleOf(name).None? ==> r == name
  {
    if Contains(name, "proceso1") then "Receptor de Se\U{00F1}al"
    else if Contains(name, "proceso2") then "Control Escudo"
    else if Contains(name, "proceso3") then "Analizador Espectral"
    else name
  }

  /** The fields of a `struct rusage` the orchestrator reports: user and system CPU time and peak memory. */
  datatype Usage = Usage(userMicros: int, systemMicros: int, maxRssKb: int)

  /** A `struct rusage` cleared with `memset`. */
  const ZeroUsage := Usage(0, 0, 0)

  /** One role's entry: its pid, its wall time in seconds and its resource usage. */
  datatype Slot = Slot(pid: int, wallTime: real, usage: Usage)

  const EmptySlot := Slot(0, 0.0, ZeroUsage)

  /** The three entries `usage_p*`, `pid_p*` and `time_p*`, one slot per role. */
  datatype StatsTable = StatsTable(p1: Slot, p2: Slot, p3: Slot) {
    function Get(role: Role): Slot
    {
      match role
      case Receiver => p1
      case Shield => p2
      case Analyzer => p3
    }

    function Set(role: Role, slot: Slot): (t: StatsTable)
      ensures t.Get(role) == slot
      ensures forall other :: other != role ==> t.Get(other) == Get(other)
    {
      match role
      case Receiver => this.(p1 := slot)
      case Shield => this.(p2 := slot)
      case Analyzer => this.(p3 := slot)
    }
  }

  /** The table as `inicializar_ciclo` leaves it: pids 0, times 0, usage zeroed. */
  const ZeroTable := StatsTable(EmptySlot, EmptySlot, EmptySlot)

  /**
   * The effect of `guardar_stats_proceso(name, ...)`: the slot of the role
   * `name` is recognised as is overwritten; a name of no role changes nothing.
   */
  function Saved(t: StatsTable, name: string, slot: Slot): StatsTable
  {
    match RoleOf(name)
    case None => t
    case Some(role) => t.Set(role, slot)
  }

  /** A save overwrites the slot of the name's role, if it has one, and no other slot. */
  lemma SavedSpec(t: StatsTable, name: string, slot: Slot)
    ensures RoleOf(name).None? ==> Saved(t, name, slot) == t
    ensures forall role :: Saved(t, name, slot).Get(role) == (if RoleOf(name) == Some(role) then slot else t.Get(role))
  {
  }
}
