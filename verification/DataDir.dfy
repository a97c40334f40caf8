/**
First-run set-up, repair and one-time migration of the data directory, as a
sequence of atomic file operations on a tree.
*/
module DataDir {
  import opened Options
  import opened Whitespace

  /** The file names set-up knows about, and every other name. */
  datatype Name =
    | Library | Config | DotLocal | Plugins | Logs
    | VersionTxt | ClVersionTxt
    | Projects | Agents | GeneralRules | Scratch | Tasks
    | Violations | PolicyHashes | Screenshots
    | GeneralPolicy | ToolGate | ClaudeOverrides
    | CustomInstructions | CustomInstruction | BrianDir | RainDir
    | Other(name: string)

  /** A file's bytes, with whether they are valid UTF-8, or a directory. */
  datatype Node = File(data: string, isText: bool) | Dir(entries: map<Name, Node>)

  type Entries = map<Name, Node>

  datatype Agent = Brian | Rain

  /** The templates baked into the binary. */
  datatype Shipped = Shipped(legacyBrian: string, legacyRain: string, instructions: string, generalRules: string)

  const SCHEMA_VERSION: nat := 2
  const U32: nat := 0x1_0000_0000

  // ------------------------------------------------------------ reading

  predicate IsDir(m: Entries, n: Name) { n in m && m[n].Dir? }

  function Inside(m: Entries, n: Name): Entries { if IsDir(m, n) then m[n].entries else map[] }

  predicate IsTextFile(m: Entries, n: Name) { n in m && m[n].File? && m[n].isText }

  /** Absent, unreadable or unparseable counts as version 0. */
  function Schema(m: Entries): nat {
    if IsTextFile(m, VersionTxt) then
      match ParseUnsigned(Trim(m[VersionTxt].data), U32)
      case Some(v) => v
      case None => 0
    else 0
  }

  predicate HasLegacy(m: Entries) {
    ClVersionTxt in m || IsDir(m, Projects) || IsDir(m, Agents) || GeneralRules in m
  }

  function DirOf(a: Agent): Name { match a case Brian => BrianDir case Rain => RainDir }

  function NameOf(a: Agent): string { match a case Brian => "brian" case Rain => "rain" }

  function LegacyTemplate(sh: Shipped, a: Agent): string {
    match a case Brian => sh.legacyBrian case Rain => sh.legacyRain
  }

  function AgentDir(m: Entries, a: Agent): Entries { Inside(Inside(Inside(m, Library), Agents), DirOf(a)) }

  /** The body of an agent's legacy instruction file, when it can be read as text. */
  function Legacy(m: Entries, a: Agent): Option<string> {
    if IsTextFile(AgentDir(m, a), CustomInstruction) then Some(AgentDir(m, a)[CustomInstruction].data) else None
  }

  predicate UserEdited(sh: Shipped, a: Agent, body: string) {
    Trim(body) != Trim(LegacyTemplate(sh, a)) && Trim(body) != []
  }

  function Section(a: Agent, body: string): string {
    "\n\n## Migrated from agents/" + NameOf(a) + "/custom-instruction.md\n\n" + TrimEnd(body) + "\n"
  }

  // --------------------------------------------------- atomic operations

  datatype Op =
    | MakeDir(name: Name)
    | MakeDirIfOld(name: Name)
    | MoveIfOld(name: Name, into: Name)
    | DropMarkerIfOld
    | MakeLogs
    | Stamp
    | SeedInstructions(text: string)
    | Append(agent: Agent, body: string)
    | RemoveLegacy(agent: Agent)
    | PruneAgent(agent: Agent)
    | PruneAgents
    | SeedDefault(name: Name, text: string)

  function WithLibrary(m: Entries, lib: Entries): Entries { m[Library := Dir(lib)] }

  function WithAgents(m: Entries, agents: Entries): Entries {
    WithLibrary(m, Inside(m, Library)[Agents := Dir(agents)])
  }

  function MakeDirIn(m: Entries, n: Name): Option<Entries> {
    if n !in m then Some(m[n := Dir(map[])])
    else if m[n].Dir? then Some(m)
    else None
  }

  predicate MoveApplies(m: Entries, n: Name, into: Name) {
    Schema(m) < SCHEMA_VERSION && n in m && n !in Inside(m, into)
  }

  /** One operation: the tree after it, or None when the file system refuses. */
  function Do(op: Op, m: Entries): Option<Entries> {
    match op
    case MakeDir(n) => MakeDirIn(m, n)
    case MakeDirIfOld(n) => if Schema(m) < SCHEMA_VERSION then MakeDirIn(m, n) else Some(m)
    case MoveIfOld(n, into) =>
      if !MoveApplies(m, n, into) then Some(m)
      else if into in m && m[into].File? then None
      else Some((m - {n})[into := Dir(Inside(m, into)[n := m[n]])])
    case DropMarkerIfOld =>
      if Schema(m) >= SCHEMA_VERSION || ClVersionTxt !in m then Some(m)
      else if m[ClVersionTxt].Dir? then None
      else Some(m - {ClVersionTxt})
    case MakeLogs =>
      if !IsDir(m, DotLocal) then None
      else (match MakeDirIn(Inside(m, DotLocal), Logs)
            case Some(local) => Some(m[DotLocal := Dir(local)])
            case None => None)
    case Stamp =>
      if Schema(m) >= SCHEMA_VERSION then Some(m)
      else if IsDir(m, VersionTxt) then None
      else Some(m[VersionTxt := File("2\n", true)])
    case SeedInstructions(text) =>
      if CustomInstructions in Inside(m, Library) then Some(m)
      else Some(WithLibrary(m, Inside(m, Library)[CustomInstructions := File(text, true)]))
    case Append(a, body) =>
      var lib := Inside(m, Library);
      if !IsTextFile(lib, CustomInstructions) then None
      else Some(WithLibrary(m, lib[CustomInstructions := File(lib[CustomInstructions].data + Section(a, body), true)]))
    case RemoveLegacy(a) =>
      var agents := Inside(Inside(m, Library), Agents);
      Some(WithAgents(m, agents[DirOf(a) := Dir(AgentDir(m, a) - {CustomInstruction})]))
    case PruneAgent(a) =>
      var agents := Inside(Inside(m, Library), Agents);
      if IsDir(agents, DirOf(a)) && agents[DirOf(a)].entries == map[] then Some(WithAgents(m, agents - {DirOf(a)}))
      else Some(m)
    case PruneAgents =>
      var lib := Inside(m, Library);
      if IsDir(lib, Agents) && lib[Agents].entries == map[] then Some(WithLibrary(m, lib - {Agents})) else Some(m)
    case SeedDefault(n, text) =>
      var lib := Inside(m, Library);
      if n in lib then Some(m) else Some(WithLibrary(m, lib[n := File(text, true)]))
  }

  /** The tree reached, and whether every operation succeeded. */
  datatype Outcome = Outcome(tree: Entries, ok: bool)

  /** Operations in order, up to the first the file system refuses. */
  function Exec(ops: seq<Op>, m: Entries): Outcome {
    if ops == [] then Outcome(m, true)
    else
      match Do(ops[0], m)
      case None => Outcome(m, false)
      case Some(m') => Exec(ops[1..], m')
  }

  const CL_NAMES: seq<Name> := [Projects, Agents, GeneralRules, Scratch, Tasks]
  const LOCAL_NAMES: seq<Name> := [Violations, PolicyHashes, Screenshots]
  const CONFIG_NAMES: seq<Name> := [GeneralPolicy, ToolGate, ClaudeOverrides]

  function Moves(names: seq<Name>, into: Name): seq<Op> {
    if names == [] then [] else Moves(names[..|names| - 1], into) + [MoveIfOld(names[|names| - 1], into)]
  }

  /** The one-time move of an older layout. */
  function LegacyOps(): seq<Op> {
    [MakeDirIfOld(Library), MakeDirIfOld(Config), MakeDirIfOld(DotLocal)]
    + Moves(CL_NAMES, Library) + Moves(LOCAL_NAMES, DotLocal) + Moves(CONFIG_NAMES, Config)
    + [DropMarkerIfOld]
  }

  function LayoutOps(): seq<Op> {
    LegacyOps() + [MakeDir(Library), MakeDir(Config), MakeDir(Plugins), MakeDir(DotLocal), MakeLogs, Stamp]
  }

  /** Folding one agent's legacy file in: decided by what the file says when it is read. */
  function AgentOps(sh: Shipped, m: Entries, a: Agent): seq<Op> {
    match Legacy(m, a)
    case None => []
    case Some(body) =>
      (if UserEdited(sh, a, body) then [SeedInstructions(sh.instructions), Append(a, body)] else [])
      + [RemoveLegacy(a), PruneAgent(a)]
  }

  function SeedOps(sh: Shipped): seq<Op> {
    [PruneAgents, SeedDefault(GeneralRules, sh.generalRules), SeedDefault(CustomInstructions, sh.instructions)]
  }

  function BrianOps(sh: Shipped, m: Entries): seq<Op> { AgentOps(sh, Exec(LayoutOps(), m).tree, Brian) }

  function RainOps(sh: Shipped, m: Entries): seq<Op> {
    AgentOps(sh, Exec(LayoutOps() + BrianOps(sh, m), m).tree, Rain)
  }

  /** Every file operation of one set-up, in order, once the data directory itself exists. */
  function InitOps(sh: Shipped, m: Entries): seq<Op> {
    LayoutOps() + BrianOps(sh, m) + RainOps(sh, m) + SeedOps(sh)
  }

  function Init(sh: Shipped, m: Entries): Outcome { Exec(InitOps(sh, m), m) }
}
