/**
Where every file ends up: set-up moves, folds and seeds, and loses nothing.
*/
module DataDirContent {
  import opened Options
  import opened DataDir
  import opened DataDirCrash
  import opened DataDirFold

  type Path = seq<Name>

  function Find(m: Entries, p: Path): Option<Node>
    decreases |p|
  {
    if p == [] || p[0] !in m then None
    else if |p| == 1 then Some(m[p[0]])
    else if m[p[0]].Dir? then Find(m[p[0]].entries, p[1..])
    else None
  }

  /** The file at a path, if there is a file there. */
  function FileAt(m: Entries, p: Path): Option<Node> {
    match Find(m, p)
    case Some(File(d, t)) => Some(File(d, t))
    case _ => None
  }

  const VERSION_PATH: Path := [VersionTxt]
  const MARKER_PATH: Path := [ClVersionTxt]
  const INSTRUCTIONS_PATH: Path := [Library, CustomInstructions]
  const RULES_PATH: Path := [Library, GeneralRules]

  function LegacyPath(a: Agent): Path { [Library, Agents, DirOf(a), CustomInstruction] }

  // ---------------------------------------------------------- the layout

  /** The file that a move brings to `q`, or leaves there. */
  function AfterMove(m: Entries, n: Name, into: Name, q: Path): Option<Node> {
    if |q| >= 2 && q[0] == into && q[1] == n then FileAt(m, q[1..])
    else if |q| >= 1 && q[0] == n then None
    else FileAt(m, q)
  }

  lemma FindDown(m: Entries, p: Path)
    requires |p| >= 2
    ensures FileAt(m, p) == FileAt(Inside(m, p[0]), p[1..])
  {
  }

  lemma MoveFiles(m: Entries, n: Name, into: Name, q: Path)
    requires Movable(n) && into == HomeOf(n) && MoveApplies(m, n, into) && Do(MoveIfOld(n, into), m).Some?
    ensures FileAt(Do(MoveIfOld(n, into), m).value, q) == AfterMove(m, n, into, q)
  {
    hide Schema;
    var m' := Do(MoveIfOld(n, into), m).value;
    if |q| >= 2 {
      FindDown(m, q);
      FindDown(m', q);
      if q[0] == into && |q| >= 3 {
        FindDown(Inside(m, into), q[1..]);
        FindDown(Inside(m', into), q[1..]);
        FindDown(m, q[1..]);
      }
    }
  }

  /** A layout operation that moves nothing leaves every file alone, the markers aside. */
  lemma OtherLayoutFiles(op: Op, m: Entries, q: Path)
    requires LayoutOp(op) && Do(op, m).Some?
    requires op.MoveIfOld? ==> !MoveApplies(m, op.name, op.into)
    requires q != VERSION_PATH && q != MARKER_PATH
    ensures FileAt(Do(op, m).value, q) == FileAt(m, q)
  {
    hide Schema;
    var m' := Do(op, m).value;
    if |q| >= 2 {
      FindDown(m, q);
      FindDown(m', q);
      if op.MakeLogs? && q[0] == DotLocal && |q| >= 3 {
        FindDown(Inside(m, DotLocal), q[1..]);
        FindDown(Inside(m', DotLocal), q[1..]);
      }
    }
  }

  predicate MoveIn(ops: seq<Op>, n: Name) { MoveIfOld(n, HomeOf(n)) in ops }

  /** Where the file at `q` came from, once the moves among `ops` are done. */
  function OriginVia(ops: seq<Op>, m: Entries, q: Path): Option<Node> {
    if |q| >= 2 && Movable(q[1]) && q[0] == HomeOf(q[1]) && MoveIn(ops, q[1]) && MoveApplies(m, q[1], q[0]) then FileAt(m, q[1..])
    else if |q| >= 1 && Movable(q[0]) && MoveIn(ops, q[0]) && MoveApplies(m, q[0], HomeOf(q[0])) then None
    else FileAt(m, q)
  }

  /** Layout operations come in order: no name twice, the stamp last. */
  predicate Orderly(ops: seq<Op>) {
    && (forall k :: 0 <= k < |ops| ==> LayoutOp(ops[k]))
    && (forall i, j :: 0 <= i < j < |ops| && ops[i].MoveIfOld? ==> ops[i] != ops[j])
    && (forall k :: 0 <= k < |ops| && ops[k].Stamp? ==> k == |ops| - 1)
  }

  lemma OtherMovesUnaffected(op: Op, m: Entries, n: Name)
    requires LayoutOp(op) && !op.Stamp? && Do(op, m).Some? && Movable(n) && op != MoveIfOld(n, HomeOf(n))
    ensures MoveApplies(Do(op, m).value, n, HomeOf(n)) <==> MoveApplies(m, n, HomeOf(n))
  {
    LayoutSchema(op, m);
    hide Schema;
  }

  lemma {:induction false} LayoutFiles(ops: seq<Op>, m: Entries, q: Path)
    requires Orderly(ops) && Exec(ops, m).ok && q != VERSION_PATH && q != MARKER_PATH
    ensures FileAt(Exec(ops, m).tree, q) == OriginVia(ops, m, q)
    decreases |ops|
  {
    hide Do, LayoutOp, FileAt, Movable;
    if ops != [] {
      var op, rest := ops[0], ops[1..];
      var m' := Do(op, m).value;
      assert LayoutOp(op);
      assert rest == [] || !op.Stamp?;
      LayoutFiles(rest, m', q);
      LayoutStep(op, rest, m, q);
    }
  }

  lemma MoveInSplit(op: Op, rest: seq<Op>, n: Name)
    ensures MoveIn([op] + rest, n) <==> op == MoveIfOld(n, HomeOf(n)) || MoveIn(rest, n)
    ensures Orderly([op] + rest) ==> LayoutOp(op)
    ensures Orderly([op] + rest) && MoveIn(rest, n) ==> op != MoveIfOld(n, HomeOf(n)) && !op.Stamp?
  {
    hide LayoutOp, HomeOf;
    var ops := [op] + rest;
    assert ops[0] == op;
    if MoveIn(rest, n) {
      var k :| 0 <= k < |rest| && rest[k] == MoveIfOld(n, HomeOf(n));
      assert ops[k + 1] == rest[k];
    }
  }

  /** What the first operation does to one name's pending move. */
  lemma MoveStep(op: Op, rest: seq<Op>, m: Entries, n: Name)
    requires Orderly([op] + rest) && Do(op, m).Some? && Movable(n)
    ensures LayoutOp(op)
    ensures var now, later := MoveIn([op] + rest, n) && MoveApplies(m, n, HomeOf(n)), MoveIn(rest, n) && MoveApplies(Do(op, m).value, n, HomeOf(n));
            now <==> later || (op == MoveIfOld(n, HomeOf(n)) && MoveApplies(m, n, HomeOf(n)))
    ensures MoveIn(rest, n) ==> op != MoveIfOld(n, HomeOf(n))
  {
    hide Do, MoveApplies, MoveIn, Orderly, LayoutOp, Movable, HomeOf;
    MoveInSplit(op, rest, n);
    if MoveIn(rest, n) { OtherMovesUnaffected(op, m, n); }
  }

  lemma LayoutStep(op: Op, rest: seq<Op>, m: Entries, q: Path)
    requires Orderly([op] + rest) && Do(op, m).Some? && q != VERSION_PATH && q != MARKER_PATH
    ensures OriginVia(rest, Do(op, m).value, q) == OriginVia([op] + rest, m, q)
  {
    MoveInSplit(op, rest, Library);
    if op.MoveIfOld? && MoveApplies(m, op.name, op.into) {
      LayoutStepMove(op, rest, m, q);
    } else {
      LayoutStepStill(op, rest, m, q);
    }
  }

  lemma LayoutStepStill(op: Op, rest: seq<Op>, m: Entries, q: Path)
    requires Orderly([op] + rest) && Do(op, m).Some? && q != VERSION_PATH && q != MARKER_PATH
    requires LayoutOp(op) && (op.MoveIfOld? ==> !MoveApplies(m, op.name, op.into))
    ensures OriginVia(rest, Do(op, m).value, q) == OriginVia([op] + rest, m, q)
  {
    hide Do, FileAt, MoveApplies, MoveIn, Orderly, LayoutOp, HomeOf;
    OtherLayoutFiles(op, m, q);
    if |q| >= 1 && Movable(q[0]) { MoveStep(op, rest, m, q[0]); }
    if |q| >= 2 && Movable(q[1]) {
      MoveStep(op, rest, m, q[1]);
      OtherLayoutFiles(op, m, q[1..]);
    }
  }

  lemma LayoutStepMove(op: Op, rest: seq<Op>, m: Entries, q: Path)
    requires Orderly([op] + rest) && Do(op, m).Some? && q != VERSION_PATH && q != MARKER_PATH
    requires LayoutOp(op) && op.MoveIfOld? && MoveApplies(m, op.name, op.into)
    ensures OriginVia(rest, Do(op, m).value, q) == OriginVia([op] + rest, m, q)
  {
    hide Do, FileAt, MoveApplies, MoveIn, Orderly;
    MoveFiles(m, op.name, op.into, q);
    if |q| >= 1 && Movable(q[0]) { MoveStep(op, rest, m, q[0]); }
    if |q| >= 2 && Movable(q[1]) {
      MoveStep(op, rest, m, q[1]);
      MoveFiles(m, op.name, op.into, q[1..]);
    }
  }

  // -------------------------------------------------- the rest of a set-up

  lemma FindThree(m: Entries, q: Path)
    requires |q| >= 4
    ensures FileAt(m, q) == FileAt(Inside(Inside(Inside(m, q[0]), q[1]), q[2]), q[3..])
    ensures FileAt(m, q) == FileAt(Inside(Inside(m, q[0]), q[1]), q[2..])
  {
    FindDown(m, q);
    FindDown(Inside(m, q[0]), q[1..]);
    FindDown(Inside(Inside(m, q[0]), q[1]), q[2..]);
    assert q[1..][1..] == q[2..] && q[2..][1..] == q[3..];
  }

  lemma FindTwo(m: Entries, q: Path)
    requires |q| >= 3
    ensures FileAt(m, q) == FileAt(Inside(Inside(m, q[0]), q[1]), q[2..])
  {
    FindDown(m, q);
    FindDown(Inside(m, q[0]), q[1..]);
    assert q[1..][1..] == q[2..];
  }

  /** The file one library operation is about. */
  function Target(op: Op): Path {
    match op
    case RemoveLegacy(a) => LegacyPath(a)
    case SeedDefault(n, _) => [Library, n]
    case PruneAgent(_) => []
    case PruneAgents => []
    case _ => INSTRUCTIONS_PATH
  }

  /** A library operation leaves every file but its target alone. */
  lemma FoldOpFiles(op: Op, m: Entries, q: Path)
    requires FoldOp(op) && IsDir(m, Library) && Do(op, m).Some? && (q != Target(op) || q == [])
    requires op.RemoveLegacy? ==> Legacy(m, op.agent).Some?
    ensures FileAt(Do(op, m).value, q) == FileAt(m, q)
  {
    if |q| >= 1 && q[0] != Library {
      FoldOpElsewhere(op, m, q);
    } else if |q| == 2 {
      FoldOpInLibrary(op, m, q);
    } else if |q| == 3 {
      FoldOpInAgents(op, m, q);
    } else if |q| >= 4 {
      FoldOpInAgent(op, m, q);
    }
    hide FileAt, FoldOp, Target;
  }

  lemma FoldOpElsewhere(op: Op, m: Entries, q: Path)
    requires FoldOp(op) && IsDir(m, Library) && Do(op, m).Some? && |q| >= 1 && q[0] != Library
    ensures FileAt(Do(op, m).value, q) == FileAt(m, q)
  {
    LibraryOpFrame(op, m);
    hide Do;
    if |q| >= 2 { FindDown(m, q); FindDown(Do(op, m).value, q); }
  }

  lemma FoldOpInLibrary(op: Op, m: Entries, q: Path)
    requires FoldOp(op) && IsDir(m, Library) && Do(op, m).Some? && |q| == 2 && q[0] == Library && q != Target(op)
    requires op.RemoveLegacy? ==> Legacy(m, op.agent).Some?
    ensures FileAt(Do(op, m).value, q) == FileAt(m, q)
  {
    FindDown(m, q);
    FindDown(Do(op, m).value, q);
  }

  lemma FoldOpInAgents(op: Op, m: Entries, q: Path)
    requires FoldOp(op) && IsDir(m, Library) && Do(op, m).Some? && |q| == 3 && q[0] == Library
    requires op.RemoveLegacy? ==> Legacy(m, op.agent).Some?
    ensures FileAt(Do(op, m).value, q) == FileAt(m, q)
  {
    FindTwo(m, q);
    FindTwo(Do(op, m).value, q);
  }

  lemma FoldOpInAgent(op: Op, m: Entries, q: Path)
    requires FoldOp(op) && IsDir(m, Library) && Do(op, m).Some? && |q| >= 4 && q[0] == Library && q != Target(op)
    requires op.RemoveLegacy? ==> Legacy(m, op.agent).Some?
    ensures FileAt(Do(op, m).value, q) == FileAt(m, q)
  {
    FindThree(m, q);
    FindThree(Do(op, m).value, q);
  }

  /** Removing the legacy file removes it, and it was the text read. */
  lemma LegacyFile(m: Entries, a: Agent)
    ensures Legacy(m, a).Some? ==> FileAt(m, LegacyPath(a)) == Some(File(Legacy(m, a).value, true))
    ensures FileAt(m, LegacyPath(a)).Some? && FileAt(m, LegacyPath(a)).value.isText ==> Legacy(m, a).Some?
  {
    FindThree(m, LegacyPath(a));
  }

  lemma InstructionsFile(m: Entries)
    ensures Instructions(m).Some? ==> HasInstructions(m) && FileAt(m, INSTRUCTIONS_PATH) == Some(File(Instructions(m).value, true))
    ensures FileAt(m, INSTRUCTIONS_PATH).Some? ==> HasInstructions(m)
    ensures FileAt(m, INSTRUCTIONS_PATH).Some? && FileAt(m, INSTRUCTIONS_PATH).value.isText ==> Instructions(m).Some?
  {
    FindDown(m, INSTRUCTIONS_PATH);
  }

  /** One agent's stage touches its own legacy file, when readable, and the consolidated file. */
  lemma StageFiles(sh: Shipped, m: Entries, a: Agent, q: Path)
    requires IsDir(m, Library) && (q == INSTRUCTIONS_PATH ==> !Folds(sh, m, a))
    requires q == LegacyPath(a) ==> Legacy(m, a) == None
    ensures FileAt(Stage(sh, m, a).tree, q) == FileAt(m, q)
  {
    hide Do, FileAt, UserEdited, Section, Instructions, HasInstructions;
    if Legacy(m, a).Some? {
      var body := Legacy(m, a).value;
      if Folds(sh, m, a) {
        var head, rest := [SeedInstructions(sh.instructions), Append(a, body)], [RemoveLegacy(a), PruneAgent(a)];
        SeedAlwaysWorks(sh, m);
        SeedAndAppend(sh, m, a, body);
        ExecConcat(head, rest, m);
        var s1 := Do(SeedInstructions(sh.instructions), m).value;
        FoldOpFiles(SeedInstructions(sh.instructions), m, q);
        if Do(Append(a, body), s1).Some? {
          var s2 := Do(Append(a, body), s1).value;
          FoldOpFiles(Append(a, body), s1, q);
          LegacyFromAgents(m, s2, a);
          RemoveFiles(s2, a, q);
        }
      } else {
        assert [] + [RemoveLegacy(a), PruneAgent(a)] == [RemoveLegacy(a), PruneAgent(a)];
        RemoveFiles(m, a, q);
      }
    }
  }

  lemma RemoveFiles(m: Entries, a: Agent, q: Path)
    requires IsDir(m, Library) && Legacy(m, a).Some? && q != LegacyPath(a)
    ensures FileAt(Exec([RemoveLegacy(a), PruneAgent(a)], m).tree, q) == FileAt(m, q)
  {
    hide FileAt;
    RemoveAlwaysWorks(m, a);
    var s := Do(RemoveLegacy(a), m).value;
    RemoveAlwaysWorks(s, a);
    RemoveAndPrune(m, a);
    FoldOpFiles(RemoveLegacy(a), m, q);
    FoldOpFiles(PruneAgent(a), s, q);
  }

  /** The seeds fill only what is missing. */
  lemma SeedFiles(sh: Shipped, m: Entries, q: Path)
    requires IsDir(m, Library)
    requires q in {INSTRUCTIONS_PATH, RULES_PATH} ==> FileAt(m, q).Some?
    ensures FileAt(Exec(SeedOps(sh), m).tree, q) == FileAt(m, q)
  {
    var a, b, c := PruneAgents, SeedDefault(GeneralRules, sh.generalRules), SeedDefault(CustomInstructions, sh.instructions);
    var m1 := Do(a, m).value;
    var m2 := Do(b, m1).value;
    assert SeedOps(sh) == [a] + [b, c];
    ExecConcat([a], [b, c], m);
    ExecOne(a, m);
    ExecTwo(b, c, m1);
    ExecOne(c, m2);
    SeedOneFile(a, m, q);
    SeedOneFile(b, m1, q);
    SeedOneFile(c, m2, q);
  }

  lemma SeedOneFile(op: Op, m: Entries, q: Path)
    requires FoldOp(op) && (op.PruneAgents? || op.SeedDefault?) && IsDir(m, Library)
    requires q in {INSTRUCTIONS_PATH, RULES_PATH} ==> FileAt(m, q).Some?
    ensures Do(op, m).Some? && IsDir(Do(op, m).value, Library) && FileAt(Do(op, m).value, q) == FileAt(m, q)
  {
    if op.SeedDefault? && q == [Library, op.name] {
      FindDown(m, q);
    } else {
      FoldOpFiles(op, m, q);
    }
  }

  // ---------------------------------------------------- where files end up

  /** The path a file ends at. */
  function Dest(m: Entries, p: Path): Path {
    if |p| >= 1 && Movable(p[0]) && MoveApplies(m, p[0], HomeOf(p[0])) then [HomeOf(p[0])] + p else p
  }

  /** The file that will be at `q` once the layout is done. */
  function AfterLayout(m: Entries, q: Path): Option<Node> { OriginVia(LayoutOps(), m, q) }

  /** The turn of each move in the layout. */
  function Turn(n: Name): nat {
    match n
    case Projects => 3 case Agents => 4 case GeneralRules => 5 case Scratch => 6 case Tasks => 7
    case Violations => 8 case PolicyHashes => 9 case Screenshots => 10
    case GeneralPolicy => 11 case ToolGate => 12 case ClaudeOverrides => 13
    case _ => 0
  }

  lemma EveryMoveHasItsTurn(n: Name)
    requires Movable(n)
    ensures Turn(n) < |LayoutOps()| && LayoutOps()[Turn(n)] == MoveIfOld(n, HomeOf(n))
  {
    LayoutOpsAre();
    hide LayoutOps;
    var ops := LayoutOps();
    match n {
      case Projects => case Agents => case GeneralRules => case Scratch => case Tasks =>
      case Violations => case PolicyHashes => case Screenshots =>
      case GeneralPolicy => case ToolGate => case ClaudeOverrides =>
    }
  }

  lemma MoveAtItsTurn(k: nat)
    requires k < |LayoutOps()|
    ensures LayoutOps()[k].MoveIfOld? ==> Turn(LayoutOps()[k].name) == k
    ensures LayoutOps()[k].Stamp? ==> k == |LayoutOps()| - 1
  {
    LayoutOpsAre();
    hide LayoutOps;
    var ops := LayoutOps();
    assert |ops| == 21;
    if k < 7 {
      assert ops[..7] == [MakeDirIfOld(Library), MakeDirIfOld(Config), MakeDirIfOld(DotLocal),
                          MoveIfOld(Projects, Library), MoveIfOld(Agents, Library), MoveIfOld(GeneralRules, Library),
                          MoveIfOld(Scratch, Library)];
    }
  }

  lemma AllMovesPresent()
    ensures Orderly(LayoutOps())
    ensures forall n :: Movable(n) ==> MoveIn(LayoutOps(), n)
  {
    hide LayoutOps, LayoutOp, Movable, HomeOf, Turn;
    LayoutOpsAre();
    forall n | Movable(n) ensures MoveIn(LayoutOps(), n) {
      EveryMoveHasItsTurn(n);
    }
    forall k | 0 <= k < |LayoutOps()|
      ensures LayoutOps()[k].MoveIfOld? ==> Turn(LayoutOps()[k].name) == k
      ensures LayoutOps()[k].Stamp? ==> k == |LayoutOps()| - 1
    {
      MoveAtItsTurn(k);
    }
  }

  /** A file that is there is not in the way of a move. */
  lemma FilePresent(m: Entries, p: Path)
    requires FileAt(m, p).Some? && |p| >= 2
    ensures p[1] in Inside(m, p[0])
  {
    FindDown(m, p);
  }

  lemma DestFindsIt(m: Entries, p: Path)
    requires FileAt(m, p).Some? && p != VERSION_PATH && p != MARKER_PATH
    ensures AfterLayout(m, Dest(m, p)) == FileAt(m, p)
    ensures Dest(m, p) != VERSION_PATH && Dest(m, p) != MARKER_PATH
  {
    hide FileAt, LayoutOps;
    AllMovesPresent();
    if |p| >= 2 { FilePresent(m, p); }
  }

  /** Two files never end at the same path. */
  lemma DestIsInjective(m: Entries, p: Path, q: Path)
    requires FileAt(m, p).Some? && FileAt(m, q).Some? && Dest(m, p) == Dest(m, q)
    ensures p == q
  {
    hide FileAt;
    if |p| >= 2 { FilePresent(m, p); }
    if |q| >= 2 { FilePresent(m, q); }
    if Dest(m, p) != p && Dest(m, q) != q {
      assert Dest(m, p)[1..] == p && Dest(m, q)[1..] == q;
    }
  }

  /** Every file after the layout came from somewhere. */
  lemma EveryFileHasAnOrigin(m: Entries, q: Path) returns (p: Path)
    requires AfterLayout(m, q).Some?
    ensures FileAt(m, p) == AfterLayout(m, q) && Dest(m, p) == q
  {
    hide FileAt, LayoutOps;
    AllMovesPresent();
    p := q;
    if |q| >= 2 && Movable(q[1]) && q[0] == HomeOf(q[1]) && MoveApplies(m, q[1], q[0]) {
      p := q[1..];
      assert [q[0]] + q[1..] == q;
    }
  }

  /** The legacy body an agent's fold will read. */
  function LegacyBody(m: Entries, a: Agent): Option<string> {
    match AfterLayout(m, LegacyPath(a))
    case Some(File(d, true)) => Some(d)
    case _ => None
  }

  lemma LayoutLegacy(m: Entries, a: Agent)
    requires Exec(LayoutOps(), m).ok
    ensures Legacy(Exec(LayoutOps(), m).tree, a) == LegacyBody(m, a)
    ensures FileAt(Exec(LayoutOps(), m).tree, INSTRUCTIONS_PATH) == FileAt(m, INSTRUCTIONS_PATH)
  {
    hide FileAt, Legacy, LayoutOps, Exec;
    AllMovesPresent();
    LayoutFiles(LayoutOps(), m, LegacyPath(a));
    LayoutFiles(LayoutOps(), m, INSTRUCTIONS_PATH);
    LegacyFile(Exec(LayoutOps(), m).tree, a);
  }

  /** After a successful set-up: the layout, then both stages, then the seeds, all succeeded. */
  lemma SuccessfulParts(sh: Shipped, m: Entries)
    requires Init(sh, m).ok
    ensures var l := Exec(LayoutOps(), m);
            var b := Stage(sh, l.tree, Brian);
            var r := Stage(sh, b.tree, Rain);
            && l.ok && b.ok && r.ok && IsDir(l.tree, Library) && IsDir(b.tree, Library) && IsDir(r.tree, Library)
            && Init(sh, m) == Exec(SeedOps(sh), r.tree)
            && Legacy(l.tree, Rain) == Legacy(b.tree, Rain) && Legacy(b.tree, Brian) == None == Legacy(r.tree, Brian)
            && Legacy(r.tree, Rain) == None
            && (Legacy(l.tree, Brian).Some? ==> CustomInstruction !in AgentDir(b.tree, Brian))
            && (Legacy(b.tree, Rain).Some? ==> CustomInstruction !in AgentDir(r.tree, Rain))
  {
    hide Init, Exec, LayoutOps, SeedOps, AgentOps, Legacy, Instructions, UserEdited, Ready;
    InitSplits(sh, m);
    LayoutGivesReady(m);
    ReadyMeans(Exec(LayoutOps(), m).tree);
    var x := Exec(LayoutOps(), m).tree;
    StageEffect(sh, x, Brian);
    StageEffect(sh, Stage(sh, x, Brian).tree, Rain);
  }

  lemma NoFileNoPath(m: Entries, a: Agent)
    requires CustomInstruction !in AgentDir(m, a)
    ensures FileAt(m, LegacyPath(a)) == None
  {
    FindThree(m, LegacyPath(a));
  }

  /** A file set-up consumes: a version marker, the consolidated file, or a legacy body it can read. */
  predicate Consumed(m: Entries, p: Path) {
    || p in {VERSION_PATH, MARKER_PATH}
    || Dest(m, p) == INSTRUCTIONS_PATH
    || ((Dest(m, p) == LegacyPath(Brian) || Dest(m, p) == LegacyPath(Rain)) && FileAt(m, p).Some? && FileAt(m, p).value.isText)
  }

  /** Nothing is lost: every file set-up does not consume ends at its destination with the same bytes. */
  lemma NothingIsLost(sh: Shipped, m: Entries, p: Path)
    requires Init(sh, m).ok && FileAt(m, p).Some? && !Consumed(m, p)
    ensures FileAt(Init(sh, m).tree, Dest(m, p)) == FileAt(m, p)
  {
    hide Init, Exec, LayoutOps, SeedOps, AgentOps, FileAt, Legacy, MoveApplies;
    var q := Dest(m, p);
    DestFindsIt(m, p);
    AllMovesPresent();
    SuccessfulParts(sh, m);
    var x := Exec(LayoutOps(), m).tree;
    LayoutFiles(LayoutOps(), m, q);
    LegacyFile(x, Brian);
    LegacyFile(x, Rain);
    FileShape(m, p);
    StageFiles(sh, x, Brian, q);
    StageFiles(sh, Stage(sh, x, Brian).tree, Rain, q);
    SeedFiles(sh, Stage(sh, Stage(sh, x, Brian).tree, Rain).tree, q);
  }

  lemma FileShape(m: Entries, p: Path)
    ensures FileAt(m, p).Some? ==> FileAt(m, p).value.File?
  {
  }

  /** Nothing is invented: every file but the marker and the two seeded slots is an old file at its destination. */
  lemma NothingIsInvented(sh: Shipped, m: Entries, q: Path) returns (p: Path)
    requires Init(sh, m).ok && FileAt(Init(sh, m).tree, q).Some?
    requires q !in {VERSION_PATH, MARKER_PATH, INSTRUCTIONS_PATH, RULES_PATH}
    ensures FileAt(m, p) == FileAt(Init(sh, m).tree, q) && Dest(m, p) == q
  {
    hide Init, Exec, LayoutOps, SeedOps, AgentOps, FileAt, Legacy, MoveApplies;
    SuccessfulParts(sh, m);
    AllMovesPresent();
    var x := Exec(LayoutOps(), m).tree;
    var b := Stage(sh, x, Brian).tree;
    var r := Stage(sh, b, Rain).tree;
    SeedFiles(sh, r, q);
    if q == LegacyPath(Rain) && Legacy(b, Rain).Some? { NoFileNoPath(r, Rain); }
    StageFiles(sh, b, Rain, q);
    if q == LegacyPath(Brian) && Legacy(x, Brian).Some? { NoFileNoPath(b, Brian); }
    StageFiles(sh, x, Brian, q);
    LayoutFiles(LayoutOps(), m, q);
    p := EveryFileHasAnOrigin(m, q);
  }

  /** What one agent's legacy body becomes in the consolidated file. */
  function FoldedText(sh: Shipped, m: Entries, a: Agent): string {
    match LegacyBody(m, a)
    case Some(body) => if UserEdited(sh, a, body) then Section(a, body) else ""
    case None => ""
  }

  lemma LayoutOpKeepsInstructions(op: Op, m: Entries)
    requires LayoutOp(op) && Do(op, m).Some?
    ensures HasInstructions(Do(op, m).value) <==> HasInstructions(m)
    ensures Instructions(Do(op, m).value) == Instructions(m)
  {
    hide Schema;
  }

  lemma {:induction false} LayoutKeepsInstructions(ops: seq<Op>, m: Entries)
    requires Exec(ops, m).ok && forall k :: 0 <= k < |ops| ==> LayoutOp(ops[k])
    ensures HasInstructions(Exec(ops, m).tree) <==> HasInstructions(m)
    ensures Instructions(Exec(ops, m).tree) == Instructions(m)
    decreases |ops|
  {
    hide Do, LayoutOp, HasInstructions, Instructions;
    if ops != [] {
      LayoutOpKeepsInstructions(ops[0], m);
      LayoutKeepsInstructions(ops[1..], Do(ops[0], m).value);
    }
  }

  /**
  The consolidated file of a successful set-up: what was there, or the shipped
  template, then each user-edited legacy body under its heading, Brian's first.
  One that is not a text file stays as it is, and then nothing had to be folded.
  */
  lemma InstructionsAreFolded(sh: Shipped, m: Entries)
    requires Init(sh, m).ok
    ensures var f, added := Init(sh, m).tree, FoldedText(sh, m, Brian) + FoldedText(sh, m, Rain);
            && (Instructions(m).Some? ==> Instructions(f) == Some(Instructions(m).value + added))
            && (!HasInstructions(m) ==> Instructions(f) == Some(sh.instructions + added))
            && (HasInstructions(m) && Instructions(m) == None ==>
                  added == "" && FileAt(f, INSTRUCTIONS_PATH) == FileAt(m, INSTRUCTIONS_PATH))
  {
    hide Init, FileAt, FoldedText, Instructions, HasInstructions;
    TextIsThere(m);
    FoldsOnBase(sh, m);
    if HasInstructions(m) && Instructions(m) == None { UnreadableStays(sh, m); }
  }

  lemma FoldsOnBase(sh: Shipped, m: Entries)
    requires Init(sh, m).ok
    ensures var p, q := FoldedText(sh, m, Brian), FoldedText(sh, m, Rain);
            && Instructions(Init(sh, m).tree) == (if Base(sh, m).None? then None else Some(Base(sh, m).value + (p + q)))
            && (Base(sh, m).None? ==> p == "" == q)
  {
    hide Init, Exec, LayoutOps, SeedOps, Stage, Legacy, FoldedText, Instructions, HasInstructions, Added, Base;
    SuccessfulParts(sh, m);
    FoldedIsAdded(sh, m);
    var x := Exec(LayoutOps(), m).tree;
    var b := Stage(sh, x, Brian).tree;
    StageBase(sh, x, Brian);
    StageBase(sh, b, Rain);
    SeedsBase(sh, Stage(sh, b, Rain).tree);
    var p, q := Added(sh, x, Brian), Added(sh, b, Rain);
    if Base(sh, m).Some? { assert Base(sh, m).value + (p + q) == (Base(sh, m).value + p) + q; }
  }

  lemma SeedsBase(sh: Shipped, m: Entries)
    requires IsDir(m, Library)
    ensures Instructions(Exec(SeedOps(sh), m).tree) == Base(sh, m)
  {
    SeedOpsWork(sh, m);
  }

  lemma TextIsThere(m: Entries)
    ensures Instructions(m).Some? ==> HasInstructions(m)
  {
  }

  /** The consolidated text there is to append to: none when the file is not text. */
  function Base(sh: Shipped, m: Entries): Option<string> {
    if HasInstructions(m) then Instructions(m) else Some(sh.instructions)
  }

  lemma StageBase(sh: Shipped, m: Entries, a: Agent)
    requires IsDir(m, Library) && Stage(sh, m, a).ok
    ensures var y := Stage(sh, m, a).tree;
            if Base(sh, m).None? then Base(sh, y) == None && Added(sh, m, a) == ""
            else Base(sh, y) == Some(Base(sh, m).value + Added(sh, m, a))
  {
    StageEffect(sh, m, a);
    hide Stage, Folds, Instructions, HasInstructions, Section, Legacy;
    if Base(sh, m).Some? { assert Base(sh, m).value + "" == Base(sh, m).value; }
  }

  lemma FoldedIsAdded(sh: Shipped, m: Entries)
    requires Init(sh, m).ok
    ensures var x := Exec(LayoutOps(), m).tree;
            && Base(sh, x) == Base(sh, m)
            && FoldedText(sh, m, Brian) == Added(sh, x, Brian)
            && FoldedText(sh, m, Rain) == Added(sh, Stage(sh, x, Brian).tree, Rain)
  {
    hide Init, Exec, LayoutOps, SeedOps, AgentOps, Stage, FileAt, Legacy, MoveApplies, Section, UserEdited, Instructions, HasInstructions;
    SuccessfulParts(sh, m);
    LayoutLegacy(m, Brian);
    LayoutLegacy(m, Rain);
    LayoutOpsAre();
    LayoutKeepsInstructions(LayoutOps(), m);
  }

  lemma UnreadableStays(sh: Shipped, m: Entries)
    requires Init(sh, m).ok && HasInstructions(m) && Instructions(m) == None
    ensures FileAt(Init(sh, m).tree, INSTRUCTIONS_PATH) == FileAt(m, INSTRUCTIONS_PATH)
  {
    hide Init, Exec, LayoutOps, SeedOps, AgentOps, FileAt, Legacy, MoveApplies, Section, UserEdited, Instructions, HasInstructions;
    SuccessfulParts(sh, m);
    LayoutLegacy(m, Brian);
    LayoutOpsAre();
    LayoutKeepsInstructions(LayoutOps(), m);
    var x := Exec(LayoutOps(), m).tree;
    var b := Stage(sh, x, Brian).tree;
    StageEffect(sh, x, Brian);
    StageEffect(sh, b, Rain);
    StageFiles(sh, x, Brian, INSTRUCTIONS_PATH);
    StageFiles(sh, b, Rain, INSTRUCTIONS_PATH);
    SeedsSkipInstructions(sh, Stage(sh, b, Rain).tree);
  }

  /** Seeds leave a consolidated file that is already there, whatever it is. */
  lemma SeedsSkipInstructions(sh: Shipped, m: Entries)
    requires IsDir(m, Library) && HasInstructions(m)
    ensures FileAt(Exec(SeedOps(sh), m).tree, INSTRUCTIONS_PATH) == FileAt(m, INSTRUCTIONS_PATH)
  {
    var a, b, c := PruneAgents, SeedDefault(GeneralRules, sh.generalRules), SeedDefault(CustomInstructions, sh.instructions);
    var m1 := Do(a, m).value;
    var m2 := Do(b, m1).value;
    assert SeedOps(sh) == [a] + [b, c];
    ExecConcat([a], [b, c], m);
    ExecOne(a, m);
    ExecTwo(b, c, m1);
    ExecOne(c, m2);
    FoldOpInstructions(a, m);
    FoldOpInstructions(b, m1);
    FoldOpFiles(a, m, INSTRUCTIONS_PATH);
    FoldOpFiles(b, m1, INSTRUCTIONS_PATH);
    assert Do(c, m2) == Some(m2);
  }
}
