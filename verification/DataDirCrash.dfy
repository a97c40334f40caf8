/**
Set-up after a crash: stop after any number of file operations, run set-up
again, and compare with the run that was not interrupted.
*/
module DataDirCrash {
  import opened Options
  import opened Whitespace
  import opened DataDir

  // ---------------------------------------------------- running operations

  lemma {:induction false} ExecConcat(a: seq<Op>, b: seq<Op>, m: Entries)
    ensures Exec(a + b, m) == if Exec(a, m).ok then Exec(b, Exec(a, m).tree) else Exec(a, m)
  {
    hide Do;
    if a == [] {
      assert a + b == b;
    } else {
      assert (a + b)[1..] == a[1..] + b;
      match Do(a[0], m)
      case None =>
      case Some(m') => ExecConcat(a[1..], b, m');
    }
  }

  lemma ExecOne(op: Op, m: Entries)
    ensures Exec([op], m) == match Do(op, m) case None => Outcome(m, false) case Some(m') => Outcome(m', true)
  {
    hide Do;
    match Do(op, m)
    case None =>
    case Some(m') => assert Exec([op][1..], m') == Outcome(m', true);
  }

  /** A prefix of the operations, one longer. */
  lemma ExecNext(ops: seq<Op>, i: nat, m: Entries)
    requires i < |ops| && Exec(ops[..i + 1], m).ok
    ensures Exec(ops[..i], m).ok && Do(ops[i], Exec(ops[..i], m).tree) == Some(Exec(ops[..i + 1], m).tree)
  {
    assert ops[..i + 1] == ops[..i] + [ops[i]];
    ExecConcat(ops[..i], [ops[i]], m);
    ExecOne(ops[i], Exec(ops[..i], m).tree);
  }

  /** The file system already is as this operation would leave it. */
  predicate Stable(op: Op, m: Entries) { Do(op, m) == Some(m) }

  predicate AllStable(ops: seq<Op>, m: Entries) { forall k :: 0 <= k < |ops| ==> Stable(ops[k], m) }

  lemma {:induction false} ExecStable(ops: seq<Op>, m: Entries)
    requires AllStable(ops, m)
    ensures Exec(ops, m) == Outcome(m, true)
  {
    hide Do;
    if ops != [] { ExecStable(ops[1..], m); }
  }

  // -------------------------------------------- the layout part is restartable

  /** Where an old root entry belongs. */
  function HomeOf(n: Name): Name {
    if n in {Violations, PolicyHashes, Screenshots} then DotLocal
    else if n in {GeneralPolicy, ToolGate, ClaudeOverrides} then Config
    else Library
  }

  predicate Movable(n: Name) {
    n in {Projects, Agents, GeneralRules, Scratch, Tasks, Violations, PolicyHashes, Screenshots,
          GeneralPolicy, ToolGate, ClaudeOverrides}
  }

  predicate TopDir(n: Name) { n in {Library, Config, DotLocal, Plugins} }

  predicate LayoutOp(op: Op) {
    match op
    case MakeDir(n) => TopDir(n)
    case MakeDirIfOld(n) => TopDir(n)
    case MoveIfOld(n, into) => Movable(n) && into == HomeOf(n)
    case DropMarkerIfOld => true
    case MakeLogs => true
    case Stamp => true
    case _ => false
  }

  /** The operations that follow the layout: all of them inside the library. */
  predicate LibraryOp(op: Op) {
    op.SeedInstructions? || op.Append? || op.RemoveLegacy? || op.PruneAgent? || op.PruneAgents? || op.SeedDefault?
  }

  lemma LayoutOpsAre()
    ensures forall k :: 0 <= k < |LayoutOps()| ==> LayoutOp(LayoutOps()[k])
    ensures LayoutOps() ==
            [MakeDirIfOld(Library), MakeDirIfOld(Config), MakeDirIfOld(DotLocal),
             MoveIfOld(Projects, Library), MoveIfOld(Agents, Library), MoveIfOld(GeneralRules, Library),
             MoveIfOld(Scratch, Library), MoveIfOld(Tasks, Library),
             MoveIfOld(Violations, DotLocal), MoveIfOld(PolicyHashes, DotLocal), MoveIfOld(Screenshots, DotLocal),
             MoveIfOld(GeneralPolicy, Config), MoveIfOld(ToolGate, Config), MoveIfOld(ClaudeOverrides, Config),
             DropMarkerIfOld,
             MakeDir(Library), MakeDir(Config), MakeDir(Plugins), MakeDir(DotLocal), MakeLogs, Stamp]
  {
    ConfigMoves();
    LocalMoves();
    LibraryMoves();
    hide Moves;
  }

  lemma ConfigMoves()
    ensures Moves(CONFIG_NAMES, Config) == [MoveIfOld(GeneralPolicy, Config), MoveIfOld(ToolGate, Config), MoveIfOld(ClaudeOverrides, Config)]
  {
    hide Moves;
    MovesThree(CONFIG_NAMES, Config);
  }

  lemma LocalMoves()
    ensures Moves(LOCAL_NAMES, DotLocal) == [MoveIfOld(Violations, DotLocal), MoveIfOld(PolicyHashes, DotLocal), MoveIfOld(Screenshots, DotLocal)]
  {
    hide Moves;
    MovesThree(LOCAL_NAMES, DotLocal);
  }

  lemma LibraryMoves()
    ensures Moves(CL_NAMES, Library) ==
            [MoveIfOld(Projects, Library), MoveIfOld(Agents, Library), MoveIfOld(GeneralRules, Library),
             MoveIfOld(Scratch, Library), MoveIfOld(Tasks, Library)]
  {
    MovesThree(CL_NAMES[..3], Library);
    assert CL_NAMES[..4][..3] == CL_NAMES[..3];
    assert CL_NAMES[..5][..4] == CL_NAMES[..4] && CL_NAMES[..5] == CL_NAMES;
  }

  lemma MovesThree(names: seq<Name>, into: Name)
    requires |names| == 3
    ensures Moves(names, into) == [MoveIfOld(names[0], into), MoveIfOld(names[1], into), MoveIfOld(names[2], into)]
  {
    assert names[..2][..1] == names[..1] && names[..1][..0] == [];
    assert Moves(names[..1], into) == [MoveIfOld(names[0], into)];
  }

  lemma StampedSchema(m: Entries)
    ensures Schema(m[VersionTxt := File("2\n", true)]) == 2
  {
    assert TrimEnd("2\n") == "2" by { assert "2\n"[..1] == "2"; }
    assert Trim("2") == "2";
    assert DigitsValue("2") == 2 by { assert "2"[..0] == []; }
  }

  lemma SameVersionSameSchema(m: Entries, m': Entries)
    requires VersionTxt in m <==> VersionTxt in m'
    requires VersionTxt in m ==> m'[VersionTxt] == m[VersionTxt]
    ensures Schema(m') == Schema(m)
  {
  }

  /** Only the stamp moves the schema, and only forward to 2. */
  lemma LayoutSchema(op: Op, m: Entries)
    requires LayoutOp(op) && Do(op, m).Some?
    ensures Schema(Do(op, m).value) == if op.Stamp? && Schema(m) < 2 then 2 else Schema(m)
  {
    if op.Stamp? {
      StampedSchema(m);
    } else {
      VersionKept(op, m);
      SameVersionSameSchema(m, Do(op, m).value);
    }
    hide LayoutOp;
  }

  lemma VersionKept(op: Op, m: Entries)
    requires LayoutOp(op) && !op.Stamp? && Do(op, m).Some?
    ensures var m' := Do(op, m).value;
            (VersionTxt in m <==> VersionTxt in m') && (VersionTxt in m ==> m'[VersionTxt] == m[VersionTxt])
  {
    hide Schema;
  }

  /** What it takes for a layout operation to have nothing to do. */
  predicate Settled(op: Op, m: Entries) {
    match op
    case MakeDir(n) => IsDir(m, n)
    case MakeDirIfOld(n) => Schema(m) >= 2 || IsDir(m, n)
    case MoveIfOld(n, into) => !MoveApplies(m, n, into)
    case DropMarkerIfOld => Schema(m) >= 2 || ClVersionTxt !in m
    case MakeLogs => IsDir(m, DotLocal) && IsDir(m[DotLocal].entries, Logs)
    case Stamp => Schema(m) >= 2
    case _ => false
  }

  lemma SettledIsStable(op: Op, m: Entries)
    requires LayoutOp(op) && Settled(op, m)
    ensures Stable(op, m)
  {
    hide Schema;
    if op.MakeLogs? { assert m[DotLocal := Dir(m[DotLocal].entries)] == m; }
  }

  /** Done once, a layout operation has nothing left to do. */
  lemma Settles(op: Op, m: Entries)
    requires LayoutOp(op) && Do(op, m).Some?
    ensures Settled(op, Do(op, m).value)
  {
    LayoutSchema(op, m);
    hide Schema;
  }

  /** A layout operation undoes nothing another has settled. */
  lemma KeepsSettled(op: Op, other: Op, m: Entries)
    requires LayoutOp(op) && LayoutOp(other) && Do(op, m).Some? && Settled(other, m)
    ensures Settled(other, Do(op, m).value)
  {
    LayoutSchema(op, m);
    hide Schema, Do, MoveApplies;
    match other {
      case MakeDir(n) => KeepsDir(op, n, m);
      case MakeDirIfOld(n) => if IsDir(m, n) { KeepsDir(op, n, m); }
      case MoveIfOld(n, into) => KeepsMoved(op, n, m);
      case DropMarkerIfOld => if ClVersionTxt !in m { KeepsNoMarker(op, m); }
      case MakeLogs => KeepsLogs(op, m);
      case Stamp =>
    }
  }

  lemma KeepsDir(op: Op, n: Name, m: Entries)
    requires LayoutOp(op) && Do(op, m).Some? && TopDir(n) && IsDir(m, n)
    ensures IsDir(Do(op, m).value, n)
  {
    hide Schema;
  }

  lemma KeepsMoved(op: Op, n: Name, m: Entries)
    requires LayoutOp(op) && Do(op, m).Some? && Movable(n) && !MoveApplies(m, n, HomeOf(n))
    ensures !MoveApplies(Do(op, m).value, n, HomeOf(n))
  {
    LayoutSchema(op, m);
    hide Schema;
    match op {
      case MakeDir(k) =>
      case MakeDirIfOld(k) =>
      case MoveIfOld(k, into) =>
      case DropMarkerIfOld =>
      case MakeLogs =>
      case Stamp =>
    }
  }

  lemma KeepsNoMarker(op: Op, m: Entries)
    requires LayoutOp(op) && Do(op, m).Some? && ClVersionTxt !in m
    ensures ClVersionTxt !in Do(op, m).value
  {
    hide Schema;
  }

  lemma KeepsLogs(op: Op, m: Entries)
    requires LayoutOp(op) && Do(op, m).Some? && IsDir(m, DotLocal) && IsDir(m[DotLocal].entries, Logs)
    ensures var m' := Do(op, m).value; IsDir(m', DotLocal) && IsDir(m'[DotLocal].entries, Logs)
  {
    hide Schema;
  }

  predicate AllSettled(ops: seq<Op>, m: Entries) { forall k :: 0 <= k < |ops| ==> LayoutOp(ops[k]) && Settled(ops[k], m) }

  lemma AllSettledRerun(ops: seq<Op>, m: Entries)
    requires AllSettled(ops, m)
    ensures Exec(ops, m) == Outcome(m, true)
  {
    hide Do, LayoutOp, Settled;
    forall k | 0 <= k < |ops| ensures Stable(ops[k], m) { SettledIsStable(ops[k], m); }
    ExecStable(ops, m);
  }

  /** After a prefix of layout operations, that prefix has nothing left to do. */
  lemma {:induction false} PrefixSettled(ops: seq<Op>, i: nat, m: Entries)
    requires i <= |ops| && (forall k :: 0 <= k < |ops| ==> LayoutOp(ops[k])) && Exec(ops[..i], m).ok
    ensures AllSettled(ops[..i], Exec(ops[..i], m).tree)
  {
    hide Do, LayoutOp, Settled;
    if i > 0 {
      ExecNext(ops, i - 1, m);
      PrefixSettled(ops, i - 1, m);
      var s := Exec(ops[..i - 1], m).tree;
      Settles(ops[i - 1], s);
      forall k | 0 <= k < i - 1 ensures Settled(ops[k], Do(ops[i - 1], s).value) {
        assert ops[..i - 1][k] == ops[k];
        KeepsSettled(ops[i - 1], ops[k], s);
      }
    }
  }

  /** Interrupted anywhere in the layout, a second run continues as the first would have. */
  lemma LayoutRestarts(i: nat, m: Entries)
    requires i <= |LayoutOps()| && Exec(LayoutOps()[..i], m).ok
    ensures Exec(LayoutOps(), Exec(LayoutOps()[..i], m).tree) == Exec(LayoutOps(), m)
  {
    hide LayoutOp, Settled, Exec, LayoutOps;
    LayoutOpsAre();
    var ops := LayoutOps();
    var s := Exec(ops[..i], m).tree;
    PrefixSettled(ops, i, m);
    AllSettledRerun(ops[..i], s);
    assert ops == ops[..i] + ops[i..];
    ExecConcat(ops[..i], ops[i..], s);
    ExecConcat(ops[..i], ops[i..], m);
  }

  /** The state the layout leaves behind, and the library operations keep. */
  predicate Ready(m: Entries) { AllSettled(LayoutOps(), m) }

  lemma ReadyMeans(m: Entries)
    requires Ready(m)
    ensures Schema(m) >= 2 && IsDir(m, Library)
  {
    LayoutOpsAre();
    assert Settled(LayoutOps()[|LayoutOps()| - 1], m);
    assert Settled(LayoutOps()[15], m);
  }

  lemma LibraryOpFrame(op: Op, m: Entries)
    requires LibraryOp(op) && IsDir(m, Library) && Do(op, m).Some?
    ensures IsDir(Do(op, m).value, Library)
    ensures Do(op, m).value == m[Library := Do(op, m).value[Library]]
  {
    assert m == m[Library := m[Library]];
  }

  lemma LibraryOpKeepsReady(op: Op, m: Entries)
    requires LibraryOp(op) && Ready(m) && Do(op, m).Some?
    ensures Ready(Do(op, m).value)
  {
    ReadyMeans(m);
    LibraryOpFrame(op, m);
    var m' := Do(op, m).value;
    SameVersionSameSchema(m, m');
    LayoutOpsAre();
    hide Schema, Do, LayoutOps;
    forall k | 0 <= k < |LayoutOps()| ensures Settled(LayoutOps()[k], m') {
      FrameKeepsSettled(LayoutOps()[k], m, m');
    }
  }

  lemma FrameKeepsSettled(op: Op, m: Entries, m': Entries)
    requires LayoutOp(op) && Settled(op, m) && IsDir(m', Library) && m' == m[Library := m'[Library]]
    requires Schema(m) >= 2 && Schema(m') >= 2
    ensures Settled(op, m')
  {
    hide Schema;
  }

  lemma {:induction false} LibraryOpsKeepReady(ops: seq<Op>, m: Entries)
    requires Ready(m) && forall k :: 0 <= k < |ops| ==> LibraryOp(ops[k])
    ensures Ready(Exec(ops, m).tree)
    decreases |ops|
  {
    hide Do, Ready, LibraryOp;
    if ops != [] {
      match Do(ops[0], m)
      case None =>
      case Some(m') =>
        LibraryOpKeepsReady(ops[0], m);
        LibraryOpsKeepReady(ops[1..], m');
    }
  }

  lemma LayoutGivesReady(m: Entries)
    requires Exec(LayoutOps(), m).ok
    ensures Ready(Exec(LayoutOps(), m).tree)
  {
    hide LayoutOp, Settled, Exec, LayoutOps;
    LayoutOpsAre();
    assert LayoutOps()[..|LayoutOps()|] == LayoutOps();
    PrefixSettled(LayoutOps(), |LayoutOps()|, m);
  }

  lemma ReadyRerun(m: Entries)
    requires Ready(m)
    ensures Exec(LayoutOps(), m) == Outcome(m, true)
  {
    AllSettledRerun(LayoutOps(), m);
  }
}
