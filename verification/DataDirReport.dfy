/**
When set-up succeeds, and what it tells the user, said by what stood in the
directory before.
*/
module DataDirReport {
  import opened Options
  import opened Whitespace
  import opened DataDir
  import opened DataDirCrash
  import opened DataDirFold
  import opened DataDirContent
  import opened DataDirSetup
  import opened DataDirPlain

  // --------------------------------------------------- when set-up succeeds

  /** Nothing of the wrong kind where a directory is needed, or, in an old directory, where a marker belongs. */
  predicate Clear(m: Entries) { FoldersClear(m) && (Schema(m) < 2 ==> !IsDir(m, VersionTxt) && !IsDir(m, ClVersionTxt)) }

  predicate FoldersClear(m: Entries) {
    && (Library in m ==> m[Library].Dir?) && (Config in m ==> m[Config].Dir?)
    && (Plugins in m ==> m[Plugins].Dir?) && (DotLocal in m ==> m[DotLocal].Dir?)
    && (Logs in Inside(m, DotLocal) ==> Inside(m, DotLocal)[Logs].Dir?)
  }

  lemma FoldersStayClear(op: Op, m: Entries)
    requires LayoutOp(op) && Do(op, m).Some? && FoldersClear(m)
    ensures FoldersClear(Do(op, m).value)
  {
    hide Schema;
    match op {
      case MakeDir(_) =>
      case MakeDirIfOld(_) =>
      case MoveIfOld(_, _) =>
      case DropMarkerIfOld =>
      case MakeLogs =>
      case _ =>
    }
  }

  lemma ClearStep(op: Op, m: Entries)
    requires LayoutOp(op) && Clear(m) && (op.MakeLogs? ==> IsDir(m, DotLocal))
    ensures Do(op, m).Some? && Clear(Do(op, m).value)
  {
    ClearGoes(op, m);
    FoldersStayClear(op, m);
    LayoutSchema(op, m);
    hide Schema, Do, FoldersClear, IsDir, LayoutOp;
    if Schema(m) < 2 { MarkersWereClear(op, m); }
  }

  lemma ClearGoes(op: Op, m: Entries)
    requires LayoutOp(op) && Clear(m) && (op.MakeLogs? ==> IsDir(m, DotLocal))
    ensures Do(op, m).Some?
  {
    hide Schema;
  }

  lemma ClearNext(m: Entries, i: nat)
    requires i < |LayoutOps()| && Exec(LayoutOps()[..i], m).ok && Clear(Exec(LayoutOps()[..i], m).tree)
    ensures Exec(LayoutOps()[..i + 1], m).ok && Clear(Exec(LayoutOps()[..i + 1], m).tree)
  {
    hide Exec, Do, LayoutOps, LayoutOp, Clear;
    var ops, op, s := LayoutOps(), LayoutOps()[i], Exec(LayoutOps()[..i], m).tree;
    LayoutOpsAreLayout(i);
    if op.MakeLogs? { LogsHaveTheirHome(m, i); }
    ClearStep(op, s);
    assert ops[..i + 1] == ops[..i] + [op];
    ExecConcat(ops[..i], [op], m);
    ExecOne(op, s);
  }

  lemma LogsHaveTheirHome(m: Entries, i: nat)
    requires i < |LayoutOps()| && LayoutOps()[i].MakeLogs? && Exec(LayoutOps()[..i], m).ok
    ensures IsDir(Exec(LayoutOps()[..i], m).tree, DotLocal)
  {
    LayoutOpsAre();
    hide Exec, LayoutOps, LayoutOp;
    assert i == 19;
    PrefixSettled(LayoutOps(), i, m);
    assert Settled(LayoutOps()[..i][18], Exec(LayoutOps()[..i], m).tree);
  }

  lemma {:induction false} ClearUpTo(m: Entries, i: nat)
    requires Clear(m) && i <= |LayoutOps()|
    ensures Exec(LayoutOps()[..i], m).ok && Clear(Exec(LayoutOps()[..i], m).tree)
  {
    hide Exec, LayoutOps, Clear;
    if i == 0 {
      assert LayoutOps()[..0] == [];
      StandsAtFirst(m, Projects);
    } else {
      ClearUpTo(m, i - 1);
      ClearNext(m, i - 1);
    }
  }

  lemma FoldersWereClear(op: Op, m: Entries)
    requires LayoutOp(op) && Do(op, m).Some? && FoldersClear(Do(op, m).value)
    ensures FoldersClear(m)
  {
    hide Schema;
    match op {
      case MakeDir(_) =>
      case MakeDirIfOld(_) =>
      case MoveIfOld(_, _) =>
      case DropMarkerIfOld =>
      case MakeLogs =>
      case _ =>
    }
  }

  lemma MarkersWereClear(op: Op, m: Entries)
    requires LayoutOp(op) && Do(op, m).Some? && Schema(m) < 2
    ensures op.Stamp? ==> !IsDir(m, VersionTxt)
    ensures op.DropMarkerIfOld? ==> !IsDir(m, ClVersionTxt) && !IsDir(Do(op, m).value, ClVersionTxt)
    ensures !op.Stamp? ==> (IsDir(m, VersionTxt) <==> IsDir(Do(op, m).value, VersionTxt))
    ensures !op.DropMarkerIfOld? ==> (IsDir(m, ClVersionTxt) <==> IsDir(Do(op, m).value, ClVersionTxt))
  {
    hide Schema;
  }

  /** What success from operation `i` on says about the tree it starts from. */
  predicate ClearFrom(i: nat, m: Entries) {
    FoldersClear(m) && (Schema(m) < 2 ==> (i <= 20 ==> !IsDir(m, VersionTxt)) && (i <= 14 ==> !IsDir(m, ClVersionTxt)))
  }

  lemma ClearBack(i: nat, m: Entries)
    requires i < |LayoutOps()| && Do(LayoutOps()[i], m).Some? && ClearFrom(i + 1, Do(LayoutOps()[i], m).value)
    ensures ClearFrom(i, m)
  {
    hide Do, LayoutOps, LayoutOp, FoldersClear, Schema, IsDir;
    var op := LayoutOps()[i];
    LayoutOpsAreLayout(i);
    MoveAtItsTurn(i);
    FoldersWereClear(op, m);
    LayoutSchema(op, m);
    if Schema(m) < 2 { MarkersWereClear(op, m); }
  }

  lemma {:induction false} SuccessWasClear(m: Entries, i: nat)
    requires i <= |LayoutOps()| && Exec(LayoutOps(), m).ok
    ensures Exec(LayoutOps()[..i], m).ok && ClearFrom(i, Exec(LayoutOps()[..i], m).tree)
    decreases |LayoutOps()| - i
  {
    hide Exec, Do, LayoutOps, ClearFrom, Ready;
    if i == |LayoutOps()| {
      assert LayoutOps()[..i] == LayoutOps();
      LayoutGivesReady(m);
      ReadyIsClear(Exec(LayoutOps(), m).tree, i);
    } else {
      SuccessWasClear(m, i + 1);
      ExecNext(LayoutOps(), i, m);
      ClearBack(i, Exec(LayoutOps()[..i], m).tree);
    }
  }

  lemma ReadyIsClear(f: Entries, i: nat)
    requires Ready(f)
    ensures ClearFrom(i, f)
  {
    ReadyMeans(f);
    ReadyDirs(f);
    hide Schema, Ready;
  }

  lemma LayoutSucceeds(m: Entries)
    ensures Exec(LayoutOps(), m).ok <==> Clear(m)
  {
    hide Exec, LayoutOps, FoldersClear, Schema;
    LayoutOpsLength();
    if Clear(m) {
      ClearUpTo(m, 21);
      assert LayoutOps()[..21] == LayoutOps();
    }
    if Exec(LayoutOps(), m).ok {
      SuccessWasClear(m, 0);
      assert LayoutOps()[..0] == [];
      StandsAtFirst(m, Projects);
    }
  }

  lemma LayoutOpsLength()
    ensures |LayoutOps()| == 21
  {
    LayoutOpsAre();
  }

  /** The agent left a text of its own that is neither blank nor the one shipped. */
  ghost predicate HasEdited(m: Entries, dir: Name, template: string) {
    exists body: string :: OwnText(m, dir, body) && Edited(template, body)
  }

  lemma TailSucceeds(sh: Shipped, x: Entries)
    requires IsDir(x, Library)
    ensures Tail(sh, x).ok <==>
            ((Folds(sh, x, Brian) || Folds(sh, x, Rain)) && HasInstructions(x) ==> Instructions(x).Some?)
  {
    hide Exec, AgentOps, SeedOps, UserEdited, Legacy, AgentsDir, Instructions, HasInstructions, Added;
    StageEffect(sh, x, Brian);
    var b := Stage(sh, x, Brian);
    if b.ok {
      StageEffect(sh, b.tree, Rain);
      var r := Stage(sh, b.tree, Rain);
      if r.ok { SeedOpsWork(sh, r.tree); }
    }
  }

  lemma FoldsAreEdits(sh: Shipped, m: Entries, a: Agent)
    requires Exec(LayoutOps(), m).ok
    ensures Folds(sh, Exec(LayoutOps(), m).tree, a) <==> HasEdited(m, PlainDir(a), LegacyTemplate(sh, a))
    ensures Legacy(Exec(LayoutOps(), m).tree, a).Some? <==> exists body: string :: OwnText(m, PlainDir(a), body)
  {
    hide Exec, LayoutOps, Legacy, OwnText, LegacyBody, Trim;
    LayoutLegacy(m, a);
    forall body: string ensures LegacyBody(m, a) == Some(body) <==> OwnText(m, PlainDir(a), body) {
      LegacyBodyIs(m, a, body);
    }
    if LegacyBody(m, a).Some? { assert OwnText(m, PlainDir(a), LegacyBody(m, a).value); }
  }

  lemma LayoutKeepsConsolidated(m: Entries)
    requires Exec(LayoutOps(), m).ok
    ensures var x := Exec(LayoutOps(), m).tree;
            IsDir(x, Library) && Instructions(x) == Instructions(m) && (HasInstructions(x) <==> HasInstructions(m))
  {
    hide Exec, LayoutOps, Instructions, HasInstructions, LayoutOp, Ready;
    LayoutOpsAre();
    LayoutKeepsInstructions(LayoutOps(), m);
    LayoutGivesReady(m);
    ReadyMeans(Exec(LayoutOps(), m).tree);
  }

  /**
  Set-up succeeds exactly when no file stands where it needs a folder, no
  folder where an old directory's markers belong, and there is no edited text
  to add to a consolidated file that is not text.
  */
  lemma {:induction false} SucceedsExactly(sh: Shipped, m: Entries)
    ensures Init(sh, m).ok <==>
            && (Library in m ==> m[Library].Dir?) && (Config in m ==> m[Config].Dir?)
            && (Plugins in m ==> m[Plugins].Dir?) && (DotLocal in m ==> m[DotLocal].Dir?)
            && (Logs in Inside(m, DotLocal) ==> Inside(m, DotLocal)[Logs].Dir?)
            && (Schema(m) < 2 ==> !IsDir(m, VersionTxt) && !IsDir(m, ClVersionTxt))
            && (HasEdited(m, BrianDir, sh.legacyBrian) || HasEdited(m, RainDir, sh.legacyRain) ==>
                  CustomInstructions !in Inside(m, Library) || IsTextFile(Inside(m, Library), CustomInstructions))
  {
    hide Init, Exec, LayoutOps, Schema, HasEdited, Tail, Inside, Folds;
    InitSplits(sh, m);
    LayoutSucceeds(m);
    assert Clear(m) <==>
           && (Library in m ==> m[Library].Dir?) && (Config in m ==> m[Config].Dir?)
           && (Plugins in m ==> m[Plugins].Dir?) && (DotLocal in m ==> m[DotLocal].Dir?)
           && (Logs in Inside(m, DotLocal) ==> Inside(m, DotLocal)[Logs].Dir?)
           && (Schema(m) < 2 ==> !IsDir(m, VersionTxt) && !IsDir(m, ClVersionTxt));
    if Clear(m) {
      hide Clear;
      var x := Exec(LayoutOps(), m).tree;
      LayoutKeepsConsolidated(m);
      TailSucceeds(sh, x);
      FoldsAreEdits(sh, m, Brian);
      FoldsAreEdits(sh, m, Rain);
      assert PlainDir(Brian) == BrianDir && PlainDir(Rain) == RainDir;
    }
  }

  // ------------------------------------------------------ what it reports

  /** Something old is waiting to be moved or dropped. */
  predicate OldEntries(m: Entries) {
    && Schema(m) < 2
    && (|| ClVersionTxt in m
        || (exists n :: n in {Projects, Agents, GeneralRules, Scratch, Tasks} && n in m && n !in Inside(m, Library))
        || (exists n :: n in {Violations, PolicyHashes, Screenshots} && n in m && n !in Inside(m, DotLocal))
        || (exists n :: n in {GeneralPolicy, ToolGate, ClaudeOverrides} && n in m && n !in Inside(m, Config)))
  }

  /** Something these operations would move or drop. */
  ghost predicate Pending(ops: seq<Op>, m: Entries) {
    || (exists n :: Movable(n) && MoveIn(ops, n) && MoveApplies(m, n, HomeOf(n)))
    || (DropMarkerIfOld in ops && Schema(m) < 2 && ClVersionTxt in m)
  }

  lemma MarkerWaits(op: Op, m: Entries)
    requires LayoutOp(op) && !op.Stamp? && Do(op, m).Some? && !op.DropMarkerIfOld?
    ensures ClVersionTxt in Do(op, m).value <==> ClVersionTxt in m
  {
    hide Schema;
  }

  lemma NothingMovesLate(op: Op, m: Entries)
    requires op.DropMarkerIfOld? && Do(op, m).Some?
    ensures Schema(m) < 2 ==> ClVersionTxt !in Do(op, m).value
    ensures !Moves1(op, m) ==> Do(op, m) == Some(m)
  {
    hide Schema;
  }

  lemma PendingStep(op: Op, rest: seq<Op>, m: Entries)
    requires Orderly([op] + rest) && !op.Stamp? && Do(op, m).Some?
    ensures Pending([op] + rest, m) <==> Moves1(op, m) || Pending(rest, Do(op, m).value)
  {
    hide Do, MoveIn, MoveApplies, Orderly, LayoutOp, Movable, HomeOf, Schema;
    var m', ops := Do(op, m).value, [op] + rest;
    MoveInSplit(op, rest, Library);
    LayoutSchema(op, m);
    forall n | Movable(n)
      ensures MoveIn(ops, n) && MoveApplies(m, n, HomeOf(n)) <==>
              (MoveIn(rest, n) && MoveApplies(m', n, HomeOf(n))) || (op == MoveIfOld(n, HomeOf(n)) && MoveApplies(m, n, HomeOf(n)))
    {
      MoveStep(op, rest, m, n);
    }
    if op.MoveIfOld? { MovesAreHome(op); }
    if op.DropMarkerIfOld? { NothingMovesLate(op, m); } else { MarkerWaits(op, m); }
    assert DropMarkerIfOld in ops <==> op == DropMarkerIfOld || DropMarkerIfOld in rest;
  }

  lemma MovesAreHome(op: Op)
    requires LayoutOp(op) && op.MoveIfOld?
    ensures Movable(op.name) && op == MoveIfOld(op.name, HomeOf(op.name))
  {
  }

  lemma RestIsOrderly(ops: seq<Op>)
    requires Orderly(ops) && ops != []
    ensures Orderly(ops[1..]) && ops == [ops[0]] + ops[1..] && (ops[0].Stamp? ==> ops[1..] == [])
  {
    hide LayoutOp;
    forall k | 0 <= k < |ops[1..]| ensures LayoutOp(ops[1..][k]) && ops[1..][k] == ops[k + 1] {
      assert LayoutOp(ops[k + 1]);
    }
  }

  lemma {:induction false} MovedIsPending(ops: seq<Op>, m: Entries)
    requires Orderly(ops) && Exec(ops, m).ok && (forall k :: 0 <= k < |ops| ==> !ops[k].Stamp?)
    ensures Moved(ops, m) <==> Pending(ops, m)
    decreases |ops|
  {
    if ops == [] {
      NothingPending(m);
    } else {
      hide Do, Pending, Moves1, Orderly;
      RestIsOrderly(ops);
      PendingStep(ops[0], ops[1..], m);
      MovedIsPending(ops[1..], Do(ops[0], m).value);
    }
  }

  lemma NothingPending(m: Entries)
    ensures !Pending([], m)
  {
  }

  lemma LegacyPart(m: Entries)
    requires Exec(LayoutOps(), m).ok
    ensures Orderly(LegacyOps()) && Exec(LegacyOps(), m).ok && (forall k :: 0 <= k < |LegacyOps()| ==> !LegacyOps()[k].Stamp?)
    ensures (forall n :: Movable(n) ==> MoveIn(LegacyOps(), n)) && DropMarkerIfOld in LegacyOps()
  {
    hide Exec, LayoutOps, LegacyOps, LayoutOp, Movable, HomeOf, Turn;
    LegacyOpsAre();
    AllMovesPresent();
    LayoutOpsLength();
    LayoutOpsAreLayout(14);
    var ops, l := LayoutOps(), LegacyOps();
    assert ops == l + ops[15..];
    ExecConcat(l, ops[15..], m);
    forall k | 0 <= k < |l| ensures l[k] == ops[k] && LayoutOp(l[k]) { LayoutOpsAreLayout(k); }
    forall n | Movable(n) ensures MoveIn(l, n) {
      EveryMoveHasItsTurn(n);
      TurnInTheMove(n);
      assert l[Turn(n)] == MoveIfOld(n, HomeOf(n));
    }
    assert l[14] == DropMarkerIfOld;
  }

  lemma TurnInTheMove(n: Name)
    ensures Turn(n) < 15
  {
  }

  lemma PendingIsOld(ops: seq<Op>, m: Entries)
    requires (forall n :: Movable(n) ==> MoveIn(ops, n)) && DropMarkerIfOld in ops
    ensures Pending(ops, m) <==> OldEntries(m)
  {
    HomesArePlain();
    hide Schema, MoveIn;
    if Pending(ops, m) && ClVersionTxt !in m {
      var n :| Movable(n) && MoveIn(ops, n) && MoveApplies(m, n, HomeOf(n));
      assert n in m && n !in Inside(m, HomeOf(n));
    }
    if OldEntries(m) && ClVersionTxt !in m {
      if n :| n in {Projects, Agents, GeneralRules, Scratch, Tasks} && n in m && n !in Inside(m, Library) {
        assert Movable(n) && MoveIn(ops, n) && MoveApplies(m, n, HomeOf(n));
      } else if n :| n in {Violations, PolicyHashes, Screenshots} && n in m && n !in Inside(m, DotLocal) {
        assert Movable(n) && MoveIn(ops, n) && MoveApplies(m, n, HomeOf(n));
      } else {
        var n :| n in {GeneralPolicy, ToolGate, ClaudeOverrides} && n in m && n !in Inside(m, Config);
        assert Movable(n) && MoveIn(ops, n) && MoveApplies(m, n, HomeOf(n));
      }
    }
  }

  lemma MovedIsOld(m: Entries)
    requires Exec(LayoutOps(), m).ok
    ensures Moved(LegacyOps(), m) <==> OldEntries(m)
  {
    hide Exec, LayoutOps, LegacyOps, Orderly, Moved, Pending, OldEntries;
    LegacyPart(m);
    MovedIsPending(LegacyOps(), m);
    PendingIsOld(LegacyOps(), m);
  }

  lemma FilledSlotsAre(sh: Shipped, m: Entries)
    requires Init(sh, m).ok
    ensures FilledSlots(sh, m) ==
            (if exists body: string :: OwnText(m, BrianDir, body) then [FoldedAgent(Brian)] else [])
            + (if exists body: string :: OwnText(m, RainDir, body) then [FoldedAgent(Rain)] else [])
            + (if GeneralRules in Inside(m, Library) || (Schema(m) < 2 && GeneralRules in m) then [] else [Seeded(GeneralRules)])
            + (if CustomInstructions in Inside(m, Library) || HasEdited(m, BrianDir, sh.legacyBrian) || HasEdited(m, RainDir, sh.legacyRain)
               then [] else [Seeded(CustomInstructions)])
  {
    hide Init, Exec, LayoutOps, SeedOps, AgentOps, Legacy, Schema, OwnText, HasEdited, FoldOp, Folds, Instructions;
    SuccessfulParts(sh, m);
    var x := Exec(LayoutOps(), m).tree;
    var y := Stage(sh, x, Brian).tree;
    var z := Stage(sh, y, Rain).tree;
    FoldsAreEdits(sh, m, Brian);
    FoldsAreEdits(sh, m, Rain);
    assert PlainDir(Brian) == BrianDir && PlainDir(Rain) == RainDir;
    LayoutKeepsConsolidated(m);
    SlotsOfTheTail(sh, x);
    LayoutPlaces(m, GeneralRules);
    assert HomeOf(GeneralRules) == Library;
  }

  /** Which slots are there when the seeds come. */
  lemma SlotsOfTheTail(sh: Shipped, x: Entries)
    requires IsDir(x, Library) && Stage(sh, x, Brian).ok && Stage(sh, Stage(sh, x, Brian).tree, Rain).ok
    ensures var z := Stage(sh, Stage(sh, x, Brian).tree, Rain).tree;
            && (GeneralRules in Inside(z, Library) <==> GeneralRules in Inside(x, Library))
            && (CustomInstructions in Inside(z, Library) <==> HasInstructions(x) || Folds(sh, x, Brian) || Folds(sh, x, Rain))
  {
    hide Exec, AgentOps, Legacy, UserEdited, Instructions, Added, FoldOp;
    var y := Stage(sh, x, Brian).tree;
    StageEffect(sh, x, Brian);
    StageEffect(sh, y, Rain);
    AgentOpsSeedNothing(sh, x, Brian);
    AgentOpsSeedNothing(sh, y, Rain);
    FoldsKeepRules(AgentOps(sh, x, Brian), x);
    FoldsKeepRules(AgentOps(sh, y, Rain), y);
  }

  /**
  What the user is told. A refusal is Failed. A directory with no recorded
  version and no sign of an old install is a first run. Otherwise the report
  lists, in this order, whose file was folded in, which slots were missing, and
  whether anything old was moved; with nothing to list it is Existing.
  */
  lemma {:induction false} ReportIsExact(sh: Shipped, m: Entries)
    ensures var untouched := Schema(m) == 0 && ClVersionTxt !in m && !IsDir(m, Projects) && !IsDir(m, Agents) && GeneralRules !in m;
            var slots :=
              (if exists body: string :: OwnText(m, BrianDir, body) then [FoldedAgent(Brian)] else [])
              + (if exists body: string :: OwnText(m, RainDir, body) then [FoldedAgent(Rain)] else [])
              + (if GeneralRules in Inside(m, Library) || (Schema(m) < 2 && GeneralRules in m) then [] else [Seeded(GeneralRules)])
              + (if CustomInstructions in Inside(m, Library) || HasEdited(m, BrianDir, sh.legacyBrian) || HasEdited(m, RainDir, sh.legacyRain)
                 then [] else [Seeded(CustomInstructions)])
              + (if OldEntries(m) then [Migrated] else []);
            ResultOf(sh, Root(m)) ==
            if !Init(sh, m).ok then Failed
            else if untouched then FirstRun
            else if slots == [] then Existing
            else Repaired(slots)
    ensures ResultOf(sh, Absent) == ResultOf(sh, Root(map[])) && ResultOf(sh, NotADirectory) == Failed
  {
    hide Init, Schema, OwnText, HasEdited, OldEntries, FilledSlots, Moved, LegacyOps, LayoutOps, Exec;
    if Init(sh, m).ok {
      FilledSlotsAre(sh, m);
      SuccessfulParts(sh, m);
      MovedIsOld(m);
    }
  }
}
