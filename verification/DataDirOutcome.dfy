/**
What set-up reports when it is run again after a crash: the tree converges, the
welcome need not.
*/
module DataDirOutcome {
  import opened Options
  import opened Whitespace
  import opened DataDir
  import opened DataDirCrash
  import opened DataDirFold
  import opened DataDirContent
  import opened DataDirSetup
  import opened DataDirPlain
  import opened DataDirReport

  /** Past the layout the schema is recorded, wherever the stop. */
  lemma StampedAfterLayout(sh: Shipped, m: Entries, i: nat, s: Entries)
    requires StoppedAfter(sh, m, i, s) && i >= |LayoutOps()|
    ensures Schema(s) >= 2
  {
    hide Exec, LayoutOps, AgentOps, SeedOps, Ready, Schema;
    var l, b, r, e := LayoutOps(), BrianOps(sh, m), RainOps(sh, m), SeedOps(sh);
    var rest := b + (r + e);
    assert InitOps(sh, m) == l + rest;
    StopPast(l, rest, i, m, s);
    LayoutGivesReady(m);
    AgentOpsAreFolds(sh, Exec(l, m).tree, Brian);
    AgentOpsAreFolds(sh, Exec(l + b, m).tree, Rain);
    SeedOpsThree(sh);
    LibraryOpsKeepReady(rest[..i - |l|], Exec(l, m).tree);
    ReadyMeans(s);
  }

  // ------------------------------------------- the old markers, stop by stop

  /** The root entries whose presence tells an old install, the old version marker aside. */
  predicate IsMarker(n: Name) { n in {Projects, Agents, GeneralRules} }

  /** The entry is moved away in the first `i` operations. */
  predicate MovedBy(m: Entries, n: Name, i: nat) { i > Turn(n) && n !in Inside(m, Library) }

  /** What the first `i` operations of the layout have done to one marker. */
  predicate MarkerAfter(m: Entries, n: Name, i: nat, s: Entries) {
    && (n in s <==> n in m && !MovedBy(m, n, i))
    && (n in s ==> s[n] == m[n])
    && (i <= Turn(n) ==> (n in Inside(s, Library) <==> n in Inside(m, Library)))
  }

  lemma OtherOpKeepsMarker(op: Op, m: Entries, n: Name)
    requires LayoutOp(op) && Do(op, m).Some? && IsMarker(n) && op != MoveIfOld(n, Library)
    ensures var m' := Do(op, m).value;
            && (n in m' <==> n in m) && (n in m ==> m'[n] == m[n])
            && (n in Inside(m', Library) <==> n in Inside(m, Library))
  {
    hide Schema;
  }

  lemma OwnMove(m: Entries, n: Name)
    requires IsMarker(n) && Schema(m) == 0 && Do(MoveIfOld(n, Library), m).Some?
    ensures var m' := Do(MoveIfOld(n, Library), m).value;
            && (n in m' <==> n in m && n in Inside(m, Library)) && (n in m' ==> m'[n] == m[n])
  {
    hide Schema;
  }

  /** The layout, one operation further. */
  lemma LayoutNext(m: Entries, i: nat)
    requires i < |LayoutOps()| && Exec(LayoutOps()[..i + 1], m).ok
    ensures var s, op := Exec(LayoutOps()[..i], m).tree, LayoutOps()[i];
            Exec(LayoutOps()[..i], m).ok && LayoutOp(op) && Do(op, s) == Some(Exec(LayoutOps()[..i + 1], m).tree)
  {
    hide Exec, Do, LayoutOps, LayoutOp;
    LayoutOpsAre();
    ExecNext(LayoutOps(), i, m);
  }

  lemma {:induction false} SchemaBeforeStamp(m: Entries, i: nat)
    requires i < |LayoutOps()| && Exec(LayoutOps()[..i], m).ok
    ensures Schema(Exec(LayoutOps()[..i], m).tree) == Schema(m)
  {
    hide Exec, Do, LayoutOps, LayoutOp, Schema;
    if i == 0 {
      NoOps(m);
    } else {
      LayoutNext(m, i - 1);
      SchemaBeforeStamp(m, i - 1);
      MoveAtItsTurn(i - 1);
      LayoutSchema(LayoutOps()[i - 1], Exec(LayoutOps()[..i - 1], m).tree);
    }
  }

  lemma NoOps(m: Entries)
    ensures Exec(LayoutOps()[..0], m) == Outcome(m, true)
  {
    assert LayoutOps()[..0] == [];
  }

  lemma MarkerIsMovable(n: Name)
    requires IsMarker(n)
    ensures Movable(n) && HomeOf(n) == Library
  {
  }

  lemma MarkerStep(m: Entries, n: Name, i: nat, s: Entries, s': Entries)
    requires IsMarker(n) && i < |LayoutOps()| && Schema(s) == 0 && LayoutOp(LayoutOps()[i])
    requires MarkerAfter(m, n, i, s) && Do(LayoutOps()[i], s) == Some(s')
    ensures MarkerAfter(m, n, i + 1, s')
  {
    hide Do, LayoutOps, LayoutOp, Schema, IsMarker, Turn;
    MarkerIsMovable(n);
    EveryMoveHasItsTurn(n);
    MoveAtItsTurn(i);
    if i == Turn(n) {
      OwnMove(s, n);
    } else {
      OtherOpKeepsMarker(LayoutOps()[i], s, n);
    }
  }

  lemma {:induction false} MarkerUpTo(m: Entries, n: Name, i: nat)
    requires IsMarker(n) && Schema(m) == 0 && i < |LayoutOps()| && Exec(LayoutOps()[..i], m).ok
    ensures MarkerAfter(m, n, i, Exec(LayoutOps()[..i], m).tree)
  {
    if i == 0 {
      NoOps(m);
    } else {
      hide Exec, Do, LayoutOps, LayoutOp, Schema, IsMarker, MarkerAfter;
      LayoutNext(m, i - 1);
      MarkerUpTo(m, n, i - 1);
      SchemaBeforeStamp(m, i - 1);
      MarkerStep(m, n, i - 1, Exec(LayoutOps()[..i - 1], m).tree, Exec(LayoutOps()[..i], m).tree);
    }
  }

  /** The operation that drops the old version marker. */
  const DROP_TURN: nat := 14

  lemma DropAtItsTurn(i: nat)
    requires i < |LayoutOps()|
    ensures LayoutOps()[i] == DropMarkerIfOld <==> i == DROP_TURN
  {
    LayoutOpsAre();
    hide LayoutOps;
    var ops := LayoutOps();
    assert ops[14] == DropMarkerIfOld;
    if i != 14 { assert ops[i] != DropMarkerIfOld; }
  }

  lemma VersionMarkerStep(op: Op, m: Entries)
    requires LayoutOp(op) && Do(op, m).Some? && Schema(m) == 0
    ensures ClVersionTxt in Do(op, m).value <==> ClVersionTxt in m && !op.DropMarkerIfOld?
  {
    hide Schema;
  }

  lemma {:induction false} VersionMarkerUpTo(m: Entries, i: nat)
    requires Schema(m) == 0 && i < |LayoutOps()| && Exec(LayoutOps()[..i], m).ok
    ensures ClVersionTxt in Exec(LayoutOps()[..i], m).tree <==> ClVersionTxt in m && i <= DROP_TURN
  {
    hide Exec, Do, LayoutOps, LayoutOp, Schema;
    if i == 0 {
      NoOps(m);
    } else {
      LayoutNext(m, i - 1);
      VersionMarkerUpTo(m, i - 1);
      SchemaBeforeStamp(m, i - 1);
      DropAtItsTurn(i - 1);
      VersionMarkerStep(LayoutOps()[i - 1], Exec(LayoutOps()[..i - 1], m).tree);
    }
  }

  // ----------------------------------------------------------- the report

  /** Every sign of an old install that was there has been moved or dropped in the first `i` operations. */
  predicate MarkersGone(m: Entries, i: nat) {
    && (ClVersionTxt in m ==> i > DROP_TURN)
    && (IsDir(m, Projects) ==> MovedBy(m, Projects, i))
    && (IsDir(m, Agents) ==> MovedBy(m, Agents, i))
    && (GeneralRules in m ==> MovedBy(m, GeneralRules, i))
  }

  lemma LooksFresh(m: Entries, i: nat, s: Entries)
    requires i < |LayoutOps()| && Exec(LayoutOps()[..i], m) == Outcome(s, true)
    ensures IsFirstRun(s) <==> Schema(m) == 0 && MarkersGone(m, i)
  {
    hide Exec, LayoutOps, Schema, MovedBy;
    SchemaBeforeStamp(m, i);
    if Schema(m) == 0 {
      VersionMarkerUpTo(m, i);
      MarkerUpTo(m, Projects, i);
      MarkerUpTo(m, Agents, i);
      MarkerUpTo(m, GeneralRules, i);
    }
  }

  /**
  Run again after a crash, set-up reports a first run exactly when the crash came
  before the schema was recorded and found, or left, no sign of an old install;
  for an old install it should have been Repaired.
  */
  lemma RerunReportsFirstRun(sh: Shipped, m: Entries, i: nat, s: Entries)
    requires StoppedAfter(sh, m, i, s)
    ensures ResultOf(sh, Root(s)) == FirstRun <==>
            Init(sh, m).ok && Schema(m) == 0 && i < |LayoutOps()| && MarkersGone(m, i)
  {
    if i < |LayoutOps()| {
      hide Exec, LayoutOps, Init, Schema, HasLegacy, FilledSlots, Moved, CrashTorn, MarkersGone, AgentOps, SeedOps, IsFirstRun;
      assert InitOps(sh, m)[..i] == LayoutOps()[..i];
      LooksFresh(m, i, s);
      MigrationCrashIsHarmless(sh, m, i, s);
    } else {
      hide Exec, LayoutOps, Init, HasLegacy, FilledSlots, Moved, StoppedAfter, MarkersGone;
      StampedAfterLayout(sh, m, i, s);
    }
  }

  lemma NoMarkersToGo(m: Entries, i: nat)
    requires !HasLegacy(m)
    ensures MarkersGone(m, i)
  {
  }

  /** A fresh install crashed and started again: a first run exactly when the schema was not yet recorded. */
  lemma StampDecidesFirstRun(sh: Shipped, m: Entries, i: nat, s: Entries)
    requires IsFirstRun(m) && Init(sh, m).ok && StoppedAfter(sh, m, i, s)
    ensures ResultOf(sh, Root(m)) == FirstRun
    ensures ResultOf(sh, Root(s)) == FirstRun <==> i < |LayoutOps()|
  {
    NoMarkersToGo(m, i);
    hide Exec, LayoutOps, InitOps, Init, Schema, HasLegacy, FilledSlots, Moved, StoppedAfter, MarkersGone;
    RerunReportsFirstRun(sh, m, i, s);
  }

  // --------------------------------------------- what should be reported

  /** An old install whose signs can all be cleared is reported as Repaired when nothing interrupts. */
  lemma MigrationIsReported(sh: Shipped, m: Entries, i: nat)
    requires HasLegacy(m) && Schema(m) == 0 && Init(sh, m).ok && MarkersGone(m, i)
    ensures ResultOf(sh, Root(m)).Repaired?
  {
    hide Init, Schema, FilledSlots, Moved, ResultOf;
    ReportIsExact(sh, m);
    assert OldEntries(m) by {
      if ClVersionTxt !in m {
        var n := if IsDir(m, Projects) then Projects else if IsDir(m, Agents) then Agents else GeneralRules;
        assert n in m && n !in Inside(m, Library);
      }
    }
  }

  /**
  An old install is promised to be reported as Repaired. Crashed and started
  again, it is welcomed as new instead exactly at the stops past its last sign
  and before the schema is recorded; without the crash it would be Repaired.
  */
  lemma OldInstallWelcomedAsNew(sh: Shipped, m: Entries, i: nat, s: Entries)
    requires HasLegacy(m) && Schema(m) == 0 && Init(sh, m).ok && StoppedAfter(sh, m, i, s)
    ensures ResultOf(sh, Root(s)) == FirstRun <==> i < |LayoutOps()| && MarkersGone(m, i)
    ensures ResultOf(sh, Root(s)) == FirstRun ==> ResultOf(sh, Root(m)).Repaired?
  {
    hide Exec, LayoutOps, InitOps, Init, Schema, HasLegacy, FilledSlots, Moved, StoppedAfter, MarkersGone, ResultOf;
    RerunReportsFirstRun(sh, m, i, s);
    if MarkersGone(m, i) { MigrationIsReported(sh, m, i); }
  }

  // -------------------------------------------------------- one such install

  const ONE_PROJECT: Entries := map[Projects := Dir(map[])]

  lemma OneProjectIsOld()
    ensures Clear(ONE_PROJECT) && HasLegacy(ONE_PROJECT) && Schema(ONE_PROJECT) == 0
    ensures CustomInstructions !in Inside(ONE_PROJECT, Library)
    ensures forall i: nat :: i > 3 ==> MarkersGone(ONE_PROJECT, i)
  {
  }

  /** An install holding only `projects/`, stopped right after that is moved. */
  lemma WelcomedAsNewShown(sh: Shipped) returns (s: Entries)
    ensures StoppedAfter(sh, ONE_PROJECT, 4, s)
    ensures ResultOf(sh, Root(ONE_PROJECT)).Repaired? && ResultOf(sh, Root(s)) == FirstRun
  {
    OneProjectIsOld();
    SucceedsExactly(sh, ONE_PROJECT);
    assert Init(sh, ONE_PROJECT).ok by { hide Init, Schema; }
    hide Exec, LayoutOps, Clear, MarkersGone, HasLegacy, Schema, ResultOf, Init;
    LayoutOpsLength();
    ClearUpTo(ONE_PROJECT, 4);
    s := Exec(LayoutOps()[..4], ONE_PROJECT).tree;
    assert InitOps(sh, ONE_PROJECT)[..4] == LayoutOps()[..4];
    OldInstallWelcomedAsNew(sh, ONE_PROJECT, 4, s);
  }
}
