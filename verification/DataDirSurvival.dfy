/**
No interruption loses a word: at every point between two file operations a
user-edited legacy body is either still in a file of its own or already in the
consolidated one.
*/
module DataDirSurvival {
  import opened Options
  import opened DataDir
  import opened DataDirCrash
  import opened DataDirFold
  import opened DataDirContent

  ghost predicate Contains(text: string, part: string) {
    exists before: string, after: string :: text == before + part + after
  }

  /** The body is in the consolidated file, under its agent's heading. */
  ghost predicate Consolidated(m: Entries, a: Agent, body: string) {
    Instructions(m).Some? && Contains(Instructions(m).value, Section(a, body))
  }

  /** The body is the whole of the agent's own file, in the library or still at the root. */
  predicate StillAFile(m: Entries, a: Agent, body: string) {
    || FileAt(m, LegacyPath(a)) == Some(File(body, true))
    || FileAt(m, LegacyPath(a)[1..]) == Some(File(body, true))
  }

  ghost predicate Survives(m: Entries, a: Agent, body: string) { StillAFile(m, a, body) || Consolidated(m, a, body) }

  lemma ContainsGrows(text: string, more: string, part: string)
    ensures Contains(text, part) ==> Contains(text + more, part)
    ensures Contains(text + part, part)
  {
    if Contains(text, part) {
      var before, after :| text == before + part + after;
      assert text + more == before + part + (after + more);
    }
    assert text + part == text + part + [];
  }

  lemma FoldOpKeepsConsolidated(op: Op, m: Entries, a: Agent, body: string)
    requires FoldOp(op) && IsDir(m, Library) && Do(op, m).Some? && Consolidated(m, a, body)
    ensures IsDir(Do(op, m).value, Library) && Consolidated(Do(op, m).value, a, body)
  {
    hide Section, Contains;
    FoldOpInstructions(op, m);
    FoldOpAgents(op, m);
    InstructionsFile(m);
    if op.Append? { ContainsGrows(Instructions(m).value, Section(op.agent, op.body), Section(a, body)); }
  }

  lemma {:induction false} FoldOpsKeepConsolidated(ops: seq<Op>, m: Entries, a: Agent, body: string)
    requires IsDir(m, Library) && Consolidated(m, a, body) && forall k :: 0 <= k < |ops| ==> FoldOp(ops[k])
    ensures IsDir(Exec(ops, m).tree, Library) && Consolidated(Exec(ops, m).tree, a, body)
    decreases |ops|
  {
    hide Do, Consolidated, FoldOp;
    if ops != [] && Do(ops[0], m).Some? {
      FoldOpKeepsConsolidated(ops[0], m, a, body);
      FoldOpsKeepConsolidated(ops[1..], Do(ops[0], m).value, a, body);
    }
  }

  lemma LegacyIsAFile(m: Entries, a: Agent, body: string)
    requires Legacy(m, a) == Some(body)
    ensures StillAFile(m, a, body)
  {
    LegacyFile(m, a);
    hide FileAt;
  }

  /** During an agent's own stage its body is in its file or already consolidated. */
  lemma SurvivesOwnStage(sh: Shipped, m: Entries, a: Agent, k: nat, body: string, s: Entries)
    requires IsDir(m, Library) && Folds(sh, m, a) && Legacy(m, a) == Some(body)
    requires k <= |AgentOps(sh, m, a)| && Exec(AgentOps(sh, m, a)[..k], m) == Outcome(s, true)
    ensures Survives(s, a, body)
    ensures k == |AgentOps(sh, m, a)| ==> Consolidated(s, a, body)
  {
    hide Do, Instructions, HasInstructions, Section, Contains, UserEdited, StillAFile;
    var ops := AgentOps(sh, m, a);
    var head := [SeedInstructions(sh.instructions), Append(a, body)];
    SeedAlwaysWorks(sh, m);
    SeedAndAppend(sh, m, a, body);
    if k == 0 {
      assert ops[..k] == [];
      LegacyIsAFile(m, a, body);
    } else if k == 1 {
      assert ops[..k] == [SeedInstructions(sh.instructions)];
      ExecOne(SeedInstructions(sh.instructions), m);
      LegacyFromAgents(m, s, a);
      LegacyIsAFile(s, a, body);
    } else {
      assert ops[..k] == head + ops[2..k];
      ExecConcat(head, ops[2..k], m);
      var s1 := Do(SeedInstructions(sh.instructions), m).value;
      var s2 := Do(Append(a, body), s1).value;
      ContainsGrows(Instructions(s1).value, "", Section(a, body));
      AgentOpsAreFolds(sh, m, a);
      FoldOpsKeepConsolidated(ops[2..k], s2, a, body);
    }
  }

  /** Any prefix of the operations after the layout. */
  lemma SurvivesTail(sh: Shipped, x: Entries, a: Agent, body: string, j: nat, s: Entries)
    requires IsDir(x, Library) && Legacy(x, a) == Some(body) && UserEdited(sh, a, body)
    requires var b := AgentOps(sh, x, Brian);
             var r := AgentOps(sh, Exec(b, x).tree, Rain);
             j <= |b| + |r| + |SeedOps(sh)| && Exec((b + (r + SeedOps(sh)))[..j], x) == Outcome(s, true)
    ensures Survives(s, a, body)
  {
    hide Exec, AgentOps, SeedOps, Legacy, UserEdited, Consolidated, StillAFile, FoldOp;
    var b := AgentOps(sh, x, Brian);
    var y := Exec(b, x).tree;
    var r, e := AgentOps(sh, y, Rain), SeedOps(sh);
    AgentOpsAreFolds(sh, x, Brian);
    AgentOpsAreFolds(sh, y, Rain);
    SeedOpsThree(sh);
    if j <= |b| {
      assert (b + (r + e))[..j] == b[..j];
      if a == Brian {
        SurvivesOwnStage(sh, x, Brian, j, body, s);
      } else {
        CutAnyStage(sh, x, Brian, j);
        LegacyIsAFile(s, Rain, body);
      }
    } else {
      StopPast(b, r + e, j, x, s);
      StageEffect(sh, x, Brian);
      if a == Brian {
        assert b[..|b|] == b;
        SurvivesOwnStage(sh, x, Brian, |b|, body, y);
        FoldOpsKeepConsolidated((r + e)[..j - |b|], y, Brian, body);
      } else if j - |b| <= |r| {
        assert (r + e)[..j - |b|] == r[..j - |b|];
        SurvivesOwnStage(sh, y, Rain, j - |b|, body, s);
      } else {
        StopPast(r, e, j - |b|, y, s);
        assert r[..|r|] == r;
        StageEffect(sh, y, Rain);
        SurvivesOwnStage(sh, y, Rain, |r|, body, Exec(r, y).tree);
        FoldOpsKeepConsolidated(e[..j - |b| - |r|], Exec(r, y).tree, Rain, body);
      }
    }
  }

  /** Any prefix of the layout: the body's file is at its old place or its new one. */
  lemma SurvivesLayout(m: Entries, a: Agent, body: string, i: nat, s: Entries)
    requires LegacyBody(m, a) == Some(body)
    requires i <= |LayoutOps()| && Exec(LayoutOps()[..i], m) == Outcome(s, true)
    ensures StillAFile(s, a, body)
  {
    hide Exec, LayoutOps, FileAt, LayoutOp, MoveApplies;
    AllMovesPresent();
    var ops, q := LayoutOps()[..i], LegacyPath(a);
    var p := EveryFileHasAnOrigin(m, q);
    if |p| >= 2 { FilePresent(m, p); }
    LayoutFiles(ops, m, q);
    LayoutFiles(ops, m, p);
    if p != q { assert p == q[1..]; }
  }

  /**
  At every point between two file operations of a set-up, a user-edited legacy
  body is still the whole of its own file, in the library or at the root it is
  moved from, or stands under its heading in the consolidated one.
  */
  lemma {:induction false} BodySurvivesEveryCrash(sh: Shipped, m: Entries, i: nat, s: Entries, a: Agent, body: string)
    requires StoppedAfter(sh, m, i, s)
    requires LegacyBody(m, a) == Some(body) && UserEdited(sh, a, body)
    ensures Survives(s, a, body)
  {
    hide Exec, LayoutOps, SeedOps, AgentOps, LegacyBody, UserEdited, StillAFile, Consolidated, Legacy;
    var l := LayoutOps();
    if i <= |l| {
      assert InitOps(sh, m)[..i] == l[..i];
      SurvivesLayout(m, a, body, i, s);
    } else {
      var b, r, e := BrianOps(sh, m), RainOps(sh, m), SeedOps(sh);
      assert InitOps(sh, m) == l + (b + (r + e));
      StopPast(l, b + (r + e), i, m, s);
      LayoutGivesReady(m);
      ReadyMeans(Exec(l, m).tree);
      LayoutLegacy(m, a);
      ExecConcat(l, b, m);
      SurvivesTail(sh, Exec(l, m).tree, a, body, i - |l|, s);
    }
  }

  // -------------------------------------------- every other file, at every stop

  /** A file the fold does not consume at this path. */
  predicate Kept(m: Entries, q: Path) {
    FileAt(m, q).Some? && q != INSTRUCTIONS_PATH
    && (q in {LegacyPath(Brian), LegacyPath(Rain)} ==> FileAt(m, q).value.File? && !FileAt(m, q).value.isText)
  }

  lemma KeptIsNotLegacy(m: Entries, a: Agent, q: Path)
    requires Kept(m, q) && Legacy(m, a).Some?
    ensures q != LegacyPath(a)
  {
    hide FileAt, Legacy;
    LegacyFile(m, a);
  }

  lemma RemovalKeepsFiles(m: Entries, a: Agent, k: nat, q: Path)
    requires IsDir(m, Library) && Legacy(m, a).Some? && q != LegacyPath(a) && k <= 2
    ensures FileAt(Exec([RemoveLegacy(a), PruneAgent(a)][..k], m).tree, q) == FileAt(m, q)
  {
    hide FileAt, Do, Legacy;
    var ops := [RemoveLegacy(a), PruneAgent(a)];
    if k == 0 {
      assert ops[..k] == [];
    } else if k == 1 {
      assert ops[..k] == [RemoveLegacy(a)];
      RemoveAlwaysWorks(m, a);
      ExecOne(RemoveLegacy(a), m);
      FoldOpFiles(RemoveLegacy(a), m, q);
    } else {
      assert ops[..k] == ops;
      RemoveFiles(m, a, q);
    }
  }

  /** Any prefix of one agent's stage leaves such a file alone. */
  lemma StageKeepsFiles(sh: Shipped, m: Entries, a: Agent, k: nat, q: Path)
    requires IsDir(m, Library) && Kept(m, q) && k <= |AgentOps(sh, m, a)|
    ensures FileAt(Exec(AgentOps(sh, m, a)[..k], m).tree, q) == FileAt(m, q)
  {
    var ops := AgentOps(sh, m, a);
    if Legacy(m, a).None? || k == 0 {
      assert ops[..k] == [];
    } else {
      KeptIsNotLegacy(m, a, q);
      if Folds(sh, m, a) {
        FoldKeepsFiles(sh, m, a, k, q);
      } else {
        assert ops == [RemoveLegacy(a), PruneAgent(a)];
        hide Exec, FileAt, Legacy;
        RemovalKeepsFiles(m, a, k, q);
      }
    }
  }

  lemma FoldKeepsFiles(sh: Shipped, m: Entries, a: Agent, k: nat, q: Path)
    requires IsDir(m, Library) && Folds(sh, m, a) && q != INSTRUCTIONS_PATH && q != LegacyPath(a)
    requires 0 < k <= |AgentOps(sh, m, a)|
    ensures FileAt(Exec(AgentOps(sh, m, a)[..k], m).tree, q) == FileAt(m, q)
  {
    hide Do, FileAt, UserEdited, Section, Instructions, HasInstructions, Exec;
    var body := Legacy(m, a).value;
    var seed, append := SeedInstructions(sh.instructions), Append(a, body);
    var ops, rest := AgentOps(sh, m, a), [RemoveLegacy(a), PruneAgent(a)];
    assert ops == [seed, append] + rest;
    hide AgentOps, Legacy;
    SeedAlwaysWorks(sh, m);
    SeedAndAppend(sh, m, a, body);
    var s1 := Do(seed, m).value;
    ExecOne(seed, m);
    FoldOpFiles(seed, m, q);
    if k == 1 {
      assert ops[..k] == [seed];
    } else {
      assert ops[..k] == [seed, append] + rest[..k - 2];
      ExecConcat([seed, append], rest[..k - 2], m);
      if Do(append, s1).Some? {
        var s2 := Do(append, s1).value;
        FoldOpFiles(append, s1, q);
        LegacyFromAgents(m, s2, a);
        RemovalKeepsFiles(s2, a, k - 2, q);
      }
    }
  }

  lemma SeedsKeepFiles(sh: Shipped, m: Entries, k: nat, q: Path)
    requires IsDir(m, Library) && FileAt(m, q).Some? && k <= |SeedOps(sh)|
    ensures FileAt(Exec(SeedOps(sh)[..k], m).tree, q) == FileAt(m, q)
  {
    hide Do, FileAt;
    if k == 0 {
      assert SeedOps(sh)[..k] == [];
    } else {
      var ops := SeedOps(sh);
      SeedsRestart(sh, m, k - 1);
      SeedsKeepFiles(sh, m, k - 1, q);
      var s := Exec(ops[..k - 1], m).tree;
      assert ops[..k] == ops[..k - 1] + [ops[k - 1]];
      SeedOneFile(ops[k - 1], s, q);
      hide Exec;
      ExecConcat(ops[..k - 1], [ops[k - 1]], m);
      ExecOne(ops[k - 1], s);
    }
  }

  lemma KeptStays(m: Entries, m': Entries, q: Path)
    requires Kept(m, q) && FileAt(m', q) == FileAt(m, q)
    ensures Kept(m', q)
  {
    hide FileAt;
  }

  /** Past a whole stage of Brian's. */
  lemma AfterBrian(sh: Shipped, x: Entries, q: Path)
    requires IsDir(x, Library) && Kept(x, q) && Exec(AgentOps(sh, x, Brian), x).ok
    ensures var y := Exec(AgentOps(sh, x, Brian), x).tree; IsDir(y, Library) && Kept(y, q) && FileAt(y, q) == FileAt(x, q)
  {
    var b := AgentOps(sh, x, Brian);
    StageEffect(sh, x, Brian);
    hide Exec, AgentOps, FileAt, Kept, Legacy, Instructions, HasInstructions, Folds;
    assert b[..|b|] == b;
    StageKeepsFiles(sh, x, Brian, |b|, q);
    KeptStays(x, Exec(b, x).tree, q);
  }

  /** From Rain's stage on. */
  lemma RainOnKeepsFiles(sh: Shipped, y: Entries, j: nat, q: Path, s: Entries)
    requires IsDir(y, Library) && Kept(y, q) && j <= |AgentOps(sh, y, Rain) + SeedOps(sh)|
    requires Exec((AgentOps(sh, y, Rain) + SeedOps(sh))[..j], y) == Outcome(s, true)
    ensures FileAt(s, q) == FileAt(y, q)
  {
    hide Exec, AgentOps, SeedOps, FileAt, Kept, Legacy, Instructions, HasInstructions, Folds;
    var r, e := AgentOps(sh, y, Rain), SeedOps(sh);
    if j <= |r| {
      assert (r + e)[..j] == r[..j];
      StageKeepsFiles(sh, y, Rain, j, q);
    } else {
      StopPast(r, e, j, y, s);
      assert r[..|r|] == r;
      StageKeepsFiles(sh, y, Rain, |r|, q);
      RainStageDir(sh, y);
      KeptIsThere(y, q);
      SeedsKeepFiles(sh, Exec(r, y).tree, j - |r|, q);
    }
  }

  lemma KeptIsThere(m: Entries, q: Path)
    requires Kept(m, q)
    ensures FileAt(m, q).Some?
  {
  }

  lemma RainStageDir(sh: Shipped, y: Entries)
    requires IsDir(y, Library) && Exec(AgentOps(sh, y, Rain), y).ok
    ensures IsDir(Exec(AgentOps(sh, y, Rain), y).tree, Library)
  {
    StageEffect(sh, y, Rain);
    hide Exec, AgentOps, Legacy, Instructions, HasInstructions, Folds;
  }

  lemma TailKeepsFiles(sh: Shipped, x: Entries, j: nat, q: Path, s: Entries)
    requires IsDir(x, Library) && Kept(x, q) && j <= |TailOps(sh, x)|
    requires Exec(TailOps(sh, x)[..j], x) == Outcome(s, true)
    ensures FileAt(s, q) == FileAt(x, q)
  {
    hide Exec, AgentOps, SeedOps, FileAt, Kept;
    var b := AgentOps(sh, x, Brian);
    if j <= |b| {
      assert TailOps(sh, x)[..j] == b[..j];
      StageKeepsFiles(sh, x, Brian, j, q);
    } else {
      var y := Exec(b, x).tree;
      StopPast(b, AgentOps(sh, y, Rain) + SeedOps(sh), j, x, s);
      AfterBrian(sh, x, q);
      RainOnKeepsFiles(sh, y, j - |b|, q, s);
    }
  }

  /** Any prefix of the layout: a file is where it was or where it is going. */
  lemma LayoutKeepsFiles(m: Entries, p: Path, i: nat, s: Entries)
    requires FileAt(m, p).Some? && p != VERSION_PATH && p != MARKER_PATH
    requires i <= |LayoutOps()| && Exec(LayoutOps()[..i], m) == Outcome(s, true)
    ensures FileAt(s, p) == FileAt(m, p) || FileAt(s, Dest(m, p)) == FileAt(m, p)
  {
    hide Exec, LayoutOps, FileAt, LayoutOp, MoveApplies;
    AllMovesPresent();
    DestFindsIt(m, p);
    var ops, q := LayoutOps()[..i], Dest(m, p);
    if |p| >= 2 { FilePresent(m, p); MovesNotInto(m, p[1], p[0]); }
    LayoutFiles(ops, m, p);
    LayoutFiles(ops, m, q);
    if p != q { assert q[1..] == p; }
  }

  lemma MovesNotInto(m: Entries, n: Name, into: Name)
    requires n in Inside(m, into)
    ensures !MoveApplies(m, n, into)
  {
  }

  /**
  At every point between two file operations, and so wherever a set-up is
  refused, each file it does not consume is whole at its old path or its new one.
  */
  lemma NothingIsLostMeanwhile(sh: Shipped, m: Entries, i: nat, s: Entries, p: Path)
    requires StoppedAfter(sh, m, i, s) && FileAt(m, p).Some? && !Consumed(m, p)
    ensures FileAt(s, p) == FileAt(m, p) || FileAt(s, Dest(m, p)) == FileAt(m, p)
  {
    var l, q := LayoutOps(), Dest(m, p);
    if i <= |l| {
      hide Exec, LayoutOps, FileAt, AgentOps, SeedOps, Dest;
      assert InitOps(sh, m)[..i] == l[..i];
      LayoutKeepsFiles(m, p, i, s);
    } else {
      FileShape(m, p);
      hide Exec, LayoutOps, FileAt, AgentOps, SeedOps, Dest;
      var b, r, e := BrianOps(sh, m), RainOps(sh, m), SeedOps(sh);
      var x := Exec(l, m).tree;
      assert InitOps(sh, m) == l + (b + (r + e));
      StopPast(l, b + (r + e), i, m, s);
      LayoutGivesReady(m);
      ReadyMeans(x);
      ExecConcat(l, b, m);
      assert b + (r + e) == TailOps(sh, x);
      DestFindsIt(m, p);
      AllMovesPresent();
      LayoutFiles(l, m, q);
      assert Kept(x, q);
      TailKeepsFiles(sh, x, i - |l|, q, s);
    }
  }

  /** The same for a set-up the file system refused: it lost nothing either. */
  lemma NothingIsLostWhenRefused(sh: Shipped, m: Entries, p: Path)
    requires FileAt(m, p).Some? && !Consumed(m, p)
    ensures var f := Init(sh, m).tree; FileAt(f, p) == FileAt(m, p) || FileAt(f, Dest(m, p)) == FileAt(m, p)
  {
    hide *;
    var i := StopsWhole(sh, m);
    NothingIsLostMeanwhile(sh, m, i, Init(sh, m).tree, p);
  }
}
