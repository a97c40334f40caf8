/**
Set-up as it is run at start: the data directory changes step by step, and the
outcome tells the user what was created, repaired or moved.
*/
module DataDirSetup {
  import opened Options
  import opened DataDir
  import opened DataDirCrash
  import opened DataDirFold

  /** The data directory's path: nothing there, something that is not a directory, or a directory. */
  datatype Tree = Absent | NotADirectory | Root(entries: Entries)

  datatype Slot = FoldedAgent(agent: Agent) | Seeded(name: Name) | Migrated

  datatype InitResult = FirstRun | Existing | Repaired(slots: seq<Slot>) | Failed

  function RootOf(t: Tree): Entries { if t.Root? then t.entries else map[] }

  /** Nothing recorded and nothing old lying about. */
  predicate IsFirstRun(m: Entries) { Schema(m) == 0 && !HasLegacy(m) }

  predicate Moves1(op: Op, m: Entries) {
    (op.MoveIfOld? && MoveApplies(m, op.name, op.into))
    || (op.DropMarkerIfOld? && Schema(m) < SCHEMA_VERSION && ClVersionTxt in m)
  }

  /** Did any of these operations, run in order, move something old? */
  predicate Moved(ops: seq<Op>, m: Entries) {
    ops != [] && (Moves1(ops[0], m) || (Do(ops[0], m).Some? && Moved(ops[1..], Do(ops[0], m).value)))
  }

  function FoldSlots(m: Entries, a: Agent): seq<Slot> { if Legacy(m, a).Some? then [FoldedAgent(a)] else [] }

  function SeedSlots(m: Entries): seq<Slot> {
    (if GeneralRules in Inside(m, Library) then [] else [Seeded(GeneralRules)])
    + (if CustomInstructions in Inside(m, Library) then [] else [Seeded(CustomInstructions)])
  }

  function TreeAfter(sh: Shipped, t: Tree): Tree {
    if t.NotADirectory? then t else Root(Init(sh, RootOf(t)).tree)
  }

  /** The pieces set-up filled in, in the order it filled them. */
  function FilledSlots(sh: Shipped, m: Entries): seq<Slot> {
    var x := Exec(LayoutOps(), m).tree;
    var y := Stage(sh, x, Brian).tree;
    var z := Stage(sh, y, Rain).tree;
    FoldSlots(x, Brian) + FoldSlots(y, Rain) + SeedSlots(z)
  }

  function ResultOf(sh: Shipped, t: Tree): InitResult {
    var m := RootOf(t);
    if t.NotADirectory? || !Init(sh, m).ok then Failed
    else if IsFirstRun(m) then FirstRun
    else
      var slots := FilledSlots(sh, m) + (if Moved(LegacyOps(), m) then [Migrated] else []);
      if slots == [] then Existing else Repaired(slots)
  }

  lemma {:induction false} MovedConcat(a: seq<Op>, b: seq<Op>, m: Entries)
    ensures Moved(a + b, m) <==> Moved(a, m) || (Exec(a, m).ok && Moved(b, Exec(a, m).tree))
  {
    hide Do, Moves1;
    if a == [] {
      assert a + b == b;
    } else {
      assert (a + b)[0] == a[0] && (a + b)[1..] == a[1..] + b;
      if Do(a[0], m).Some? { MovedConcat(a[1..], b, Do(a[0], m).value); }
    }
  }

  lemma MovedOne(op: Op, m: Entries)
    ensures Moved([op], m) <==> Moves1(op, m)
  {
    hide Do, Moves1;
    assert [op][1..] == [];
  }

  /** One more operation performed: the bookkeeping of a run so far. */
  ghost predicate Ran(ops: seq<Op>, m: Entries, now: Entries, moved: bool) {
    Exec(ops, m) == Outcome(now, true) && (moved <==> Moved(ops, m))
  }

  lemma RanMore(ops: seq<Op>, op: Op, m: Entries, now: Entries, moved: bool)
    requires Ran(ops, m, now, moved)
    ensures Do(op, now).Some? ==> Ran(ops + [op], m, Do(op, now).value, moved || Moves1(op, now))
    ensures Do(op, now) == None ==> Exec(ops + [op], m) == Outcome(now, false)
  {
    hide Do, Moves1, Exec, Moved;
    ExecConcat(ops, [op], m);
    ExecOne(op, now);
    MovedConcat(ops, [op], m);
    MovedOne(op, now);
  }

  /** A run that failed part-way has failed as a whole. */
  lemma FailedPrefix(a: seq<Op>, b: seq<Op>, m: Entries)
    requires !Exec(a, m).ok
    ensures Exec(a + b, m) == Exec(a, m)
  {
    ExecConcat(a, b, m);
  }

  /** A second set-up changes nothing; it says so after a success, and is refused where the first was. */
  lemma SecondInitFindsExisting(sh: Shipped, t: Tree)
    ensures TreeAfter(sh, TreeAfter(sh, t)) == TreeAfter(sh, t)
    ensures ResultOf(sh, TreeAfter(sh, t)) == if ResultOf(sh, t) == Failed then Failed else Existing
  {
    hide Init, FilledSlots, Moved, IsFirstRun;
    if !t.NotADirectory? {
      InitIsIdempotent(sh, RootOf(t));
      if Init(sh, RootOf(t)).ok { FinishedIsExisting(sh, RootOf(t)); }
    }
  }

  lemma FinishedIsExisting(sh: Shipped, m: Entries)
    requires Init(sh, m).ok
    ensures ResultOf(sh, Root(Init(sh, m).tree)) == Existing
  {
    hide Exec, LayoutOps, SeedOps, AgentOps, Legacy, Moved, Schema, LegacyOps, InitOps, Tail, Ready;
    var f := Init(sh, m).tree;
    InitIsIdempotent(sh, m);
    FinalTree(sh, m);
    ReadyRerun(f);
    ReadyMeans(f);
    StageEffectNone(sh, f, Brian);
    StageEffectNone(sh, f, Rain);
    LegacyOpsAre();
    GateClosed(LegacyOps(), f);
  }

  /** What a successful set-up leaves: the layout in place, no legacy file, both slots filled. */
  lemma FinalTree(sh: Shipped, m: Entries)
    requires Init(sh, m).ok
    ensures var f := Init(sh, m).tree;
            && Ready(f) && Legacy(f, Brian) == None && Legacy(f, Rain) == None
            && Do(PruneAgents, f) == Some(f) && SeedSlots(f) == []
  {
    hide Exec, LayoutOps, AgentOps, Legacy, Ready, Init;
    var x := Exec(LayoutOps(), m).tree;
    InitSplits(sh, m);
    LayoutGivesReady(m);
    ReadyMeans(x);
    StageEffect(sh, x, Brian);
    var y := Stage(sh, x, Brian).tree;
    StageEffect(sh, y, Rain);
    var z := Stage(sh, y, Rain).tree;
    SeedOpsWork(sh, z);
    var f := Exec(SeedOps(sh), z).tree;
    LegacyFromAgents(z, f, Brian);
    LegacyFromAgents(z, f, Rain);
    AgentOpsAreFolds(sh, x, Brian);
    AgentOpsAreFolds(sh, y, Rain);
    SeedOpsThree(sh);
    LibraryOpsKeepReady(AgentOps(sh, x, Brian), x);
    LibraryOpsKeepReady(AgentOps(sh, y, Rain), y);
    LibraryOpsKeepReady(SeedOps(sh), z);
    assert Stable(SeedOps(sh)[0], f);
  }

  lemma LegacyOpsAre()
    ensures |LegacyOps()| == 15 && LayoutOps()[..15] == LegacyOps()
    ensures forall k :: 0 <= k < |LegacyOps()| ==>
              LegacyOps()[k].MakeDirIfOld? || LegacyOps()[k].MoveIfOld? || LegacyOps()[k].DropMarkerIfOld?
  {
    LayoutOpsAre();
    assert |LayoutOps()| == 21;
    var l := LegacyOps();
    assert LayoutOps() == l + LayoutOps()[|l|..];
    assert forall k :: 0 <= k < |l| ==> l[k] == LayoutOps()[k];
  }

  /** Behind the gate no old entry moves. */
  lemma {:induction false} GateClosed(ops: seq<Op>, m: Entries)
    requires Schema(m) >= 2
    requires forall k :: 0 <= k < |ops| ==> ops[k].MakeDirIfOld? || ops[k].MoveIfOld? || ops[k].DropMarkerIfOld?
    ensures !Moved(ops, m) && Exec(ops, m) == Outcome(m, true)
    decreases |ops|
  {
    hide Schema;
    if ops != [] { GateClosed(ops[1..], m); }
  }

  // ------------------------------------------------------- the running code

  class DataDirectory {
    const sh: Shipped
    var tree: Tree

    constructor (sh: Shipped, tree: Tree)
      ensures this.sh == sh && this.tree == tree
    {
      this.sh, this.tree := sh, tree;
    }

    /** One atomic file operation. */
    method Perform(op: Op) returns (ok: bool)
      requires tree.Root?
      modifies this
      ensures tree.Root?
      ensures ok <==> Do(op, old(tree.entries)).Some?
      ensures tree.entries == if ok then Do(op, old(tree.entries)).value else old(tree.entries)
    {
      match Do(op, tree.entries)
      case None => ok := false;
      case Some(m) => tree, ok := Root(m), true;
    }

    /** Move each named root entry that is still there and has no counterpart yet. */
    method MoveAll(names: seq<Name>, into: Name, ghost done: seq<Op>, ghost m: Entries, movedBefore: bool)
      returns (ok: bool, moved: bool)
      requires tree.Root? && Ran(done, m, tree.entries, movedBefore) && Schema(tree.entries) < SCHEMA_VERSION
      requires forall k :: 0 <= k < |names| ==> Movable(names[k]) && into == HomeOf(names[k])
      modifies this
      ensures tree.Root?
      ensures ok ==> Ran(done + Moves(names, into), m, tree.entries, moved) && Schema(tree.entries) < SCHEMA_VERSION
      ensures !ok ==> Exec(done + Moves(names, into), m) == Outcome(tree.entries, false)
    {
      hide Schema, Do, Exec, Ran, Movable, HomeOf, MoveApplies, Moves;
      ok, moved := true, movedBefore;
      NoMovesYet(done, into, names);
      for i := 0 to |names|
        invariant tree.Root? && Schema(tree.entries) < SCHEMA_VERSION
        invariant Ran(done + Moves(names[..i], into), m, tree.entries, moved)
      {
        var op := MoveIfOld(names[i], into);
        RanMore(done + Moves(names[..i], into), op, m, tree.entries, moved);
        OneMoreMove(done, into, names, i);
        SkippedMove(names[i], into, tree.entries);
        if names[i] in tree.entries && names[i] !in Inside(tree.entries, into) {
          MoveKeepsSchema(op, tree.entries);
          ok := Perform(op);
          if !ok {
            MovesAhead(done, into, names, i, m);
            return;
          }
          moved := true;
        }
      }
      assert names[..|names|] == names;
    }

    /** Perform one operation and keep the books. */
    method Next(op: Op, ghost done: seq<Op>, ghost m: Entries, was: bool) returns (ok: bool, moved: bool)
      requires tree.Root? && Ran(done, m, tree.entries, was)
      modifies this
      ensures tree.Root?
      ensures ok ==> Ran(done + [op], m, tree.entries, moved) && Do(op, old(tree.entries)) == Some(tree.entries)
      ensures !ok ==> Exec(done + [op], m) == Outcome(tree.entries, false)
    {
      hide Do, Exec, Ran, Moves1;
      RanMore(done, op, m, tree.entries, was);
      moved := was || Moves1(op, tree.entries);
      ok := Perform(op);
    }

    /** The one-time move of an older layout; behind the gate it does nothing. */
    method MigrateLegacyLayout() returns (ok: bool, moved: bool)
      requires tree.Root?
      modifies this
      ensures tree.Root?
      ensures Exec(LegacyOps(), old(tree.entries)) == Outcome(tree.entries, ok)
      ensures ok ==> (moved <==> Moved(LegacyOps(), old(tree.entries)))
    {
      hide Do, Exec, Schema, Moves, Moved, Moves1, MoveApplies;
      ghost var m := tree.entries;
      if Schema(tree.entries) >= SCHEMA_VERSION {
        LegacyOpsAre();
        GateClosed(LegacyOps(), m);
        return true, false;
      }
      NothingRan(m);
      ghost var rest := Moves(CL_NAMES, Library) + Moves(LOCAL_NAMES, DotLocal) + Moves(CONFIG_NAMES, Config) + [DropMarkerIfOld];
      ghost var dirs := [MakeDirIfOld(Library), MakeDirIfOld(Config), MakeDirIfOld(DotLocal)];
      assert LegacyOps() == dirs + rest;
      moved := false;
      var names := [Library, Config, DotLocal];
      for i := 0 to 3
        invariant tree.Root? && Ran(dirs[..i], m, tree.entries, moved) && Schema(tree.entries) < SCHEMA_VERSION
      {
        assert dirs[..i + 1] == dirs[..i] + [dirs[i]];
        MakeDirKeepsSchema(dirs[i], tree.entries);
        ok, moved := Next(MakeDirIfOld(names[i]), dirs[..i], m, moved);
        if !ok {
          assert LegacyOps() == dirs[..i + 1] + (dirs[i + 1..] + rest);
          FailedPrefix(dirs[..i + 1], dirs[i + 1..] + rest, m);
          return;
        }
      }
      assert dirs[..3] == dirs;
      NamesMovable();
      ghost var a := dirs + Moves(CL_NAMES, Library);
      ok, moved := MoveAll(CL_NAMES, Library, dirs, m, moved);
      if !ok {
        assert LegacyOps() == a + (Moves(LOCAL_NAMES, DotLocal) + Moves(CONFIG_NAMES, Config) + [DropMarkerIfOld]);
        FailedPrefix(a, Moves(LOCAL_NAMES, DotLocal) + Moves(CONFIG_NAMES, Config) + [DropMarkerIfOld], m);
        return;
      }
      ghost var b := a + Moves(LOCAL_NAMES, DotLocal);
      ok, moved := MoveAll(LOCAL_NAMES, DotLocal, a, m, moved);
      if !ok {
        assert LegacyOps() == b + (Moves(CONFIG_NAMES, Config) + [DropMarkerIfOld]);
        FailedPrefix(b, Moves(CONFIG_NAMES, Config) + [DropMarkerIfOld], m);
        return;
      }
      ghost var c := b + Moves(CONFIG_NAMES, Config);
      ok, moved := MoveAll(CONFIG_NAMES, Config, b, m, moved);
      assert LegacyOps() == c + [DropMarkerIfOld];
      if !ok {
        FailedPrefix(c, [DropMarkerIfOld], m);
        return;
      }
      ok, moved := Next(DropMarkerIfOld, c, m, moved);
      RanMeans(LegacyOps(), m, tree.entries, moved);
    }

    /** The library operations one agent's legacy file asks for. */
    method FoldAgent(a: Agent) returns (ok: bool, slots: seq<Slot>)
      requires tree.Root? && IsDir(tree.entries, Library)
      modifies this
      ensures tree.Root? && Stage(sh, old(tree.entries), a) == Outcome(tree.entries, ok)
      ensures ok ==> slots == FoldSlots(old(tree.entries), a)
    {
      hide Do, Exec, Legacy, UserEdited;
      ghost var m := tree.entries;
      match Legacy(tree.entries, a) {
        case None =>
          StageEffectNone(sh, m, a);
          return true, [];
        case Some(body) =>
          if UserEdited(sh, a, body) {
            SeedAlwaysWorks(sh, m);
            SeedAndAppend(sh, m, a, body);
            ExecConcat([SeedInstructions(sh.instructions), Append(a, body)], [RemoveLegacy(a), PruneAgent(a)], m);
            ok := Perform(SeedInstructions(sh.instructions));
            ok := Perform(Append(a, body));
            if !ok { return false, []; }
            LegacyFromAgents(m, tree.entries, a);
          } else {
            assert [] + [RemoveLegacy(a), PruneAgent(a)] == [RemoveLegacy(a), PruneAgent(a)];
          }
          RemoveAndPrune(tree.entries, a);
          RemoveAlwaysWorks(tree.entries, a);
          ok := Perform(RemoveLegacy(a));
          RemoveAlwaysWorks(tree.entries, a);
          ok := Perform(PruneAgent(a));
          return true, [FoldedAgent(a)];
      }
    }

    /** The directories and the stamp that follow the move. */
    method LayOut() returns (ok: bool, moved: bool)
      requires tree.Root?
      modifies this
      ensures tree.Root? && Exec(LayoutOps(), old(tree.entries)) == Outcome(tree.entries, ok)
      ensures ok ==> (moved <==> Moved(LegacyOps(), old(tree.entries)))
    {
      hide Do, Exec, LegacyOps, Moved;
      ghost var m := tree.entries;
      ghost var l := LegacyOps();
      var ops := [MakeDir(Library), MakeDir(Config), MakeDir(Plugins), MakeDir(DotLocal), MakeLogs, Stamp];
      assert LayoutOps() == l + ops;
      ok, moved := MigrateLegacyLayout();
      if !ok {
        FailedPrefix(l, ops, m);
        return;
      }
      assert l + ops[..0] == l;
      for i := 0 to |ops|
        invariant tree.Root? && Exec(l + ops[..i], m) == Outcome(tree.entries, true)
      {
        assert l + ops[..i + 1] == (l + ops[..i]) + [ops[i]];
        ExecConcat(l + ops[..i], [ops[i]], m);
        ExecOne(ops[i], tree.entries);
        ok := Perform(ops[i]);
        if !ok {
          assert LayoutOps() == (l + ops[..i + 1]) + ops[i + 1..];
          FailedPrefix(l + ops[..i + 1], ops[i + 1..], m);
          return;
        }
      }
      assert ops[..|ops|] == ops;
    }

    /** Set-up at start. Any refusal by the file system ends it where it stands. */
    method Init() returns (r: InitResult)
      modifies this
      ensures tree == TreeAfter(sh, old(tree)) && r == ResultOf(sh, old(tree))
    {
      hide Do, Exec, LayoutOps, LegacyOps, AgentOps, SeedOps, Moved, Legacy, Schema, InitOps;
      ghost var t := tree;
      var firstRun := IsFirstRun(RootOf(tree));
      if tree.NotADirectory? { return Failed; }
      if tree.Absent? { tree := Root(map[]); }
      ghost var m := tree.entries;
      InitSplits(sh, m);
      var ok, moved := LayOut();
      if !ok { return Failed; }
      LayoutGivesReady(m);
      ReadyMeans(tree.entries);
      ghost var x := tree.entries;
      StageEffect(sh, x, Brian);
      var brian;
      ok, brian := FoldAgent(Brian);
      if !ok { return Failed; }
      ghost var y := tree.entries;
      StageEffect(sh, y, Rain);
      var rain;
      ok, rain := FoldAgent(Rain);
      if !ok { return Failed; }
      ghost var z := tree.entries;
      SeedOpsWork(sh, z);
      var seeded := Seed();
      var slots := brian + rain + seeded;
      if moved { slots := slots + [Migrated]; }
      assert !moved ==> slots + [] == slots;
      if firstRun { return FirstRun; }
      if slots == [] { return Existing; }
      return Repaired(slots);
    }

    /** Prune the emptied agents directory and fill the required slots that are missing. */
    method Seed() returns (slots: seq<Slot>)
      requires tree.Root? && IsDir(tree.entries, Library)
      modifies this
      ensures tree.Root? && Exec(SeedOps(sh), old(tree.entries)) == Outcome(tree.entries, true)
      ensures slots == SeedSlots(old(tree.entries))
    {
      hide Exec;
      ghost var m := tree.entries;
      var defaults := [SeedDefault(GeneralRules, sh.generalRules), SeedDefault(CustomInstructions, sh.instructions)];
      assert SeedOps(sh) == [PruneAgents] + defaults;
      ExecConcat([PruneAgents], defaults, m);
      ExecOne(PruneAgents, m);
      var ok := Perform(PruneAgents);
      ghost var m1 := tree.entries;
      ExecTwo(defaults[0], defaults[1], m1);
      slots := if GeneralRules in Inside(tree.entries, Library) then [] else [Seeded(GeneralRules)];
      ok := Perform(defaults[0]);
      ExecOne(defaults[1], tree.entries);
      slots := slots + (if CustomInstructions in Inside(tree.entries, Library) then [] else [Seeded(CustomInstructions)]);
      ok := Perform(defaults[1]);
    }
  }

  lemma NothingRan(m: Entries)
    ensures Ran([], m, m, false)
  {
  }

  lemma RanMeans(ops: seq<Op>, m: Entries, now: Entries, moved: bool)
    ensures Ran(ops, m, now, moved) ==> Exec(ops, m) == Outcome(now, true) && (moved <==> Moved(ops, m))
  {
  }

  lemma MakeDirKeepsSchema(op: Op, m: Entries)
    requires op.MakeDirIfOld? && TopDir(op.name)
    ensures Do(op, m).Some? ==> Schema(Do(op, m).value) == Schema(m)
  {
    if Do(op, m).Some? { LayoutSchema(op, m); }
  }

  lemma NamesMovable()
    ensures forall k :: 0 <= k < |CL_NAMES| ==> Movable(CL_NAMES[k]) && Library == HomeOf(CL_NAMES[k])
    ensures forall k :: 0 <= k < |LOCAL_NAMES| ==> Movable(LOCAL_NAMES[k]) && DotLocal == HomeOf(LOCAL_NAMES[k])
    ensures forall k :: 0 <= k < |CONFIG_NAMES| ==> Movable(CONFIG_NAMES[k]) && Config == HomeOf(CONFIG_NAMES[k])
  {
  }

  lemma NoMovesYet(done: seq<Op>, into: Name, names: seq<Name>)
    ensures done + Moves(names[..0], into) == done
  {
  }

  lemma OneMoreMove(done: seq<Op>, into: Name, names: seq<Name>, i: nat)
    requires i < |names|
    ensures done + Moves(names[..i + 1], into) == done + Moves(names[..i], into) + [MoveIfOld(names[i], into)]
  {
    assert names[..i + 1][..i] == names[..i];
  }

  lemma SkippedMove(n: Name, into: Name, m: Entries)
    requires Schema(m) < SCHEMA_VERSION
    ensures (n in m && n !in Inside(m, into)) <==> Moves1(MoveIfOld(n, into), m)
    ensures !(n in m && n !in Inside(m, into)) ==> Do(MoveIfOld(n, into), m) == Some(m)
  {
  }

  lemma MoveKeepsSchema(op: Op, m: Entries)
    requires op.MoveIfOld? && LayoutOp(op)
    ensures Do(op, m).Some? ==> Schema(Do(op, m).value) == Schema(m)
  {
    if Do(op, m).Some? { LayoutSchema(op, m); }
  }

  lemma {:induction false} MovesAhead(done: seq<Op>, into: Name, names: seq<Name>, i: nat, m: Entries)
    requires i < |names| && !Exec(done + Moves(names[..i + 1], into), m).ok
    ensures Exec(done + Moves(names, into), m) == Exec(done + Moves(names[..i + 1], into), m)
    decreases |names| - i
  {
    hide Exec, Moves;
    if i + 1 == |names| {
      assert names[..i + 1] == names;
    } else {
      OneMoreMove(done, into, names, i + 1);
      FailedPrefix(done + Moves(names[..i + 1], into), [MoveIfOld(names[i + 1], into)], m);
      MovesAhead(done, into, names, i + 1, m);
    }
  }
}
