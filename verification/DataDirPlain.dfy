/**
What set-up promises, said by names, paths and texts alone: which files go
where, what the consolidated instructions say and what the finished directory
holds.
*/
module DataDirPlain {
  import opened Options
  import opened Whitespace
  import opened DataDir
  import opened DataDirCrash
  import opened DataDirFold
  import opened DataDirContent
  import opened DataDirSurvival
  import opened DataDirSetup

  // ------------------------------------------------------ the schema marker

  /** The recorded version is the number in the marker, space around it aside; anything else counts as none. */
  lemma SchemaIsExact(m: Entries, front: string, core: string, back: string)
    requires AllSpace(front) && AllSpace(back)
    requires core != [] ==> !IsSpace(core[0]) && !IsSpace(core[|core| - 1])
    ensures !(VersionTxt in m && m[VersionTxt].File? && m[VersionTxt].isText) ==> Schema(m) == 0
    ensures VersionTxt in m && m[VersionTxt] == File(front + core + back, true) ==>
              && (core != [] && AllDigits(core) ==> Schema(m) == if DigitsValue(core) < 0x1_0000_0000 then DigitsValue(core) else 0)
              && (|core| > 1 && core[0] == '+' && AllDigits(core[1..]) ==>
                    Schema(m) == if DigitsValue(core[1..]) < 0x1_0000_0000 then DigitsValue(core[1..]) else 0)
              && (Schema(m) != 0 ==> core != [] && (AllDigits(core) || (|core| > 1 && core[0] == '+' && AllDigits(core[1..]))))
  {
    hide Trim, DigitsValue, IsSpace;
    TrimIsTheCore(front, core, back);
    if core != [] && AllDigits(core) { assert IsDigit(core[0]); }
  }

  // ------------------------------------------------------- where files go

  /** The move, entry by entry: what goes to the library, to the local state and to the configuration. */
  lemma DestIsPlain(m: Entries, p: Path)
    requires p != []
    ensures Schema(m) >= 2 ==> Dest(m, p) == p
    ensures Schema(m) < 2 && p[0] in {Projects, Agents, GeneralRules, Scratch, Tasks} && p[0] in m ==>
              Dest(m, p) == if p[0] in Inside(m, Library) then p else [Library] + p
    ensures Schema(m) < 2 && p[0] in {Violations, PolicyHashes, Screenshots} && p[0] in m ==>
              Dest(m, p) == if p[0] in Inside(m, DotLocal) then p else [DotLocal] + p
    ensures Schema(m) < 2 && p[0] in {GeneralPolicy, ToolGate, ClaudeOverrides} && p[0] in m ==>
              Dest(m, p) == if p[0] in Inside(m, Config) then p else [Config] + p
    ensures var moving := {Projects, Agents, GeneralRules, Scratch, Tasks, Violations, PolicyHashes, Screenshots,
                           GeneralPolicy, ToolGate, ClaudeOverrides};
            p[0] !in moving ==> Dest(m, p) == p
  {
    hide Schema;
  }

  // ------------------------------------------------- the agents' own files

  /** The text of an agent's own file, in the library, or at the root it is still to be moved from. */
  predicate OwnText(m: Entries, dir: Name, body: string) {
    || FileAt(m, [Library, Agents, dir, CustomInstruction]) == Some(File(body, true))
    || (Schema(m) < 2 && Agents !in Inside(m, Library) && FileAt(m, [Agents, dir, CustomInstruction]) == Some(File(body, true)))
  }

  /** Neither blank nor, but for the space around it, the text that was shipped. */
  predicate Edited(template: string, body: string) { Trim(body) != Trim(template) && Trim(body) != "" }

  function PlainDir(a: Agent): Name { if a == Brian then BrianDir else RainDir }

  lemma LegacyBodyIs(m: Entries, a: Agent, body: string)
    ensures LegacyBody(m, a) == Some(body) <==> OwnText(m, PlainDir(a), body)
  {
    hide Schema, LayoutOps, FileAt;
    AllMovesPresent();
    var q := LegacyPath(a);
    assert q[1..] == [Agents, PlainDir(a), CustomInstruction];
    if FileAt(m, q).Some? { FilePresent(m, q); }
    if FileAt(m, q[1..]).Some? { RootPresent(m, q[1..]); }
    FileShape(m, q);
    FileShape(m, q[1..]);
  }

  lemma RootPresent(m: Entries, p: Path)
    requires FileAt(m, p).Some?
    ensures p != [] && p[0] in m
  {
  }

  /** Word for word in the consolidated file, under a heading that names the agent's old file. */
  ghost predicate HeldUnder(m: Entries, name: string, body: string) {
    exists text: string ::
      && FileAt(m, [Library, CustomInstructions]) == Some(File(text, true))
      && Contains(text, "\n\n## Migrated from agents/" + name + "/custom-instruction.md\n\n" + TrimEnd(body) + "\n")
  }

  /** The whole of a file of its own, where it was or where it is going. */
  predicate OwnFile(m: Entries, dir: Name, body: string) {
    || FileAt(m, [Library, Agents, dir, CustomInstruction]) == Some(File(body, true))
    || FileAt(m, [Agents, dir, CustomInstruction]) == Some(File(body, true))
  }

  lemma ConsolidatedIsHeld(m: Entries, body: string)
    ensures Consolidated(m, Brian, body) ==> HeldUnder(m, "brian", body)
    ensures Consolidated(m, Rain, body) ==> HeldUnder(m, "rain", body)
  {
    hide Contains, FileAt, TrimEnd, Instructions;
    InstructionsFile(m);
  }

  /**
  No interruption loses a word of the user's: at every point between two file
  operations an edited body is the whole of its own file, or stands, but for
  the space at its end, in the consolidated file under its agent's heading.
  */
  lemma {:induction false} EditedTextSurvives(sh: Shipped, m: Entries, i: nat, s: Entries, body: string)
    requires StoppedAfter(sh, m, i, s)
    ensures OwnText(m, BrianDir, body) && Edited(sh.legacyBrian, body) ==> OwnFile(s, BrianDir, body) || HeldUnder(s, "brian", body)
    ensures OwnText(m, RainDir, body) && Edited(sh.legacyRain, body) ==> OwnFile(s, RainDir, body) || HeldUnder(s, "rain", body)
  {
    hide Exec, InitOps, FileAt, LegacyBody, OwnText, HeldUnder, Consolidated, StoppedAfter, Trim;
    LegacyBodyIs(m, Brian, body);
    LegacyBodyIs(m, Rain, body);
    ConsolidatedIsHeld(s, body);
    if OwnText(m, BrianDir, body) && Edited(sh.legacyBrian, body) { BodySurvivesEveryCrash(sh, m, i, s, Brian, body); }
    if OwnText(m, RainDir, body) && Edited(sh.legacyRain, body) { BodySurvivesEveryCrash(sh, m, i, s, Rain, body); }
  }

  // ------------------------------------------------ the consolidated file

  /** What is added for one agent: its edited body under its heading, or nothing. */
  ghost predicate AddedFor(m: Entries, dir: Name, name: string, template: string, added: string) {
    || (exists body: string ::
          && OwnText(m, dir, body) && Edited(template, body)
          && added == "\n\n## Migrated from agents/" + name + "/custom-instruction.md\n\n" + TrimEnd(body) + "\n")
    || ((forall body: string :: OwnText(m, dir, body) ==> !Edited(template, body)) && added == "")
  }

  lemma FoldedIsAddedFor(sh: Shipped, m: Entries, a: Agent)
    ensures AddedFor(m, PlainDir(a), if a == Brian then "brian" else "rain", LegacyTemplate(sh, a), FoldedText(sh, m, a))
  {
    hide OwnText, LegacyBody, Trim, TrimEnd;
    forall body: string ensures LegacyBody(m, a) == Some(body) <==> OwnText(m, PlainDir(a), body) {
      LegacyBodyIs(m, a, body);
    }
    if LegacyBody(m, a).Some? { assert OwnText(m, PlainDir(a), LegacyBody(m, a).value); }
  }

  /**
  A successful set-up leaves the consolidated file as it was, or as shipped,
  followed by the two agents' edited texts, Brian's first. One that is not text
  stays, and then neither agent had such a text.
  */
  lemma {:induction false} ConsolidatedText(sh: Shipped, m: Entries) returns (brian: string, rain: string)
    requires Init(sh, m).ok
    ensures AddedFor(m, BrianDir, "brian", sh.legacyBrian, brian) && AddedFor(m, RainDir, "rain", sh.legacyRain, rain)
    ensures var was, now := FileAt(m, [Library, CustomInstructions]), FileAt(Init(sh, m).tree, [Library, CustomInstructions]);
            && (was.Some? && was.value.isText ==> now == Some(File(was.value.data + brian + rain, true)))
            && (CustomInstructions !in Inside(m, Library) ==> now == Some(File(sh.instructions + brian + rain, true)))
            && (CustomInstructions in Inside(m, Library) && !(was.Some? && was.value.isText) ==> now == was && brian == "" && rain == "")
  {
    hide Init, FileAt, FoldedText, Instructions, AddedFor;
    brian, rain := FoldedText(sh, m, Brian), FoldedText(sh, m, Rain);
    FoldedIsAddedFor(sh, m, Brian);
    FoldedIsAddedFor(sh, m, Rain);
    InstructionsAreFolded(sh, m);
    var f := Init(sh, m).tree;
    InstructionsFile(m);
    InstructionsFile(f);
    FileShape(m, INSTRUCTIONS_PATH);
    if Instructions(m).Some? { assert Instructions(m).value + brian + rain == Instructions(m).value + (brian + rain); }
    assert sh.instructions + brian + rain == sh.instructions + (brian + rain);
    if brian + rain == "" { assert |brian| == 0 && |rain| == 0; }
  }

  // ------------------------------------------------- the finished directory

  /** What a layout operation that moves nothing does to one movable entry: nothing. */
  lemma OthersMoveNothing(op: Op, m: Entries, n: Name)
    requires LayoutOp(op) && !op.MoveIfOld? && Do(op, m).Some? && Movable(n)
    ensures var m' := Do(op, m).value;
            (n in m' <==> n in m) && (n in Inside(m', HomeOf(n)) <==> n in Inside(m, HomeOf(n)))
  {
    hide Schema;
  }

  /** What a move does to one movable entry: its own, that it goes. */
  lemma MoveMoves(k: Name, m: Entries, n: Name)
    requires Movable(k) && Movable(n) && Do(MoveIfOld(k, HomeOf(k)), m).Some?
    ensures var m', moves := Do(MoveIfOld(k, HomeOf(k)), m).value, k == n && MoveApplies(m, n, HomeOf(n));
            (n in m' <==> n in m && !moves) && (n in Inside(m', HomeOf(n)) <==> n in Inside(m, HomeOf(n)) || moves)
  {
    hide Schema;
    HomesStay(k);
    HomesStay(n);
  }

  lemma HomesStay(n: Name)
    requires Movable(n)
    ensures !Movable(HomeOf(n))
  {
  }

  lemma LayoutOpMoves(op: Op, m: Entries, n: Name)
    requires LayoutOp(op) && !op.Stamp? && Do(op, m).Some? && Movable(n)
    ensures var m', moves := Do(op, m).value, op == MoveIfOld(n, HomeOf(n)) && MoveApplies(m, n, HomeOf(n));
            && Schema(m') == Schema(m)
            && (n in m' <==> n in m && !moves)
            && (n in Inside(m', HomeOf(n)) <==> n in Inside(m, HomeOf(n)) || moves)
  {
    LayoutSchema(op, m);
    hide Schema, Do, Movable, HomeOf, Inside, MoveApplies;
    if op.MoveIfOld? { MoveMoves(op.name, m, n); } else { OthersMoveNothing(op, m, n); }
  }

  /** Where an entry stands so far: the root and its home between them hold what they held, and old doubles stay. */
  predicate Standing(m: Entries, s: Entries, n: Name) {
    && Schema(s) == Schema(m)
    && (n in s || n in Inside(s, HomeOf(n)) <==> n in m || n in Inside(m, HomeOf(n)))
    && (n in s && n in Inside(s, HomeOf(n)) <==> n in m && n in Inside(m, HomeOf(n)))
    && (Schema(m) >= 2 ==> (n in s <==> n in m) && (n in Inside(s, HomeOf(n)) <==> n in Inside(m, HomeOf(n))))
  }

  lemma StandingStep(op: Op, m: Entries, s: Entries, n: Name)
    requires LayoutOp(op) && !op.Stamp? && Do(op, s).Some? && Movable(n) && Standing(m, s, n)
    ensures Standing(m, Do(op, s).value, n)
  {
    LayoutOpMoves(op, s, n);
    hide Do, Schema, LayoutOp, Movable, HomeOf, Inside;
  }

  lemma {:induction false} StandingUpTo(m: Entries, n: Name, i: nat)
    requires Movable(n) && i <= 20 && 20 < |LayoutOps()| && Exec(LayoutOps()[..i], m).ok
    ensures Standing(m, Exec(LayoutOps()[..i], m).tree, n)
  {
    hide Exec, Do, LayoutOps, LayoutOp, Schema, Standing, Movable;
    if i == 0 {
      assert LayoutOps()[..0] == [];
      StandsAtFirst(m, n);
    } else {
      ExecNext(LayoutOps(), i - 1, m);
      StandingUpTo(m, n, i - 1);
      LayoutOpsAreLayout(i - 1);
      MoveAtItsTurn(i - 1);
      StandingStep(LayoutOps()[i - 1], m, Exec(LayoutOps()[..i - 1], m).tree, n);
    }
  }

  lemma StandsAtFirst(m: Entries, n: Name)
    ensures Exec([], m) == Outcome(m, true) && Standing(m, m, n)
  {
    hide Schema;
  }

  lemma LayoutOpsAreLayout(i: nat)
    requires i < |LayoutOps()|
    ensures LayoutOp(LayoutOps()[i]) && |LayoutOps()| == 21 && LayoutOps()[20] == Stamp
    ensures LayoutOps()[i] == DropMarkerIfOld <==> i == 14
  {
    hide LayoutOps, LayoutOp;
    LayoutOpsAre();
    var ops := LayoutOps();
    assert ops[14] == DropMarkerIfOld;
    if i != 14 { assert ops[i] != DropMarkerIfOld; }
  }

  /** The layout up to the stamp, and the stamp. */
  lemma StampIsLast(m: Entries)
    requires Exec(LayoutOps(), m).ok
    ensures |LayoutOps()| == 21 && Exec(LayoutOps()[..20], m).ok
    ensures Do(Stamp, Exec(LayoutOps()[..20], m).tree) == Some(Exec(LayoutOps(), m).tree)
    ensures AllSettled(LayoutOps()[..20], Exec(LayoutOps()[..20], m).tree)
  {
    hide Exec, Do, LayoutOps, LayoutOp, Settled;
    LayoutOpsAre();
    LayoutOpsAreLayout(20);
    assert LayoutOps()[..21] == LayoutOps();
    ExecNext(LayoutOps(), 20, m);
    PrefixSettled(LayoutOps(), 20, m);
  }

  /** After the layout an old entry has left the root, unless its place was taken. */
  lemma LayoutPlaces(m: Entries, n: Name)
    requires Movable(n) && Exec(LayoutOps(), m).ok
    ensures var x := Exec(LayoutOps(), m).tree;
            && (n in x <==> n in m && (Schema(m) >= 2 || n in Inside(m, HomeOf(n))))
            && (n in Inside(x, HomeOf(n)) <==> n in Inside(m, HomeOf(n)) || (Schema(m) < 2 && n in m))
  {
    hide Exec, LayoutOps, Schema, LayoutOp;
    StampIsLast(m);
    StandingUpTo(m, n, 20);
    var s := Exec(LayoutOps()[..20], m).tree;
    EveryMoveHasItsTurn(n);
    TurnBeforeStamp(n);
    assert LayoutOps()[..20][Turn(n)] == MoveIfOld(n, HomeOf(n));
    assert Settled(MoveIfOld(n, HomeOf(n)), s);
    StampKeepsPlaces(s, n);
    hide Do, Movable, HomeOf, Inside, AllSettled, Turn;
  }

  lemma TurnBeforeStamp(n: Name)
    ensures Turn(n) < 20
  {
  }

  lemma StampKeepsPlaces(s: Entries, n: Name)
    requires Movable(n) && Do(Stamp, s).Some?
    ensures var x := Do(Stamp, s).value; (n in x <==> n in s) && Inside(x, HomeOf(n)) == Inside(s, HomeOf(n))
  {
    hide Schema;
  }

  /** The same entry at a name, or nothing in both. */
  predicate SameAt(m: Entries, m': Entries, n: Name) { (n in m <==> n in m') && (n in m ==> m'[n] == m[n]) }

  lemma CurrentMarkersStay(op: Op, m: Entries)
    requires LayoutOp(op) && Schema(m) >= 2 && Do(op, m).Some?
    ensures var m' := Do(op, m).value; Schema(m') >= 2 && SameAt(m, m', VersionTxt) && SameAt(m, m', ClVersionTxt)
  {
    LayoutSchema(op, m);
    hide Schema;
  }

  lemma {:induction false} CurrentMarkersUpTo(m: Entries, i: nat)
    requires Schema(m) >= 2 && i <= |LayoutOps()| && Exec(LayoutOps()[..i], m).ok
    ensures var s := Exec(LayoutOps()[..i], m).tree;
            Schema(s) >= 2 && SameAt(m, s, VersionTxt) && SameAt(m, s, ClVersionTxt)
  {
    hide Exec, Do, LayoutOps, LayoutOp, Schema;
    if i == 0 {
      assert LayoutOps()[..0] == [];
      StandsAtFirst(m, Projects);
    } else {
      ExecNext(LayoutOps(), i - 1, m);
      CurrentMarkersUpTo(m, i - 1);
      LayoutOpsAreLayout(i - 1);
      CurrentMarkersStay(LayoutOps()[i - 1], Exec(LayoutOps()[..i - 1], m).tree);
    }
  }

  lemma StampWrites(s: Entries)
    requires Schema(s) < 2 && Do(Stamp, s).Some?
    ensures var x := Do(Stamp, s).value;
            VersionTxt in x && x[VersionTxt] == File("2\n", true) && (ClVersionTxt in x <==> ClVersionTxt in s)
  {
    hide Schema;
  }

  /** The markers after the layout: the new one written and the old one gone, or both left as they were. */
  predicate Marked(m: Entries, x: Entries) {
    && (Schema(m) < 2 ==> VersionTxt in x && x[VersionTxt] == File("2\n", true) && ClVersionTxt !in x)
    && (Schema(m) >= 2 ==> SameAt(m, x, VersionTxt) && SameAt(m, x, ClVersionTxt))
  }

  lemma LayoutMarkers(m: Entries)
    requires Exec(LayoutOps(), m).ok
    ensures Marked(m, Exec(LayoutOps(), m).tree)
  {
    hide Exec, LayoutOps, Schema, LayoutOp, Do;
    StampIsLast(m);
    if Schema(m) >= 2 {
      assert LayoutOps()[..|LayoutOps()|] == LayoutOps();
      CurrentMarkersUpTo(m, |LayoutOps()|);
    } else {
      var s := Exec(LayoutOps()[..20], m).tree;
      StandingUpTo(m, Projects, 20);
      LayoutOpsAreLayout(14);
      assert LayoutOps()[..20][14] == DropMarkerIfOld;
      assert Settled(DropMarkerIfOld, s);
      StampWrites(s);
    }
  }

  /** Everything after the layout happens inside the library. */
  lemma {:induction false} LibraryOpsFrame(ops: seq<Op>, m: Entries)
    requires IsDir(m, Library) && forall k :: 0 <= k < |ops| ==> LibraryOp(ops[k])
    ensures var f := Exec(ops, m).tree; IsDir(f, Library) && f == m[Library := f[Library]]
    decreases |ops|
  {
    hide Do, LibraryOp;
    if ops != [] && Do(ops[0], m).Some? {
      LibraryOpFrame(ops[0], m);
      LibraryOpsFrame(ops[1..], Do(ops[0], m).value);
    } else {
      assert m == m[Library := m[Library]];
    }
  }

  /** What the tail of a set-up does to the root: nothing but the library changes. */
  lemma TailFrame(sh: Shipped, m: Entries)
    requires Init(sh, m).ok
    ensures var x, f := Exec(LayoutOps(), m).tree, Init(sh, m).tree;
            Exec(LayoutOps(), m).ok && IsDir(f, Library) && forall n :: n != Library ==> SameAt(x, f, n)
  {
    hide Init, Exec, LayoutOps, SeedOps, AgentOps, Legacy, FoldOp;
    SuccessfulParts(sh, m);
    var x := Exec(LayoutOps(), m).tree;
    var y := Stage(sh, x, Brian).tree;
    var z := Stage(sh, y, Rain).tree;
    AgentOpsAreFolds(sh, x, Brian);
    AgentOpsAreFolds(sh, y, Rain);
    SeedOpsThree(sh);
    FoldsAreLibraryOps(AgentOps(sh, x, Brian));
    FoldsAreLibraryOps(AgentOps(sh, y, Rain));
    FoldsAreLibraryOps(SeedOps(sh));
    LibraryOpsFrame(AgentOps(sh, x, Brian), x);
    LibraryOpsFrame(AgentOps(sh, y, Rain), y);
    LibraryOpsFrame(SeedOps(sh), z);
    hide LibraryOp;
  }

  lemma FoldsAreLibraryOps(ops: seq<Op>)
    requires forall k :: 0 <= k < |ops| ==> FoldOp(ops[k])
    ensures forall k :: 0 <= k < |ops| ==> LibraryOp(ops[k])
  {
  }

  lemma FoldOpKeepsRules(op: Op, m: Entries)
    requires FoldOp(op) && !op.SeedDefault? && IsDir(m, Library) && Do(op, m).Some?
    ensures IsDir(Do(op, m).value, Library) && SameAt(Inside(m, Library), Inside(Do(op, m).value, Library), GeneralRules)
  {
  }

  lemma {:induction false} FoldsKeepRules(ops: seq<Op>, m: Entries)
    requires IsDir(m, Library) && forall k :: 0 <= k < |ops| ==> FoldOp(ops[k]) && !ops[k].SeedDefault?
    ensures var f := Exec(ops, m).tree; IsDir(f, Library) && SameAt(Inside(m, Library), Inside(f, Library), GeneralRules)
    decreases |ops|
  {
    hide Do, FoldOp;
    if ops != [] && Do(ops[0], m).Some? {
      FoldOpKeepsRules(ops[0], m);
      FoldsKeepRules(ops[1..], Do(ops[0], m).value);
    }
  }

  lemma AgentOpsSeedNothing(sh: Shipped, m: Entries, a: Agent)
    ensures forall k :: 0 <= k < |AgentOps(sh, m, a)| ==> FoldOp(AgentOps(sh, m, a)[k]) && !AgentOps(sh, m, a)[k].SeedDefault?
  {
    AgentOpsAreFolds(sh, m, a);
    hide Legacy, UserEdited;
  }

  lemma SeedOneRule(op: Op, m: Entries)
    requires (op.PruneAgents? || (op.SeedDefault? && op.name in {GeneralRules, CustomInstructions})) && IsDir(m, Library)
    ensures Do(op, m).Some? && IsDir(Do(op, m).value, Library)
    ensures var lib, lib' := Inside(m, Library), Inside(Do(op, m).value, Library);
            if op.SeedDefault? && op.name == GeneralRules && GeneralRules !in lib
            then GeneralRules in lib' && lib'[GeneralRules] == File(op.text, true)
            else SameAt(lib, lib', GeneralRules)
  {
  }

  lemma SeedsFillRules(sh: Shipped, m: Entries)
    requires IsDir(m, Library)
    ensures var lib, lib' := Inside(m, Library), Inside(Exec(SeedOps(sh), m).tree, Library);
            && (GeneralRules in lib ==> SameAt(lib, lib', GeneralRules))
            && (GeneralRules !in lib ==> GeneralRules in lib' && lib'[GeneralRules] == File(sh.generalRules, true))
  {
    var a, b, c := PruneAgents, SeedDefault(GeneralRules, sh.generalRules), SeedDefault(CustomInstructions, sh.instructions);
    SeedOneRule(a, m);
    var m1 := Do(a, m).value;
    SeedOneRule(b, m1);
    var m2 := Do(b, m1).value;
    SeedOneRule(c, m2);
    assert SeedOps(sh) == [a] + [b, c];
    hide Do, Inside;
    ExecConcat([a], [b, c], m);
    ExecOne(a, m);
    ExecTwo(b, c, m1);
    ExecOne(c, m2);
  }

  /** The general rules: what the layout left of them, or the shipped ones. */
  lemma RulesAtTheEnd(sh: Shipped, m: Entries)
    requires Init(sh, m).ok
    ensures var lib, lib' := Inside(Exec(LayoutOps(), m).tree, Library), Inside(Init(sh, m).tree, Library);
            && (GeneralRules in lib ==> SameAt(lib, lib', GeneralRules))
            && (GeneralRules !in lib ==> GeneralRules in lib' && lib'[GeneralRules] == File(sh.generalRules, true))
  {
    hide Init, Exec, LayoutOps, SeedOps, AgentOps, Legacy, FoldOp, Inside;
    SuccessfulParts(sh, m);
    var x := Exec(LayoutOps(), m).tree;
    var y := Stage(sh, x, Brian).tree;
    AgentOpsSeedNothing(sh, x, Brian);
    AgentOpsSeedNothing(sh, y, Rain);
    FoldsKeepRules(AgentOps(sh, x, Brian), x);
    FoldsKeepRules(AgentOps(sh, y, Rain), y);
    SeedsFillRules(sh, Stage(sh, y, Rain).tree);
  }

  lemma ReadyDirs(f: Entries)
    requires Ready(f)
    ensures IsDir(f, Library) && IsDir(f, Config) && IsDir(f, Plugins) && IsDir(f, DotLocal) && IsDir(Inside(f, DotLocal), Logs)
  {
    LayoutOpsAre();
    hide LayoutOps;
    var ops := LayoutOps();
    assert ops[15] == MakeDir(Library) && ops[16] == MakeDir(Config) && ops[17] == MakeDir(Plugins);
    assert ops[18] == MakeDir(DotLocal) && ops[19] == MakeLogs;
    assert Settled(ops[15], f) && Settled(ops[16], f) && Settled(ops[17], f) && Settled(ops[18], f) && Settled(ops[19], f);
  }

  lemma RulesFile(m: Entries)
    requires IsDir(m, Library) && GeneralRules in Inside(m, Library) && Inside(m, Library)[GeneralRules].File?
    ensures FileAt(m, [Library, GeneralRules]) == Some(Inside(m, Library)[GeneralRules])
  {
    FindDown(m, [Library, GeneralRules]);
  }

  lemma PrunedIsNotEmpty(f: Entries)
    requires Do(PruneAgents, f) == Some(f) && IsDir(f, Library)
    ensures !(IsDir(Inside(f, Library), Agents) && Inside(Inside(f, Library), Agents) == map[])
  {
    var lib := Inside(f, Library);
    assert Inside(WithLibrary(f, lib - {Agents}), Library) == lib - {Agents};
  }

  lemma NoOwnFileLeft(f: Entries, a: Agent, body: string)
    requires Legacy(f, a) == None
    ensures FileAt(f, [Library, Agents, PlainDir(a), CustomInstruction]) != Some(File(body, true))
  {
    LegacyFile(f, a);
    hide FileAt;
  }

  /** What becomes of a movable entry at the root, and of its place. */
  predicate Gone(m: Entries, f: Entries, n: Name, home: Name) {
    n in f <==> n in m && (Schema(m) >= 2 || n in Inside(m, home))
  }

  lemma EntriesAreGone(sh: Shipped, m: Entries)
    requires Init(sh, m).ok
    ensures forall n :: n in {Projects, Agents, GeneralRules, Scratch, Tasks} ==> Gone(m, Init(sh, m).tree, n, Library)
    ensures forall n :: n in {Violations, PolicyHashes, Screenshots} ==> Gone(m, Init(sh, m).tree, n, DotLocal)
    ensures forall n :: n in {GeneralPolicy, ToolGate, ClaudeOverrides} ==> Gone(m, Init(sh, m).tree, n, Config)
  {
    hide Init, Gone;
    HomesArePlain();
    forall n | n in {Projects, Agents, GeneralRules, Scratch, Tasks} ensures Gone(m, Init(sh, m).tree, n, Library) {
      EntryIsGone(sh, m, n);
    }
    forall n | n in {Violations, PolicyHashes, Screenshots} ensures Gone(m, Init(sh, m).tree, n, DotLocal) {
      EntryIsGone(sh, m, n);
    }
    forall n | n in {GeneralPolicy, ToolGate, ClaudeOverrides} ensures Gone(m, Init(sh, m).tree, n, Config) {
      EntryIsGone(sh, m, n);
    }
  }

  /**
  The directory a successful set-up leaves: every folder in place, the schema
  recorded, the old marker and the old root entries gone unless their place was
  taken, no agent's file left to fold and no empty agents folder, and the
  general rules present, as shipped if there were none.
  */
  lemma {:induction false} LeavesThisTree(sh: Shipped, m: Entries)
    requires Init(sh, m).ok
    ensures var f := Init(sh, m).tree;
            && IsDir(f, Library) && IsDir(f, Config) && IsDir(f, Plugins) && IsDir(f, DotLocal) && IsDir(Inside(f, DotLocal), Logs)
            && (Schema(m) < 2 ==> VersionTxt in f && f[VersionTxt] == File("2\n", true) && ClVersionTxt !in f)
            && (Schema(m) >= 2 ==> SameAt(m, f, VersionTxt) && SameAt(m, f, ClVersionTxt))
            && (forall n :: n in {Projects, Agents, GeneralRules, Scratch, Tasks} ==> Gone(m, f, n, Library))
            && (forall n :: n in {Violations, PolicyHashes, Screenshots} ==> Gone(m, f, n, DotLocal))
            && (forall n :: n in {GeneralPolicy, ToolGate, ClaudeOverrides} ==> Gone(m, f, n, Config))
            && (forall body :: FileAt(f, [Library, Agents, BrianDir, CustomInstruction]) != Some(File(body, true)))
            && (forall body :: FileAt(f, [Library, Agents, RainDir, CustomInstruction]) != Some(File(body, true)))
            && !(IsDir(Inside(f, Library), Agents) && Inside(Inside(f, Library), Agents) == map[])
            && GeneralRules in Inside(f, Library) && CustomInstructions in Inside(f, Library)
            && (GeneralRules !in Inside(m, Library) && !(Schema(m) < 2 && GeneralRules in m) ==>
                  FileAt(f, [Library, GeneralRules]) == Some(File(sh.generalRules, true)))
  {
    hide Init, Exec, LayoutOps, SeedOps, AgentOps, Legacy, Schema, FileAt, Inside, Ready, Do;
    var x, f := Exec(LayoutOps(), m).tree, Init(sh, m).tree;
    FinalTree(sh, m);
    ReadyDirs(f);
    TailFrame(sh, m);
    LayoutMarkers(m);
    assert SameAt(x, f, VersionTxt) && SameAt(x, f, ClVersionTxt);
    RulesAtTheEnd(sh, m);
    PrunedIsNotEmpty(f);
    EntriesAreGone(sh, m);
    HomesArePlain();
    LayoutPlaces(m, GeneralRules);
    forall body: string, a: Agent ensures FileAt(f, [Library, Agents, PlainDir(a), CustomInstruction]) != Some(File(body, true)) {
      assert a == Brian || a == Rain;
      NoOwnFileLeft(f, a, body);
    }
    assert PlainDir(Brian) == BrianDir && PlainDir(Rain) == RainDir;
    BothSlots(f);
    if GeneralRules !in Inside(x, Library) { RulesFile(f); }
    hide Movable, HomeOf, Gone;
  }

  lemma EntryIsGone(sh: Shipped, m: Entries, n: Name)
    requires Init(sh, m).ok && Movable(n)
    ensures Gone(m, Init(sh, m).tree, n, HomeOf(n))
  {
    hide Init, Exec, LayoutOps, Schema, Inside, HomeOf;
    TailFrame(sh, m);
    LayoutPlaces(m, n);
    assert SameAt(Exec(LayoutOps(), m).tree, Init(sh, m).tree, n);
  }

  lemma BothSlots(f: Entries)
    requires SeedSlots(f) == []
    ensures GeneralRules in Inside(f, Library) && CustomInstructions in Inside(f, Library)
  {
  }

  /** The eleven entries that move, and their homes. */
  lemma HomesArePlain()
    ensures forall n :: n in {Projects, Agents, GeneralRules, Scratch, Tasks} ==> Movable(n) && HomeOf(n) == Library
    ensures forall n :: n in {Violations, PolicyHashes, Screenshots} ==> Movable(n) && HomeOf(n) == DotLocal
    ensures forall n :: n in {GeneralPolicy, ToolGate, ClaudeOverrides} ==> Movable(n) && HomeOf(n) == Config
  {
  }
}
