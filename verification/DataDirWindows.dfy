/**
The two windows in which a crash of set-up is visible for good: how each is
reached, what a second run makes of it, and one data directory for each.
*/
module DataDirWindows {
  import opened Options
  import opened Whitespace
  import opened DataDir
  import opened DataDirCrash
  import opened DataDirFold

  /** Past the layout, set-up of a settled tree stops where Brian's stage stops. */
  lemma StopInBrian(sh: Shipped, m: Entries, k: nat)
    requires Ready(m) && k <= |AgentOps(sh, m, Brian)|
    ensures var i := |LayoutOps()| + k;
            && i <= |InitOps(sh, m)|
            && Exec(InitOps(sh, m)[..i], m) == Exec(AgentOps(sh, m, Brian)[..k], m)
            && (k > 0 ==> InitOps(sh, m)[i - 1] == AgentOps(sh, m, Brian)[k - 1])
  {
    hide Exec, LayoutOps, AgentOps, SeedOps, Ready;
    var l, b := LayoutOps(), AgentOps(sh, m, Brian);
    ReadyRerun(m);
    assert BrianOps(sh, m) == b;
    var ops := InitOps(sh, m);
    assert ops == l + (b + (RainOps(sh, m) + SeedOps(sh)));
    assert ops[..|l| + k] == l + b[..k];
    ExecConcat(l, b[..k], m);
  }

  lemma BrianSection(body: string)
    ensures Section(Brian, body) ==
            "\n\n## Migrated from agents/" + "brian" + "/custom-instruction.md\n\n" + TrimEnd(body) + "\n"
  {
  }

  /**
  Stopped between the append and the removal of a user-edited file, set-up
  folds the same body in a second time when it is run again.
  */
  lemma {:induction false} AppendWindow(sh: Shipped, m: Entries, body: string) returns (s: Entries)
    requires Ready(m) && Folds(sh, m, Brian) && Legacy(m, Brian) == Some(body)
    requires HasInstructions(m) ==> Instructions(m).Some?
    ensures var i := |LayoutOps()| + 2;
            var base := if HasInstructions(m) then Instructions(m).value else sh.instructions;
            var folded := "\n\n## Migrated from agents/" + "brian" + "/custom-instruction.md\n\n" + TrimEnd(body) + "\n";
            && StoppedAfter(sh, m, i, s) && CrashTorn(sh, m, i, s) && Init(sh, s) != Init(sh, m)
            && Instructions(Init(sh, s).tree)
               == Some(base + folded + folded + Added(sh, m, Rain))
  {
    BrianSection(body);
    hide Do, Exec, Ready, Instructions, HasInstructions, UserEdited, Section, Init, LayoutOps, TrimEnd;
    ReadyMeans(m);
    var head := [SeedInstructions(sh.instructions), Append(Brian, body)];
    SeedAndAppend(sh, m, Brian, body);
    s := Exec(head, m).tree;
    assert AgentOps(sh, m, Brian)[..2] == head;
    StopInBrian(sh, m, 2);
    LegacyFromAgents(m, s, Brian);
    LegacyFromAgents(m, s, Rain);
    LibraryOpsKeepReady(head, m);
    ReadyInit(sh, s);
    TailInstructions(sh, s);
    hide AgentOps, Legacy;
    CrashConvergence(sh, m, |LayoutOps()| + 2, s);
  }

  lemma PlainStageOps(sh: Shipped, m: Entries)
    requires Legacy(m, Brian).Some? && !Folds(sh, m, Brian)
    ensures AgentOps(sh, m, Brian) == [RemoveLegacy(Brian), PruneAgent(Brian)]
  {
    hide Legacy, UserEdited;
  }

  /** Where set-up stands right after the removal. */
  lemma AfterRemoval(sh: Shipped, m: Entries) returns (s: Entries)
    requires Ready(m) && Legacy(m, Brian).Some? && !Folds(sh, m, Brian)
    ensures Do(RemoveLegacy(Brian), m) == Some(s) && StoppedAfter(sh, m, |LayoutOps()| + 1, s)
    ensures InitOps(sh, m)[|LayoutOps()|] == RemoveLegacy(Brian)
  {
    hide Do, Exec, Ready, Folds, LayoutOps, InitOps, AgentOps, Legacy;
    RemoveAlwaysWorks(m, Brian);
    s := Do(RemoveLegacy(Brian), m).value;
    ExecOne(RemoveLegacy(Brian), m);
    PlainStageOps(sh, m);
    assert AgentOps(sh, m, Brian)[..1] == [RemoveLegacy(Brian)];
    StopInBrian(sh, m, 1);
  }

  /**
  Stopped between the removal of a file that empties its directory and the
  pruning of that directory, set-up never prunes it, however often it is run.
  */
  lemma {:induction false} PruneWindow(sh: Shipped, m: Entries) returns (s: Entries)
    requires Ready(m) && Legacy(m, Brian).Some? && !Folds(sh, m, Brian) && AgentDir(m, Brian).Keys == {CustomInstruction}
    ensures var i := |LayoutOps()| + 1;
            && StoppedAfter(sh, m, i, s) && CrashTorn(sh, m, i, s) && Init(sh, s) != Init(sh, m)
            && BrianDir in AgentsDir(Init(sh, s).tree) && Init(sh, Init(sh, s).tree) == Init(sh, s)
  {
    hide Do, Exec, Ready, Instructions, HasInstructions, Folds, Init, InitOps, LayoutOps, Legacy, AgentDir, AgentsDir;
    ReadyMeans(m);
    s := AfterRemoval(sh, m);
    RemoveAndPrune(m, Brian);
    RemovedIsEmpty(m);
    ExecOne(RemoveLegacy(Brian), m);
    LibraryOpsKeepReady([RemoveLegacy(Brian)], m);
    PruneConsequence(sh, m, |LayoutOps()| + 1, s);
  }

  lemma PruneConsequence(sh: Shipped, m: Entries, i: nat, s: Entries)
    requires StoppedAfter(sh, m, i, s) && CrashTorn(sh, m, i, s)
    requires Ready(s) && Legacy(s, Brian) == None && BrianDir in AgentsDir(s)
    ensures Init(sh, s) != Init(sh, m) && BrianDir in AgentsDir(Init(sh, s).tree) && Init(sh, Init(sh, s).tree) == Init(sh, s)
  {
    hide Ready, Exec, Tail, Init, InitOps, Legacy, AgentsDir, CrashTorn, StoppedAfter;
    ReadyMeans(s);
    ReadyInit(sh, s);
    TailLeavesDir(sh, s, Brian);
    CrashConvergence(sh, m, i, s);
    InitIsIdempotent(sh, s);
  }

  lemma RemovedIsEmpty(m: Entries)
    requires IsDir(m, Library) && AgentDir(m, Brian).Keys == {CustomInstruction}
    ensures AgentDir(Do(RemoveLegacy(Brian), m).value, Brian) == map[]
  {
    FoldOpAgents(RemoveLegacy(Brian), m);
    assert AgentDir(m, Brian) - {CustomInstruction} == map[];
  }

  // ------------------------------------------------------ one tree for each

  /** A current data directory that still holds one file of Brian's. */
  function Home(body: string): Entries {
    map[
      VersionTxt := File("2\n", true),
      Config := Dir(map[]),
      Plugins := Dir(map[]),
      DotLocal := Dir(map[Logs := Dir(map[])]),
      Library := Dir(map[Agents := Dir(map[BrianDir := Dir(map[CustomInstruction := File(body, true)])])])
    ]
  }

  const TEMPLATES := Shipped("", "", "seed", "rules")

  lemma HomeIsReady(body: string)
    ensures Ready(Home(body)) && Legacy(Home(body), Brian) == Some(body) && !HasInstructions(Home(body))
    ensures AgentDir(Home(body), Brian).Keys == {CustomInstruction}
  {
    var m := Home(body);
    assert Schema(m) == 2 by {
      StampedSchema(m);
      assert m == m[VersionTxt := File("2\n", true)];
    }
    LayoutOpsAre();
    hide Schema, LayoutOps;
    assert IsDir(m, Library) && IsDir(m, Config) && IsDir(m, Plugins) && IsDir(m, DotLocal);
    forall k | 0 <= k < |LayoutOps()| ensures Settled(LayoutOps()[k], m) {
      HomeSettles(LayoutOps()[k], m);
    }
  }

  lemma HomeSettles(op: Op, m: Entries)
    requires LayoutOp(op) && Schema(m) == 2
    requires IsDir(m, Library) && IsDir(m, Config) && IsDir(m, Plugins) && IsDir(m, DotLocal) && IsDir(m[DotLocal].entries, Logs)
    ensures Settled(op, m)
  {
    hide Schema;
  }

  lemma AppendWindowShown() returns (s: Entries)
    ensures var i := |LayoutOps()| + 2;
            && StoppedAfter(TEMPLATES, Home("x"), i, s) && CrashTorn(TEMPLATES, Home("x"), i, s)
            && Init(TEMPLATES, s) != Init(TEMPLATES, Home("x"))
  {
    HomeIsReady("x");
    assert Trim("x") == "x" && Trim("") == "";
    hide Ready, Home, Init, LayoutOps, InitOps, Instructions, Legacy, Exec, Trim;
    s := AppendWindow(TEMPLATES, Home("x"), "x");
  }

  lemma PruneWindowShown() returns (s: Entries)
    ensures var i := |LayoutOps()| + 1;
            && StoppedAfter(TEMPLATES, Home(""), i, s) && CrashTorn(TEMPLATES, Home(""), i, s)
            && Init(TEMPLATES, s) != Init(TEMPLATES, Home(""))
  {
    HomeIsReady("");
    assert Trim("") == "";
    hide Ready, Home, Init, LayoutOps, InitOps, Legacy, Exec, Trim;
    s := PruneWindow(TEMPLATES, Home(""));
  }
}
