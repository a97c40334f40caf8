/**
Folding the per-agent instruction files into one: what each operation changes,
what the whole fold adds, and where an interruption of it can be seen afterwards.
*/
module DataDirFold {
  import opened Options
  import opened DataDir
  import opened DataDirCrash

  // --------------------------------------------------------- what is looked at

  function AgentsDir(m: Entries): Entries { Inside(Inside(m, Library), Agents) }

  predicate HasInstructions(m: Entries) { CustomInstructions in Inside(m, Library) }

  /** The consolidated instructions, when they can be read as text. */
  function Instructions(m: Entries): Option<string> {
    if IsTextFile(Inside(m, Library), CustomInstructions) then Some(Inside(m, Library)[CustomInstructions].data) else None
  }

  function AgentsAfter(op: Op, agents: Entries): Entries {
    match op
    case RemoveLegacy(a) => agents[DirOf(a) := Dir(Inside(agents, DirOf(a)) - {CustomInstruction})]
    case PruneAgent(a) =>
      if IsDir(agents, DirOf(a)) && agents[DirOf(a)].entries == map[] then agents - {DirOf(a)} else agents
    case _ => agents
  }

  predicate FoldOp(op: Op) {
    LibraryOp(op) && (op.SeedDefault? ==> op.name in {GeneralRules, CustomInstructions})
  }

  /** Each operation on the library, seen through the agents directory. */
  lemma FoldOpAgents(op: Op, m: Entries)
    requires FoldOp(op) && IsDir(m, Library) && Do(op, m).Some?
    ensures IsDir(Do(op, m).value, Library)
    ensures AgentsDir(Do(op, m).value) == AgentsAfter(op, AgentsDir(m))
  {
  }

  /** Each operation on the library, seen through the consolidated file. */
  lemma FoldOpInstructions(op: Op, m: Entries)
    requires FoldOp(op) && IsDir(m, Library) && Do(op, m).Some?
    ensures var m' := Do(op, m).value;
            match op
            case SeedInstructions(t) => HasInstructions(m') && Instructions(m') == (if HasInstructions(m) then Instructions(m) else Some(t))
            case Append(a, body) => HasInstructions(m') && Instructions(m).Some? && Instructions(m') == Some(Instructions(m).value + Section(a, body))
            case SeedDefault(n, t) =>
              && (HasInstructions(m) ==> HasInstructions(m') && Instructions(m') == Instructions(m))
              && (n == CustomInstructions ==> HasInstructions(m') && Instructions(m') == (if HasInstructions(m) then Instructions(m) else Some(t)))
            case _ => Instructions(m') == Instructions(m) && (HasInstructions(m') <==> HasInstructions(m))
  {
  }

  lemma LegacyFromAgents(m: Entries, m': Entries, a: Agent)
    requires Inside(AgentsDir(m), DirOf(a)) == Inside(AgentsDir(m'), DirOf(a))
    ensures Legacy(m, a) == Legacy(m', a)
  {
  }

  function OtherAgent(a: Agent): Agent { match a case Brian => Rain case Rain => Brian }

  // ------------------------------------------------------ one agent's stage

  function Stage(sh: Shipped, m: Entries, a: Agent): Outcome { Exec(AgentOps(sh, m, a), m) }

  lemma ExecTwo(a: Op, b: Op, m: Entries)
    ensures Exec([a, b], m) == match Do(a, m) case None => Outcome(m, false) case Some(m') => Exec([b], m')
  {
    hide Do;
    assert [a, b][1..] == [b];
  }

  /** Removing the file and pruning its directory: always succeeds, and the agent has no file left. */
  lemma RemoveAndPrune(m: Entries, a: Agent)
    requires IsDir(m, Library) && Legacy(m, a).Some?
    ensures var s := Do(RemoveLegacy(a), m).value;
            var y := Do(PruneAgent(a), s).value;
            && Exec([RemoveLegacy(a), PruneAgent(a)], m) == Outcome(y, true)
            && IsDir(s, Library) && IsDir(y, Library)
            && Legacy(s, a) == None && Legacy(y, a) == None
            && CustomInstruction !in AgentDir(s, a) && CustomInstruction !in AgentDir(y, a)
            && Legacy(s, OtherAgent(a)) == Legacy(m, OtherAgent(a)) == Legacy(y, OtherAgent(a))
            && Instructions(s) == Instructions(m) == Instructions(y)
            && (HasInstructions(s) <==> HasInstructions(m)) && (HasInstructions(y) <==> HasInstructions(m))
            && DirOf(a) in AgentsDir(s)
            && (DirOf(a) in AgentsDir(y) <==> AgentDir(s, a) != map[])
            && (AgentDir(s, a) != map[] ==> y == s)
            && (forall n :: n != DirOf(a) ==> (n in AgentsDir(m) <==> n in AgentsDir(s)) && (n in AgentsDir(m) <==> n in AgentsDir(y)))
  {
    var s := Do(RemoveLegacy(a), m).value;
    ExecTwo(RemoveLegacy(a), PruneAgent(a), m);
    ExecOne(PruneAgent(a), s);
    FoldOpAgents(RemoveLegacy(a), m);
    FoldOpAgents(PruneAgent(a), s);
    FoldOpInstructions(RemoveLegacy(a), m);
    FoldOpInstructions(PruneAgent(a), s);
  }

  predicate Folds(sh: Shipped, m: Entries, a: Agent) { Legacy(m, a).Some? && UserEdited(sh, a, Legacy(m, a).value) }

  /** What folding this agent adds to the consolidated file. */
  function Added(sh: Shipped, m: Entries, a: Agent): string {
    if Folds(sh, m, a) then Section(a, Legacy(m, a).value) else ""
  }

  /** Seeding and appending: all that touches the consolidated file in one stage. */
  lemma SeedAndAppend(sh: Shipped, m: Entries, a: Agent, body: string)
    requires IsDir(m, Library)
    ensures var s1 := Do(SeedInstructions(sh.instructions), m).value;
            var s2 := Do(Append(a, body), s1);
            && Exec([SeedInstructions(sh.instructions), Append(a, body)], m)
               == (if s2.Some? then Outcome(s2.value, true) else Outcome(s1, false))
            && IsDir(s1, Library) && AgentsDir(s1) == AgentsDir(m) && HasInstructions(s1)
            && Stable(SeedInstructions(sh.instructions), s1)
            && Instructions(s1) == (if HasInstructions(m) then Instructions(m) else Some(sh.instructions))
            && (s2.Some? <==> Instructions(s1).Some?)
            && (s2.Some? ==>
                  && IsDir(s2.value, Library) && AgentsDir(s2.value) == AgentsDir(m) && HasInstructions(s2.value)
                  && Instructions(s2.value) == Some(Instructions(s1).value + Section(a, body)))
  {
    var s1 := Do(SeedInstructions(sh.instructions), m).value;
    ExecTwo(SeedInstructions(sh.instructions), Append(a, body), m);
    ExecOne(Append(a, body), s1);
    FoldOpAgents(SeedInstructions(sh.instructions), m);
    FoldOpInstructions(SeedInstructions(sh.instructions), m);
    if Instructions(s1).Some? {
      FoldOpAgents(Append(a, body), s1);
      FoldOpInstructions(Append(a, body), s1);
    }
  }

  /** One agent's stage as a whole. */
  lemma StageEffect(sh: Shipped, m: Entries, a: Agent)
    requires IsDir(m, Library)
    ensures var y := Stage(sh, m, a);
            && (y.ok <==> (Folds(sh, m, a) && HasInstructions(m) ==> Instructions(m).Some?))
            && (Legacy(m, a) == None ==> y == Outcome(m, true))
            && (Legacy(m, a).Some? && y.ok ==> CustomInstruction !in AgentDir(y.tree, a))
            && (y.ok ==>
                  && IsDir(y.tree, Library)
                  && Legacy(y.tree, a) == None && Legacy(y.tree, OtherAgent(a)) == Legacy(m, OtherAgent(a))
                  && (!Folds(sh, m, a) ==> Instructions(y.tree) == Instructions(m) && (HasInstructions(y.tree) <==> HasInstructions(m)))
                  && (Folds(sh, m, a) ==>
                        && HasInstructions(y.tree)
                        && Instructions(y.tree) == Some((if HasInstructions(m) then Instructions(m).value else sh.instructions) + Added(sh, m, a))))
            && (forall n :: n != DirOf(a) ==> (n in AgentsDir(m) <==> n in AgentsDir(y.tree)))
  {
    hide Do, Instructions, HasInstructions, Section, UserEdited;
    if Legacy(m, a).Some? {
      var body := Legacy(m, a).value;
      if Folds(sh, m, a) {
        var head, rest := [SeedInstructions(sh.instructions), Append(a, body)], [RemoveLegacy(a), PruneAgent(a)];
        SeedAndAppend(sh, m, a, body);
        ExecConcat(head, rest, m);
        var s := Exec(head, m).tree;
        LegacyFromAgents(m, s, a);
        LegacyFromAgents(m, s, OtherAgent(a));
        if Exec(head, m).ok { RemoveAndPrune(s, a); }
      } else {
        assert [] + [RemoveLegacy(a), PruneAgent(a)] == [RemoveLegacy(a), PruneAgent(a)];
        RemoveAndPrune(m, a);
      }
    }
  }

  // --------------------------------------------- interrupting one stage

  /**
  The two windows: after a body was appended and before its file is removed, and
  after a file was removed that leaves its directory empty and before that
  directory is pruned.
  */
  predicate Torn(last: Op, s: Entries) {
    last.Append? || (last.RemoveLegacy? && AgentDir(s, last.agent) == map[])
  }

  /** What a stage interrupted after `k` operations leaves, and what a second run of it does. */
  ghost predicate CutStage(sh: Shipped, m: Entries, a: Agent, k: nat) {
    var ops := AgentOps(sh, m, a);
    && k <= |ops|
    && (Exec(ops[..k], m).ok ==>
          var s := Exec(ops[..k], m).tree;
          && IsDir(s, Library)
          && Legacy(s, OtherAgent(a)) == Legacy(m, OtherAgent(a))
          && (k > 0 && ops[k - 1].Append? ==>
                var y := Stage(sh, m, a);
                y.ok && Folds(sh, s, a) && Instructions(s).Some? && Instructions(y.tree) == Instructions(s))
          && (k > 0 && ops[k - 1].RemoveLegacy? && Torn(ops[k - 1], s) ==>
                var y := Stage(sh, m, a);
                ops[k - 1].agent == a && y.ok && Legacy(s, a) == None && DirOf(a) in AgentsDir(s) && DirOf(a) !in AgentsDir(y.tree))
          && (k == 0 || !Torn(ops[k - 1], s) ==> Stage(sh, s, a) == Stage(sh, m, a)))
  }

  lemma CutPlainStage(sh: Shipped, m: Entries, a: Agent, k: nat)
    requires IsDir(m, Library) && !Folds(sh, m, a) && k <= |AgentOps(sh, m, a)|
    ensures CutStage(sh, m, a, k)
  {
    var ops := AgentOps(sh, m, a);
    if ops == [] || k == 0 {
      assert ops[..k] == [];
    } else {
      hide Do, Instructions, HasInstructions, UserEdited;
      assert ops == [RemoveLegacy(a), PruneAgent(a)];
      CutTail(sh, m, a, m, [], k);
    }
  }

  /** The remove-and-prune half, reached at `x` after the `head` of the stage. */
  lemma CutTail(sh: Shipped, m: Entries, a: Agent, x: Entries, head: seq<Op>, k: nat)
    requires AgentOps(sh, m, a) == head + [RemoveLegacy(a), PruneAgent(a)] && |head| < k <= |head| + 2
    requires Exec(head, m) == Outcome(x, true) && IsDir(x, Library) && Legacy(x, a).Some?
    requires Legacy(x, OtherAgent(a)) == Legacy(m, OtherAgent(a))
    ensures CutStage(sh, m, a, k)
  {
    hide Do, Exec, AgentOps, Legacy, Instructions, HasInstructions, UserEdited, AgentsDir, AgentDir;
    RemoveAlwaysWorks(x, a);
    var ops, rest := AgentOps(sh, m, a), [RemoveLegacy(a), PruneAgent(a)];
    var s := Do(RemoveLegacy(a), x).value;
    RemoveAlwaysWorks(s, a);
    var y := Do(PruneAgent(a), s).value;
    RemoveAndPrune(x, a);
    ExecConcat(head, rest, m);
    assert Exec(ops, m) == Outcome(y, true);
    if k == |head| + 1 {
      ExecConcat(head, [RemoveLegacy(a)], m);
      ExecOne(RemoveLegacy(a), x);
      assert ops[..k] == head + [RemoveLegacy(a)];
      StageEffectNone(sh, s, a);
    } else {
      assert ops[..k] == ops;
      StageEffectNone(sh, y, a);
    }
  }

  lemma RemoveAlwaysWorks(m: Entries, a: Agent)
    ensures Do(RemoveLegacy(a), m).Some? && Do(PruneAgent(a), m).Some?
  {
  }

  lemma StageEffectNone(sh: Shipped, m: Entries, a: Agent)
    requires Legacy(m, a) == None
    ensures Stage(sh, m, a) == Outcome(m, true)
  {
  }

  lemma CutFoldingStage(sh: Shipped, m: Entries, a: Agent, k: nat)
    requires IsDir(m, Library) && Folds(sh, m, a) && k <= |AgentOps(sh, m, a)|
    ensures CutStage(sh, m, a, k)
  {
    hide Do, Instructions, HasInstructions, UserEdited, Section;
    var body := Legacy(m, a).value;
    var ops := AgentOps(sh, m, a);
    var head := [SeedInstructions(sh.instructions), Append(a, body)];
    SeedAlwaysWorks(sh, m);
    var s1 := Do(SeedInstructions(sh.instructions), m).value;
    SeedAndAppend(sh, m, a, body);
    ExecOne(SeedInstructions(sh.instructions), m);
    LegacyFromAgents(m, s1, a);
    LegacyFromAgents(m, s1, OtherAgent(a));
    if k == 0 {
      assert ops[..k] == [];
    } else if k == 1 {
      assert ops[..k] == [SeedInstructions(sh.instructions)];
      assert ops[1..] == [Append(a, body), RemoveLegacy(a), PruneAgent(a)];
    } else {
      assert ops[..2] == head;
      if Exec(head, m).ok {
        var s2 := Exec(head, m).tree;
        LegacyFromAgents(m, s2, a);
        LegacyFromAgents(m, s2, OtherAgent(a));
        if k == 2 {
          RemoveAndPrune(s2, a);
          ExecConcat(head, [RemoveLegacy(a), PruneAgent(a)], m);
        } else {
          CutTail(sh, m, a, s2, head, k);
        }
      } else {
        assert ops[..k] == head + ops[2..k];
        ExecConcat(head, ops[2..k], m);
      }
    }
  }

  lemma SeedAlwaysWorks(sh: Shipped, m: Entries)
    ensures Do(SeedInstructions(sh.instructions), m).Some?
  {
  }

  lemma CutAnyStage(sh: Shipped, m: Entries, a: Agent, k: nat)
    requires IsDir(m, Library) && k <= |AgentOps(sh, m, a)|
    ensures CutStage(sh, m, a, k)
  {
    if Folds(sh, m, a) { CutFoldingStage(sh, m, a, k); } else { CutPlainStage(sh, m, a, k); }
  }

  // -------------------------------------------- everything after the layout

  function Tail(sh: Shipped, m: Entries): Outcome {
    var b := Stage(sh, m, Brian);
    if !b.ok then b
    else
      var r := Stage(sh, b.tree, Rain);
      if !r.ok then r else Exec(SeedOps(sh), r.tree)
  }

  /** A whole set-up: the layout, then the rest on what the layout left. */
  lemma InitSplits(sh: Shipped, m: Entries)
    ensures var l := Exec(LayoutOps(), m);
            Init(sh, m) == if l.ok then Tail(sh, l.tree) else l
  {
    hide Do, LayoutOps, SeedOps, AgentOps;
    var l := Exec(LayoutOps(), m);
    var b, r, e := BrianOps(sh, m), RainOps(sh, m), SeedOps(sh);
    assert InitOps(sh, m) == LayoutOps() + b + r + e;
    ExecConcat(LayoutOps() + b + r, e, m);
    ExecConcat(LayoutOps() + b, r, m);
    ExecConcat(LayoutOps(), b, m);
  }

  lemma SeedOpsWork(sh: Shipped, m: Entries)
    requires IsDir(m, Library)
    ensures var f := Exec(SeedOps(sh), m);
            && f.ok && IsDir(f.tree, Library)
            && AgentsDir(f.tree) == AgentsDir(m)
            && HasInstructions(f.tree)
            && Instructions(f.tree) == (if HasInstructions(m) then Instructions(m) else Some(sh.instructions))
            && AllStable(SeedOps(sh), f.tree)
            && GeneralRules in Inside(f.tree, Library)
  {
    SeedOpsSeed(sh, m);
    SeedOpsSettle(sh, Exec(SeedOps(sh), m).tree);
    hide Exec, SeedOps, AllStable, Instructions, HasInstructions;
  }

  /** A tree with both slots and no empty agents directory is left alone. */
  lemma SeedOpsSettle(sh: Shipped, m: Entries)
    requires IsDir(m, Library) && HasInstructions(m) && GeneralRules in Inside(m, Library)
    requires Stable(PruneAgents, m)
    ensures AllStable(SeedOps(sh), m)
  {
  }

  lemma SeedOpsSeed(sh: Shipped, m: Entries)
    requires IsDir(m, Library)
    ensures var f := Exec(SeedOps(sh), m);
            && f.ok && IsDir(f.tree, Library)
            && AgentsDir(f.tree) == AgentsDir(m)
            && HasInstructions(f.tree)
            && Instructions(f.tree) == (if HasInstructions(m) then Instructions(m) else Some(sh.instructions))
            && Stable(PruneAgents, f.tree)
            && GeneralRules in Inside(f.tree, Library)
  {
    var a, b, c := PruneAgents, SeedDefault(GeneralRules, sh.generalRules), SeedDefault(CustomInstructions, sh.instructions);
    assert SeedOps(sh) == [a] + [b, c];
    PruneSettles(m);
    var m1 := Do(a, m).value;
    SeedKeeps(b, m1);
    var m2 := Do(b, m1).value;
    SeedKeeps(c, m2);
    hide Do, Exec, SeedOps, AgentsDir, Instructions, HasInstructions, Stable, Inside;
    ExecConcat([a], [b, c], m);
    ExecOne(a, m);
    ExecTwo(b, c, m1);
    ExecOne(c, m2);
    FoldOpAgents(a, m);
    FoldOpAgents(b, m1);
    FoldOpAgents(c, m2);
    FoldOpInstructions(a, m);
    FoldOpInstructions(b, m1);
    FoldOpInstructions(c, m2);
  }

  lemma PruneSettles(m: Entries)
    requires IsDir(m, Library)
    ensures Do(PruneAgents, m).Some? && IsDir(Do(PruneAgents, m).value, Library) && Stable(PruneAgents, Do(PruneAgents, m).value)
  {
  }

  lemma SeedKeeps(op: Op, m: Entries)
    requires op.SeedDefault? && op.name in {GeneralRules, CustomInstructions} && IsDir(m, Library) && Stable(PruneAgents, m)
    ensures Do(op, m).Some?
    ensures var m' := Do(op, m).value;
            && IsDir(m', Library) && Stable(PruneAgents, m') && op.name in Inside(m', Library)
            && (GeneralRules in Inside(m, Library) ==> GeneralRules in Inside(m', Library))
  {
  }

  /** Interrupted among the seeds, the rest of the seeds lead to the same tree. */
  lemma SeedsRestart(sh: Shipped, m: Entries, k: nat)
    requires IsDir(m, Library) && k <= 3
    ensures var c := Exec(SeedOps(sh)[..k], m);
            && c.ok && IsDir(c.tree, Library) && AgentsDir(c.tree) == AgentsDir(m)
            && Exec(SeedOps(sh), c.tree) == Exec(SeedOps(sh), m)
  {
    var a, b, c := PruneAgents, SeedDefault(GeneralRules, sh.generalRules), SeedDefault(CustomInstructions, sh.instructions);
    var m1 := Do(a, m).value;
    var m2 := Do(b, m1).value;
    FoldOpAgents(a, m);
    FoldOpAgents(b, m1);
    ExecOne(a, m);
    ExecTwo(a, b, m);
    ExecOne(b, m1);
    SeedOpsWork(sh, m);
    var s := Exec(SeedOps(sh)[..k], m).tree;
    if k == 0 {
      assert SeedOps(sh)[..k] == [];
    } else if k == 1 {
      assert SeedOps(sh)[..k] == [a];
      assert SeedOps(sh) == [a] + [b, c];
      ExecConcat([a], [b, c], m);
      ExecConcat([a], [b, c], m1);
      ExecOne(a, m1);
      assert Stable(a, m1);
    } else if k == 2 {
      assert SeedOps(sh)[..k] == [a, b];
      assert SeedOps(sh) == [a, b] + [c];
      ExecConcat([a, b], [c], m);
      ExecConcat([a, b], [c], m2);
      assert Stable(a, m2) && Stable(b, m2);
      ExecTwo(a, b, m2);
      ExecOne(b, m2);
    } else {
      assert SeedOps(sh)[..k] == SeedOps(sh);
      ExecStable(SeedOps(sh), s);
    }
  }

  /** What the rest of a set-up does to the consolidated file, when it is already text. */
  lemma TailInstructions(sh: Shipped, m: Entries)
    requires IsDir(m, Library) && Instructions(m).Some?
    ensures var f := Tail(sh, m);
            f.ok && Instructions(f.tree) == Some(Instructions(m).value + Added(sh, m, Brian) + Added(sh, m, Rain))
  {
    hide Exec, AgentOps, SeedOps, UserEdited, Section, Legacy, AgentsDir;
    assert HasInstructions(m);
    StageEffect(sh, m, Brian);
    var b := Stage(sh, m, Brian).tree;
    StageEffect(sh, b, Rain);
    SeedOpsWork(sh, Stage(sh, b, Rain).tree);
    assert Added(sh, b, Rain) == Added(sh, m, Rain);
    assert Instructions(m).value + "" == Instructions(m).value;
    assert Instructions(b).value + "" == Instructions(b).value;
  }

  /** A directory whose legacy file is gone stays or goes as it stands. */
  lemma TailLeavesDir(sh: Shipped, m: Entries, a: Agent)
    requires IsDir(m, Library) && Legacy(m, a) == None
    ensures DirOf(a) in AgentsDir(Tail(sh, m).tree) <==> DirOf(a) in AgentsDir(m)
  {
    hide Exec, AgentOps, SeedOps, UserEdited, Section, Legacy, AgentsDir, Instructions, HasInstructions;
    StageEffect(sh, m, Brian);
    var b := Stage(sh, m, Brian);
    if b.ok {
      StageEffect(sh, b.tree, Rain);
      var r := Stage(sh, b.tree, Rain);
      if r.ok { SeedOpsWork(sh, r.tree); }
    }
  }

  // ------------------------------------------------------- the crash theorem

  /** `s` is what a set-up of `m` leaves when it stops after `i` file operations. */
  ghost predicate StoppedAfter(sh: Shipped, m: Entries, i: nat, s: Entries) {
    i <= |InitOps(sh, m)| && Exec(InitOps(sh, m)[..i], m) == Outcome(s, true)
  }

  /** The crash fell in one of the two windows. */
  predicate CrashTorn(sh: Shipped, m: Entries, i: nat, s: Entries)
    requires i <= |InitOps(sh, m)|
  {
    i > 0 && Torn(InitOps(sh, m)[i - 1], s)
  }

  /** Interrupted in Brian's stage, reached at `x`. */
  lemma CrashInBrian(sh: Shipped, x: Entries, k: nat, s: Entries)
    requires IsDir(x, Library) && k <= |AgentOps(sh, x, Brian)| && Exec(AgentOps(sh, x, Brian)[..k], x) == Outcome(s, true)
    ensures IsDir(s, Library)
    ensures Tail(sh, s) == Tail(sh, x) <==> k == 0 || !Torn(AgentOps(sh, x, Brian)[k - 1], s)
  {
    hide Exec, AgentOps, SeedOps, UserEdited, Legacy, AgentsDir, Instructions;
    CutAnyStage(sh, x, Brian, k);
    if k > 0 && Torn(AgentOps(sh, x, Brian)[k - 1], s) {
      var y := Stage(sh, x, Brian);
      StageEffect(sh, x, Brian);
      StageEffectNone(sh, y.tree, Brian);
      assert Tail(sh, x) == Tail(sh, y.tree);
      TornDiffers(sh, AgentOps(sh, x, Brian)[k - 1], s, y.tree, Brian);
    }
  }

  /** Interrupted in Rain's stage, reached at `x` from `x0`. */
  lemma CrashInRain(sh: Shipped, x0: Entries, x: Entries, k: nat, s: Entries)
    requires IsDir(x0, Library) && Stage(sh, x0, Brian) == Outcome(x, true)
    requires k <= |AgentOps(sh, x, Rain)| && Exec(AgentOps(sh, x, Rain)[..k], x) == Outcome(s, true)
    ensures IsDir(s, Library)
    ensures Tail(sh, s) == Tail(sh, x0) <==> k == 0 || !Torn(AgentOps(sh, x, Rain)[k - 1], s)
  {
    hide Exec, AgentOps, SeedOps, UserEdited, Legacy, AgentsDir, Instructions;
    StageEffect(sh, x0, Brian);
    CutAnyStage(sh, x, Rain, k);
    StageEffectNone(sh, s, Brian);
    StageEffectNone(sh, x, Brian);
    if k > 0 && Torn(AgentOps(sh, x, Rain)[k - 1], s) {
      var y := Stage(sh, x, Rain);
      StageEffect(sh, x, Rain);
      StageEffectNone(sh, y.tree, Brian);
      StageEffectNone(sh, y.tree, Rain);
      assert Tail(sh, x0) == Tail(sh, y.tree);
      TornDiffers(sh, AgentOps(sh, x, Rain)[k - 1], s, y.tree, Rain);
    }
  }

  lemma SectionIsSomething(a: Agent, body: string)
    ensures |Section(a, body)| > 0
  {
  }

  /** A torn stage shows: either a section appears twice or an empty directory stays. */
  lemma TornDiffers(sh: Shipped, last: Op, s: Entries, y: Entries, a: Agent)
    requires IsDir(s, Library) && IsDir(y, Library) && Torn(last, s)
    requires Legacy(y, a) == None && Legacy(y, OtherAgent(a)) == Legacy(s, OtherAgent(a))
    requires last.Append? ==> Folds(sh, s, a) && Instructions(s).Some? && Instructions(y) == Instructions(s)
    requires last.RemoveLegacy? ==> Legacy(s, a) == None && DirOf(a) in AgentsDir(s) && DirOf(a) !in AgentsDir(y)
    ensures Tail(sh, s) != Tail(sh, y)
  {
    hide Exec, AgentOps, SeedOps, UserEdited, Section, Legacy, AgentsDir, Instructions, Tail;
    if last.Append? {
      TailInstructions(sh, s);
      TailInstructions(sh, y);
      SectionIsSomething(a, Legacy(s, a).value);
      assert Added(sh, y, OtherAgent(a)) == Added(sh, s, OtherAgent(a));
    } else {
      TailLeavesDir(sh, s, a);
      TailLeavesDir(sh, y, a);
    }
  }

  /** Interrupted after both stages. */
  lemma CrashInSeeds(sh: Shipped, x0: Entries, x: Entries, z: Entries, k: nat, s: Entries)
    requires IsDir(x0, Library) && Stage(sh, x0, Brian) == Outcome(x, true) && Stage(sh, x, Rain) == Outcome(z, true)
    requires k <= |SeedOps(sh)| && Exec(SeedOps(sh)[..k], z) == Outcome(s, true)
    ensures IsDir(s, Library) && Tail(sh, s) == Tail(sh, x0)
  {
    hide Exec, AgentOps, SeedOps, UserEdited, Legacy, AgentsDir, Instructions;
    assert |SeedOps(sh)| == 3 by { SeedOpsThree(sh); }
    StageEffect(sh, x0, Brian);
    StageEffect(sh, x, Rain);
    SeedsRestart(sh, z, k);
    LegacyFromAgents(z, s, Brian);
    LegacyFromAgents(z, s, Rain);
    StageEffectNone(sh, s, Brian);
    StageEffectNone(sh, s, Rain);
  }

  lemma SeedOpsThree(sh: Shipped)
    ensures |SeedOps(sh)| == 3 && forall k :: 0 <= k < 3 ==> FoldOp(SeedOps(sh)[k])
    ensures forall k :: 0 <= k < 3 ==> !SeedOps(sh)[k].Append? && !SeedOps(sh)[k].RemoveLegacy?
  {
  }

  /** Stopping past the first part means the first part was completed. */
  lemma StopPast(a: seq<Op>, b: seq<Op>, i: nat, m: Entries, s: Entries)
    requires |a| <= i <= |a| + |b| && Exec((a + b)[..i], m) == Outcome(s, true)
    ensures Exec(a, m).ok && Exec(b[..i - |a|], Exec(a, m).tree) == Outcome(s, true)
    ensures i > |a| ==> (a + b)[i - 1] == b[i - 1 - |a|]
  {
    hide Exec;
    assert (a + b)[..i] == a + b[..i - |a|];
    ExecConcat(a, b[..i - |a|], m);
  }

  lemma AgentOpsAreFolds(sh: Shipped, m: Entries, a: Agent)
    ensures forall k :: 0 <= k < |AgentOps(sh, m, a)| ==> FoldOp(AgentOps(sh, m, a)[k])
  {
  }

  lemma StaysReady(ops: seq<Op>, k: nat, x: Entries, s: Entries)
    requires Ready(x) && k <= |ops| && Exec(ops[..k], x) == Outcome(s, true)
    requires forall j :: 0 <= j < |ops| ==> FoldOp(ops[j])
    ensures Ready(s)
  {
    hide Ready, Exec;
    LibraryOpsKeepReady(ops[..k], x);
  }

  lemma ReadyInit(sh: Shipped, s: Entries)
    requires Ready(s)
    ensures Init(sh, s) == Tail(sh, s)
  {
    hide Ready, Init, Tail, Exec;
    InitSplits(sh, s);
    ReadyRerun(s);
  }

  /** The operations after the layout, from the tree the layout left. */
  function TailOps(sh: Shipped, x: Entries): seq<Op> {
    var b := AgentOps(sh, x, Brian);
    b + (AgentOps(sh, Exec(b, x).tree, Rain) + SeedOps(sh))
  }

  ghost predicate TailCrash(sh: Shipped, x: Entries, j: nat, s: Entries)
    requires j <= |TailOps(sh, x)|
  {
    Ready(s) && (Tail(sh, s) == Tail(sh, x) <==> j == 0 || !Torn(TailOps(sh, x)[j - 1], s))
  }

  lemma TailCrashInBrian(sh: Shipped, x: Entries, j: nat, s: Entries)
    requires Ready(x) && IsDir(x, Library) && j <= |AgentOps(sh, x, Brian)|
    requires Exec(TailOps(sh, x)[..j], x) == Outcome(s, true)
    ensures TailCrash(sh, x, j, s)
  {
    hide Ready, Tail, Exec, AgentOps, SeedOps, Torn;
    var b := AgentOps(sh, x, Brian);
    assert TailOps(sh, x)[..j] == b[..j];
    AgentOpsAreFolds(sh, x, Brian);
    StaysReady(b, j, x, s);
    CrashInBrian(sh, x, j, s);
  }

  lemma TailCrashInRain(sh: Shipped, x: Entries, y: Entries, j: nat, s: Entries)
    requires Ready(x) && IsDir(x, Library) && Exec(AgentOps(sh, x, Brian), x) == Outcome(y, true)
    requires j <= |AgentOps(sh, y, Rain)| && Exec(AgentOps(sh, y, Rain)[..j], y) == Outcome(s, true)
    ensures Ready(s) && (Tail(sh, s) == Tail(sh, x) <==> j == 0 || !Torn(AgentOps(sh, y, Rain)[j - 1], s))
  {
    hide Ready, Tail, Exec, AgentOps, SeedOps, Torn;
    var b, r := AgentOps(sh, x, Brian), AgentOps(sh, y, Rain);
    AgentOpsAreFolds(sh, x, Brian);
    AgentOpsAreFolds(sh, y, Rain);
    assert b[..|b|] == b;
    StaysReady(b, |b|, x, y);
    StaysReady(r, j, y, s);
    CrashInRain(sh, x, y, j, s);
  }

  lemma TailCrashInSeeds(sh: Shipped, x: Entries, y: Entries, z: Entries, j: nat, s: Entries)
    requires Ready(x) && IsDir(x, Library) && Exec(AgentOps(sh, x, Brian), x) == Outcome(y, true)
    requires Exec(AgentOps(sh, y, Rain), y) == Outcome(z, true)
    requires j <= |SeedOps(sh)| && Exec(SeedOps(sh)[..j], z) == Outcome(s, true)
    ensures Ready(s) && Tail(sh, s) == Tail(sh, x) && (j > 0 ==> !Torn(SeedOps(sh)[j - 1], s))
  {
    hide Ready, Tail, Exec, AgentOps, SeedOps, Torn;
    var r := AgentOps(sh, y, Rain);
    assert r[..|r|] == r;
    TailCrashInRain(sh, x, y, |r|, z);
    SeedOpsThree(sh);
    StaysReady(SeedOps(sh), j, z, s);
    CrashInSeeds(sh, x, y, z, j, s);
    if j > 0 { NotTorn(SeedOps(sh)[j - 1], s); }
  }

  lemma TailCrashAnywhere(sh: Shipped, x: Entries, j: nat, s: Entries)
    requires Ready(x) && IsDir(x, Library) && j <= |TailOps(sh, x)|
    requires Exec(TailOps(sh, x)[..j], x) == Outcome(s, true)
    ensures TailCrash(sh, x, j, s)
  {
    hide Ready, Tail, Exec, AgentOps, SeedOps, Torn;
    var b := AgentOps(sh, x, Brian);
    if j <= |b| {
      TailCrashInBrian(sh, x, j, s);
    } else {
      var y := Exec(b, x).tree;
      var r, e := AgentOps(sh, y, Rain), SeedOps(sh);
      StopPast(b, r + e, j, x, s);
      if j - |b| <= |r| {
        assert (r + e)[..j - |b|] == r[..j - |b|];
        TailCrashInRain(sh, x, y, j - |b|, s);
      } else {
        StopPast(r, e, j - |b|, y, s);
        TailCrashInSeeds(sh, x, y, Exec(r, y).tree, j - |b| - |r|, s);
      }
    }
  }

  lemma CrashAfterLayout(sh: Shipped, m: Entries, i: nat, s: Entries)
    requires StoppedAfter(sh, m, i, s) && i > |LayoutOps()|
    ensures Init(sh, s) == Init(sh, m) <==> !CrashTorn(sh, m, i, s)
  {
    hide Ready, Init, Tail, Exec, AgentOps, SeedOps, LayoutOps, Torn;
    var l := LayoutOps();
    var x := Exec(l, m).tree;
    assert InitOps(sh, m) == l + (BrianOps(sh, m) + (RainOps(sh, m) + SeedOps(sh)));
    StopPast(l, BrianOps(sh, m) + (RainOps(sh, m) + SeedOps(sh)), i, m, s);
    ExecConcat(l, BrianOps(sh, m), m);
    assert BrianOps(sh, m) + (RainOps(sh, m) + SeedOps(sh)) == TailOps(sh, x);
    LayoutGivesReady(m);
    ReadyMeans(x);
    InitSplits(sh, m);
    TailCrashAnywhere(sh, x, i - |l|, s);
    ReadyInit(sh, s);
  }

  lemma NotTorn(op: Op, s: Entries)
    requires !op.Append? && !op.RemoveLegacy?
    ensures !Torn(op, s)
  {
  }

  /** Crashing inside the one-time move of an old layout is always harmless. */
  lemma MigrationCrashIsHarmless(sh: Shipped, m: Entries, i: nat, s: Entries)
    requires StoppedAfter(sh, m, i, s) && i <= |LayoutOps()|
    ensures Init(sh, s) == Init(sh, m) && !CrashTorn(sh, m, i, s)
  {
    hide Exec, LayoutOps, LayoutOp, Torn, Tail, Init, BrianOps, RainOps, SeedOps;
    assert InitOps(sh, m)[..i] == LayoutOps()[..i];
    LayoutRestarts(i, m);
    InitSplits(sh, m);
    InitSplits(sh, s);
    if i > 0 {
      LayoutOpsAre();
      assert InitOps(sh, m)[i - 1] == LayoutOps()[i - 1];
      LayoutNotTorn(LayoutOps()[i - 1], s);
    }
  }

  lemma LayoutNotTorn(op: Op, s: Entries)
    requires LayoutOp(op)
    ensures !Torn(op, s)
  {
  }

  /**
  Crash convergence, and exactly where it fails. Stop a set-up after any number
  of successful file operations and run it again: it ends as the uninterrupted
  run would have, with the same tree and the same success or failure, if and
  only if the crash fell in neither window of the instruction fold.
  */
  lemma CrashConvergence(sh: Shipped, m: Entries, i: nat, s: Entries)
    requires StoppedAfter(sh, m, i, s)
    ensures Init(sh, s) == Init(sh, m) <==> !CrashTorn(sh, m, i, s)
  {
    hide *;
    if i > |LayoutOps()| { CrashAfterLayout(sh, m, i, s); } else { MigrationCrashIsHarmless(sh, m, i, s); }
  }

  // ------------------------------------------------------- running it again

  /** A refused run stops at an operation the file system refuses, with everything before it done. */
  lemma {:induction false} RefusedAt(ops: seq<Op>, m: Entries) returns (i: nat)
    requires !Exec(ops, m).ok
    ensures i < |ops| && Exec(ops[..i], m) == Outcome(Exec(ops, m).tree, true) && Do(ops[i], Exec(ops, m).tree) == None
    decreases |ops|
  {
    hide Do;
    match Do(ops[0], m) {
      case None =>
        assert ops[..0] == [];
        i := 0;
      case Some(m') =>
        var k := RefusedAt(ops[1..], m');
        assert ops[..k + 1][1..] == ops[1..][..k];
        i := k + 1;
    }
  }

  /** After an append comes the removal, and after the removal the pruning. */
  predicate Follows(ops: seq<Op>, k: nat)
    requires k < |ops|
  {
    && (ops[k].Append? ==> k + 1 < |ops| && ops[k + 1].RemoveLegacy?)
    && (ops[k].RemoveLegacy? ==> k + 1 < |ops| && ops[k + 1].PruneAgent?)
  }

  predicate Paired(ops: seq<Op>) { forall k :: 0 <= k < |ops| ==> Follows(ops, k) }

  lemma PairedConcat(a: seq<Op>, b: seq<Op>)
    requires Paired(a) && Paired(b)
    ensures Paired(a + b)
  {
    forall k | 0 <= k < |a + b| ensures Follows(a + b, k) {
      if k < |a| { assert Follows(a, k); } else { assert Follows(b, k - |a|); }
    }
  }

  lemma AgentOpsPaired(sh: Shipped, m: Entries, a: Agent)
    ensures Paired(AgentOps(sh, m, a))
  {
    hide Legacy, UserEdited;
  }

  lemma InitOpsPaired(sh: Shipped, m: Entries)
    ensures Paired(InitOps(sh, m))
  {
    LayoutOpsAre();
    SeedOpsThree(sh);
    assert Paired(LayoutOps()) && Paired(SeedOps(sh));
    hide LayoutOps, SeedOps, AgentOps, Paired, Exec;
    AgentOpsPaired(sh, Exec(LayoutOps(), m).tree, Brian);
    AgentOpsPaired(sh, Exec(LayoutOps() + BrianOps(sh, m), m).tree, Rain);
    PairedConcat(LayoutOps(), BrianOps(sh, m));
    PairedConcat(LayoutOps() + BrianOps(sh, m), RainOps(sh, m));
    PairedConcat(LayoutOps() + BrianOps(sh, m) + RainOps(sh, m), SeedOps(sh));
  }

  /** A refusal never falls in one of the two windows: what comes after each is never refused. */
  lemma RefusalIsNotTorn(sh: Shipped, m: Entries, i: nat, s: Entries)
    requires i < |InitOps(sh, m)| && Do(InitOps(sh, m)[i], s) == None
    ensures !CrashTorn(sh, m, i, s)
  {
    InitOpsPaired(sh, m);
    RefusedOps(InitOps(sh, m)[i], s);
    if i > 0 { assert Follows(InitOps(sh, m), i - 1); }
    hide InitOps;
  }

  lemma RefusedOps(op: Op, s: Entries)
    requires Do(op, s) == None
    ensures !op.RemoveLegacy? && !op.PruneAgent?
  {
  }

  /** Where a set-up stops, finished or refused, is a stop outside the windows. */
  lemma {:induction false} StopsWhole(sh: Shipped, m: Entries) returns (i: nat)
    ensures StoppedAfter(sh, m, i, Init(sh, m).tree) && !CrashTorn(sh, m, i, Init(sh, m).tree)
  {
    hide Exec, LayoutOps, SeedOps, CrashTorn, Do;
    var ops := InitOps(sh, m);
    if Init(sh, m).ok {
      i := |ops|;
      assert ops[..i] == ops;
      SeedOpsThree(sh);
      assert ops[i - 1] == SeedOps(sh)[2];
      LastNotTorn(sh, m);
    } else {
      i := RefusedAt(ops, m);
      RefusalIsNotTorn(sh, m, i, Init(sh, m).tree);
    }
  }

  lemma LastNotTorn(sh: Shipped, m: Entries)
    ensures InitOps(sh, m) != [] && !CrashTorn(sh, m, |InitOps(sh, m)|, Init(sh, m).tree)
  {
    hide Exec, LayoutOps, SeedOps, Init;
    SeedOpsThree(sh);
    assert InitOps(sh, m)[|InitOps(sh, m)| - 1] == SeedOps(sh)[2];
    NotTorn(SeedOps(sh)[2], Init(sh, m).tree);
  }

  /** A second set-up changes nothing and ends as the first did, whether that finished or was refused. */
  lemma InitIsIdempotent(sh: Shipped, m: Entries)
    ensures Init(sh, Init(sh, m).tree) == Init(sh, m)
  {
    hide *;
    var i := StopsWhole(sh, m);
    CrashConvergence(sh, m, i, Init(sh, m).tree);
  }
}
