/** The reapers of the configuration's commands: where one of an earlier command parts a record's
    status from its command, and what becomes of the record; and where one ends the process. */
module Reaping {
  import opened Bytes
  import opened Commands
  import opened Config

  /** Status 1 means that there is a command to stop. */
  ghost predicate InStep(s: State) {
    forall n, i :: n in s.servers && i in s.servers[n].commands ==>
      (s.servers[n].commands[i].status == 1 <==> s.servers[n].commands[i].unixCmd.Some?)
  }

  /** A reaper that finds another command than its own running. */
  ghost predicate StaleReap(s: State, op: Op) {
    op.Reap? && !Unlinked(s, op) && exists n, i :: n in s.servers && i in s.servers[n].commands && Robbed(s.servers[n].commands[i], op)
  }

  predicate Robbed(c: Command, op: Op)
    requires op.Reap?
  {
    c.self == op.self && c.unixCmd.Some? && c.unixCmd != Some(op.gone)
  }

  /** Apart from a stale reaper, no operation parts status and handle; a stale one does. */
  lemma StepInStep(s: State, op: Op)
    requires InStep(s)
    ensures InStep(Apply(s, op).0) <==> !StaleReap(s, op)
  {
    if op.Reap? {
      ReapInStep(s, op);
    } else {
      OthersInStep(s, op);
    }
  }

  lemma ReapInStep(s: State, op: Op)
    requires InStep(s) && op.Reap?
    ensures InStep(Apply(s, op).0) <==> !StaleReap(s, op)
  {
    hide ApplyToRedirects, ApplyToCommands;
    var s' := Apply(s, op).0;
    if Unlinked(s, op) {
      AllInStep(s');
    } else {
      hide Unlinked;
      if n, i :| n in s.servers && i in s.servers[n].commands && Robbed(s.servers[n].commands[i], op) {
        assert s'.servers[n].commands[i].status == 1 && s'.servers[n].commands[i].unixCmd.None?;
      }
      forall n, i | !StaleReap(s, op) && n in s'.servers && i in s'.servers[n].commands
        ensures s'.servers[n].commands[i].status == 1 <==> s'.servers[n].commands[i].unixCmd.Some?
      {
        assert !Robbed(s.servers[n].commands[i], op);
      }
    }
  }

  lemma OthersInStep(s: State, op: Op)
    requires InStep(s) && !op.Reap?
    ensures InStep(Apply(s, op).0)
  {
    var s' := Apply(s, op).0;
    hide Apply, InStep;
    if OnCommands(op) {
      CommandsInStep(s, op);
    } else {
      forall n, i | n in s'.servers && i in s'.servers[n].commands
        ensures s'.servers[n].commands[i].status == 1 <==> s'.servers[n].commands[i].unixCmd.Some?
      {
        var m := CommandFrom(s, op, n, i);
        RecordInStep(s, m, i);
      }
      assert InStep(s') by { AllInStep(s'); }
    }
  }

  lemma AllInStep(s: State)
    requires forall n, i :: n in s.servers && i in s.servers[n].commands ==>
      (s.servers[n].commands[i].status == 1 <==> s.servers[n].commands[i].unixCmd.Some?)
    ensures InStep(s)
  {
  }

  lemma RecordInStep(s: State, n: string, i: nat)
    requires InStep(s) && n in s.servers && i in s.servers[n].commands
    ensures s.servers[n].commands[i].status == 1 <==> s.servers[n].commands[i].unixCmd.Some?
  {
  }

  /** Operations on redirects and servers make no command records. */
  lemma CommandFrom(s: State, op: Op, n: string, i: nat) returns (m: string)
    requires n in Apply(s, op).0.servers && i in Apply(s, op).0.servers[n].commands
    requires !op.Reap?
    requires !OnCommands(op)
    ensures m in s.servers && i in s.servers[m].commands && s.servers[m].commands[i] == Apply(s, op).0.servers[n].commands[i]
  {
    if OnRedirects(op) {
      RedirectsShape(s, op);
      hide Apply, ApplyToRedirects;
      m := n;
    } else {
      hide ApplyToRedirects, ApplyToCommands;
      m := if op.Rename? && op.to == n && op.from in s.servers && op.to !in s.servers then op.from else n;
    }
  }

  lemma OneInStep(s: State, s': State, name: string, v': Server, id: nat)
    requires InStep(s) && name in s.servers && s'.servers == s.servers[name := v']
    requires forall i :: i in v'.commands && i != id ==> i in s.servers[name].commands && v'.commands[i] == s.servers[name].commands[i]
    requires id in v'.commands ==> (v'.commands[id].status == 1 <==> v'.commands[id].unixCmd.Some?)
    ensures InStep(s')
  {
  }

  lemma CommandsInStep(s: State, op: Op)
    requires InStep(s) && OnCommands(op)
    ensures InStep(Apply(s, op).0)
  {
    CommandsShape(s, op);
    hide Apply, InStep;
    var s' := Apply(s, op).0;
    if s'.servers != s.servers {
      var id, v, v' := TouchedCommand(s, op), s.servers[op.name], s'.servers[op.name];
      if id in v.commands { RecordInStep(s, op.name, id); }
      assert id in v'.commands ==> (v'.commands[id].status == 1 <==> v'.commands[id].unixCmd.Some?);
      hide ApplyToCommands;
      forall i | i in v'.commands && i != id ensures i in v.commands && v'.commands[i] == v.commands[i] {
        assert i in v'.commands - {id};
      }
      OneInStep(s, s', op.name, v', id);
    } else {
      SameInStep(s, s');
    }
  }

  lemma SameInStep(s: State, s': State)
    requires InStep(s) && s'.servers == s.servers
    ensures InStep(s')
  {
  }

  /** In step after every one of the operations. */
  ghost predicate AlwaysInStep(start: State, ops: seq<Op>)
    decreases |ops|
  {
    InStep(After(start, ops)) && (|ops| > 0 ==> AlwaysInStep(start, ops[..|ops| - 1]))
  }

  ghost predicate NeverStale(start: State, ops: seq<Op>)
    decreases |ops|
  {
    |ops| > 0 ==> !StaleReap(After(start, ops[..|ops| - 1]), ops[|ops| - 1]) && NeverStale(start, ops[..|ops| - 1])
  }

  /** In every run, status 1 and a command to stop go together all the time if and only if no reaper
      comes after the command of its record was started anew. */
  lemma {:induction false} InStepExactly(start: State, ops: seq<Op>)
    requires Run(start, ops)
    ensures AlwaysInStep(start, ops) <==> NeverStale(start, ops)
    decreases |ops|
  {
    hide Apply, InStep, StaleReap, Possible, Loaded;
    if |ops| == 0 {
      LoadedInStep(start);
    } else {
      var front := ops[..|ops| - 1];
      InStepExactly(start, front);
      if InStep(After(start, front)) { StepInStep(After(start, front), ops[|ops| - 1]); }
    }
  }

  lemma LoadedInStep(s: State)
    requires Loaded(s)
    ensures InStep(s)
  {
    forall n, i | n in s.servers && i in s.servers[n].commands
      ensures s.servers[n].commands[i].status == 1 <==> s.servers[n].commands[i].unixCmd.Some?
    {
      assert LoadedServer(s, s.servers[n]);
    }
  }

  /** Marked as running, with no command to stop. */
  ghost predicate Wedged(s: State, n: string, i: nat) {
    n in s.servers && i in s.servers[n].commands && s.servers[n].commands[i].status == 1 && s.servers[n].commands[i].unixCmd.None?
  }

  /** Such a record is out of reach: nothing starts, changes or removes it, or the server it is in,
      and a stop leaves it as it is. */
  lemma WedgedRefuses(s: State, n: string, i: nat, uc: Option<UnixCmd>, cd: CommandData)
    requires Wedged(s, n, i)
    ensures Apply(s, StartCommand(n, i, uc)) == (s, ServerRunning)
    ensures Apply(s, ModifyCommand(n, i, cd)) == Apply(s, RemoveCommand(n, i)) == (s, ServerRunning)
    ensures Apply(s, Remove(n)) == (s, ServerRunning)
    ensures Apply(s, CommandPorts(n, i)) == (s, NilCommand)
    ensures Apply(s, StopCommand(n, i)).1 == Done && Wedged(Apply(s, StopCommand(n, i)).0, n, i)
  {
  }

  lemma WedgedStep(s: State, op: Op, n: string, i: nat)
    requires Inv(s) && s.serving && Wedged(s, n, i) && Possible(s, op)
    ensures Wedged(Apply(s, op).0, NameAfter(s, op, n), i)
    ensures Apply(s, op).0.servers[NameAfter(s, op, n)].self == s.servers[n].self
  {
    CommandOf(s, n, i);
    hide Inv, ServerOk, Apply;
    if Leaves(s, op, n, false, i) {
      CommandLeft(s, op, n, i);
    } else if op.Reap? || op.StopCommand? {
      WedgedUnmoved(s, op, n, i);
    } else {
      RunningRefuses(s, op, n, i);
    }
  }

  lemma WedgedUnmoved(s: State, op: Op, n: string, i: nat)
    requires Wedged(s, n, i) && (op.Reap? || op == StopCommand(n, i))
    ensures Wedged(Apply(s, op).0, n, i) && Apply(s, op).0.servers[n].self == s.servers[n].self
  {
  }

  lemma StillServing(s: State, op: Op)
    requires s.serving
    ensures Apply(s, op).0.serving
  {
  }

  /** And so it stays, in every continuation of the run, until the process is started again. */
  lemma {:induction false} WedgedForEver(start: State, ops: seq<Op>, more: seq<Op>, n: string, i: nat) returns (m: string)
    requires Run(start, ops + more) && After(start, ops).serving && Wedged(After(start, ops), n, i)
    ensures Wedged(After(start, ops + more), m, i) && After(start, ops + more).serving
    ensures After(start, ops + more).servers[m].self == After(start, ops).servers[n].self
    decreases |more|
  {
    hide Apply, Possible, Inv;
    m := n;
    assert ops + [] == ops;
    if |more| > 0 {
      var front, last := more[..|more| - 1], more[|more| - 1];
      assert ops + more == (ops + front) + [last];
      LastStep(start, ops + front, last);
      var k := WedgedForEver(start, ops, front, n, i);
      RunKeeps(start, ops + front);
      WedgedStep(After(start, ops + front), last, k, i);
      StillServing(After(start, ops + front), last);
      m := NameAfter(After(start, ops + front), last, k);
    }
  }

  lemma OneMore(start: State, ops: seq<Op>, op: Op) returns (ops': seq<Op>, s': State)
    requires Run(start, ops) && Possible(After(start, ops), op)
    ensures ops' == ops + [op] && Run(start, ops') && s' == After(start, ops') == Apply(After(start, ops), op).0
  {
    ops', s' := ops + [op], After(start, ops + [op]);
    assert ops'[..|ops|] == ops;
  }

  /** A run that comes to it: a command is started, stopped, and started again before the reaper of
      the first process has run. */
  lemma StaleReaperRun(start: State, name: string, cd: CommandData, first: UnixCmd, second: UnixCmd)
    returns (ops: seq<Op>, s: State)
    requires Loaded(start) && start.servers == map[] && first != second
    ensures Run(start, ops) && s == After(start, ops) && s.serving && Wedged(s, name, 1)
    ensures ops == [Serve, Add(name), AddCommand(name, cd), StartCommand(name, 1, Some(first)), StopCommand(name, 1),
                    StartCommand(name, 1, Some(second)), Reap(start.next + 1, first)]
  {
    ops, s := RestartedRun(start, name, cd, first, second);
    hide Run, After, Loaded, Apply;
    StaleReapWedges(s, Reap(start.next + 1, first), name, 1);
    ops, s := OneMore(start, ops, Reap(start.next + 1, first));
  }

  lemma RestartedRun(start: State, name: string, cd: CommandData, first: UnixCmd, second: UnixCmd)
    returns (ops: seq<Op>, s: State)
    requires Loaded(start) && start.servers == map[] && first != second
    ensures ops == [Serve, Add(name), AddCommand(name, cd), StartCommand(name, 1, Some(first)), StopCommand(name, 1),
                    StartCommand(name, 1, Some(second))]
    ensures Run(start, ops) && s == After(start, ops) && s.serving && !s.down && (start.next + 1, first) in s.reapers
    ensures s.servers.Keys == {name} && s.servers[name].commands.Keys == {1}
    ensures var c := s.servers[name].commands[1]; c.status == 1 && c.unixCmd == Some(second) && c.self == start.next + 1
  {
    ops, s := StartedRun(start, name, cd, first);
    hide Run, After, Loaded;
    ops, s := OneMore(start, ops, StopCommand(name, 1));
    ops, s := OneMore(start, ops, StartCommand(name, 1, Some(second)));
  }

  lemma StaleReapWedges(s: State, op: Op, n: string, i: nat)
    requires op.Reap? && n in s.servers && i in s.servers[n].commands && Robbed(s.servers[n].commands[i], op)
    requires s.servers[n].commands[i].status == 1 && !Unlinked(s, op)
    ensures Wedged(Apply(s, op).0, n, i) && Apply(s, op).0.serving == s.serving
  {
    hide ApplyToRedirects, ApplyToCommands;
  }

  lemma StartedRun(start: State, name: string, cd: CommandData, first: UnixCmd) returns (ops: seq<Op>, s: State)
    requires Loaded(start) && start.servers == map[]
    ensures ops == [Serve, Add(name), AddCommand(name, cd), StartCommand(name, 1, Some(first))]
    ensures Run(start, ops) && s == After(start, ops) && s.serving && !s.down && s.reapers == {(start.next + 1, first)}
    ensures s.servers.Keys == {name} && s.servers[name].commands.Keys == {1}
    ensures var c := s.servers[name].commands[1]; c.status == 1 && c.unixCmd == Some(first) && c.self == start.next + 1 && !c.linked
  {
    hide Run, After, Loaded;
    ops, s := AddedRun(start, name);
    ops, s := OneMore(start, ops, AddCommand(name, cd));
    ops, s := OneMore(start, ops, StartCommand(name, 1, Some(first)));
  }

  lemma AddedRun(start: State, name: string) returns (ops: seq<Op>, s: State)
    requires Loaded(start) && start.servers == map[]
    ensures ops == [Serve, Add(name)] && Run(start, ops) && s == After(start, ops) && s.serving && !s.down && s.reapers == {}
    ensures s.servers == map[name := Server(map[], map[], 0, 0, start.next)] && s.next == start.next + 1
  {
    hide Run, After, Loaded;
    ops, s := [], start;
    NothingDone(start);
    ops, s := OneMore(start, ops, Serve);
    ops, s := OneMore(start, ops, Add(name));
  }

  lemma NothingDone(start: State)
    requires Loaded(start)
    ensures Run(start, []) && After(start, []) == start && start.reapers == {} && !start.serving && !start.down
  {
  }

  /** The ports of a command are asked of a nil command exactly where its record is wedged; in a run
      with no late reaper, never. */
  lemma NilExactly(start: State, ops: seq<Op>, n: string, i: nat)
    requires Run(start, ops)
    ensures Apply(After(start, ops), CommandPorts(n, i)).1 == NilCommand <==> Wedged(After(start, ops), n, i)
    ensures NeverStale(start, ops) ==> !Wedged(After(start, ops), n, i)
  {
    hide Run, After, Apply, InStep;
    InStepExactly(start, ops);
    NilHere(After(start, ops), n, i);
    if NeverStale(start, ops) { NotWedged(After(start, ops), n, i); }
  }

  lemma NilHere(s: State, n: string, i: nat)
    ensures Apply(s, CommandPorts(n, i)).1 == NilCommand <==> Wedged(s, n, i)
  {
  }

  lemma NotWedged(s: State, n: string, i: nat)
    requires InStep(s)
    ensures !Wedged(s, n, i)
  {
  }

  // ---------- commands added while the process runs ----------

  /** The records that know their server are those that the file had. */
  ghost predicate LinkedFrom(s: State, first: nat) {
    && first <= s.next
    && forall n, i :: n in s.servers && i in s.servers[n].commands ==>
         (s.servers[n].commands[i].linked <==> s.servers[n].commands[i].self < first)
  }

  lemma StepLinked(s: State, op: Op, first: nat)
    requires LinkedFrom(s, first)
    ensures LinkedFrom(Apply(s, op).0, first)
  {
    var s' := Apply(s, op).0;
    forall n, i | n in s'.servers && i in s'.servers[n].commands
      ensures s'.servers[n].commands[i].linked <==> s'.servers[n].commands[i].self < first
    {
      if !(op.AddCommand? && op.name == n && op.name in s.servers && i == (s.servers[n].lastCID + 1) % IDS) {
        var m := RecordFrom(s, op, n, i);
      }
    }
  }

  /** Every other record was there before, and is still as linked as it was. */
  lemma RecordFrom(s: State, op: Op, n: string, i: nat) returns (m: string)
    requires n in Apply(s, op).0.servers && i in Apply(s, op).0.servers[n].commands
    requires !(op.AddCommand? && op.name == n && op.name in s.servers && i == (s.servers[n].lastCID + 1) % IDS)
    ensures m in s.servers && i in s.servers[m].commands
    ensures var c, c' := s.servers[m].commands[i], Apply(s, op).0.servers[n].commands[i]; c'.self == c.self && c'.linked == c.linked
  {
    if OnCommands(op) {
      m := n;
      CommandsFrom(s, op, n, i);
    } else if op.Reap? {
      m := n;
      ReapedFrom(s, op, n, i);
    } else {
      m := CommandFrom(s, op, n, i);
    }
  }

  lemma CommandsFrom(s: State, op: Op, n: string, i: nat)
    requires OnCommands(op) && n in Apply(s, op).0.servers && i in Apply(s, op).0.servers[n].commands
    requires !(op.AddCommand? && op.name == n && op.name in s.servers && i == (s.servers[n].lastCID + 1) % IDS)
    ensures n in s.servers && i in s.servers[n].commands
    ensures var c, c' := s.servers[n].commands[i], Apply(s, op).0.servers[n].commands[i]; c'.self == c.self && c'.linked == c.linked
  {
    CommandsShape(s, op);
    hide Apply, ApplyToCommands;
    var s' := Apply(s, op).0;
    if s'.servers != s.servers && n == op.name && i != TouchedCommand(s, op) {
      assert i in s'.servers[n].commands - {TouchedCommand(s, op)};
    }
  }

  lemma ReapedFrom(s: State, op: Op, n: string, i: nat)
    requires op.Reap? && n in Apply(s, op).0.servers && i in Apply(s, op).0.servers[n].commands
    ensures n in s.servers && i in s.servers[n].commands
    ensures var c, c' := s.servers[n].commands[i], Apply(s, op).0.servers[n].commands[i]; c'.self == c.self && c'.linked == c.linked
  {
    hide Unlinked, ApplyToRedirects, ApplyToCommands;
  }

  lemma {:induction false} RunLinked(start: State, ops: seq<Op>)
    requires Run(start, ops)
    ensures LinkedFrom(After(start, ops), start.next)
    decreases |ops|
  {
    hide Apply, Possible, LinkedFrom;
    if |ops| == 0 {
      LoadedLinked(start);
    } else {
      RunLinked(start, ops[..|ops| - 1]);
      StepLinked(After(start, ops[..|ops| - 1]), ops[|ops| - 1], start.next);
    }
  }

  lemma LoadedLinked(s: State)
    requires Loaded(s)
    ensures LinkedFrom(s, s.next)
  {
    forall n, i | n in s.servers && i in s.servers[n].commands ensures s.servers[n].commands[i].linked && s.servers[n].commands[i].self < s.next {
      assert LoadedServer(s, s.servers[n]);
    }
  }

  /** The command of a record made since start-up, still running as far as the record knows, is gone. */
  ghost predicate AddedEnds(start: State, s: State, op: Op) {
    op.Reap? && exists n, i :: n in s.servers && i in s.servers[n].commands && AddedGone(start, s.servers[n].commands[i], op)
  }

  predicate AddedGone(start: State, c: Command, op: Op)
    requires op.Reap?
  {
    c.self == op.self && c.unixCmd == Some(op.gone) && c.self >= start.next
  }

  /** In every run the process ends with an operation if and only if that is the reaper of a command
      added since start-up that ended by itself, without having been stopped. */
  lemma DownExactly(start: State, ops: seq<Op>, op: Op)
    requires Run(start, ops + [op])
    ensures After(start, ops + [op]).down <==> AddedEnds(start, After(start, ops), op)
  {
    var s := After(start, ops);
    LastStep(start, ops, op);
    RunLinked(start, ops);
    hide Run, After;
    assert !s.down;
    DownHere(start, s, op);
  }

  lemma DownHere(start: State, s: State, op: Op)
    requires LinkedFrom(s, start.next) && !s.down
    ensures Apply(s, op).0.down <==> AddedEnds(start, s, op)
  {
    UnlinkedAdded(start, s, op);
    hide Unlinked, AddedEnds;
  }

  lemma UnlinkedAdded(start: State, s: State, op: Op)
    requires LinkedFrom(s, start.next)
    ensures Unlinked(s, op) <==> AddedEnds(start, s, op)
  {
    if op.Reap? {
      if n, i :| n in s.servers && i in s.servers[n].commands && AddedGone(start, s.servers[n].commands[i], op) {
        assert OwnUnlinked(s.servers[n].commands[i], op);
      }
      if Unlinked(s, op) {
        var n :| n in s.servers && exists i | i in s.servers[n].commands :: OwnUnlinked(s.servers[n].commands[i], op);
        var i :| i in s.servers[n].commands && OwnUnlinked(s.servers[n].commands[i], op);
        assert AddedGone(start, s.servers[n].commands[i], op);
      }
    }
  }

  /** A run that comes to it: a command is added and started, and its process ends. */
  lemma AddedEndsRun(start: State, name: string, cd: CommandData, uc: UnixCmd) returns (ops: seq<Op>, s: State)
    requires Loaded(start) && start.servers == map[]
    ensures Run(start, ops) && s == After(start, ops) && s.down
    ensures ops == [Serve, Add(name), AddCommand(name, cd), StartCommand(name, 1, Some(uc)), Reap(start.next + 1, uc)]
  {
    ops, s := StartedRun(start, name, cd, uc);
    hide Run, After, Loaded;
    assert OwnUnlinked(s.servers[name].commands[1], Reap(start.next + 1, uc));
    ops, s := OneMore(start, ops, Reap(start.next + 1, uc));
  }
}
