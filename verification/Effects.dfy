/** What each operation of the management interface leaves behind, and when it is refused: in terms of
    the maps of servers and records that rpc.go and servers.go work on. */
module Effects {
  import opened Bytes
  import opened Commands
  import opened Config
  import opened Dispatch
  import opened Registry

  /** Every server but `n` is there as it was, or not there as before. */
  ghost predicate OthersAlone(s: State, s': State, n: string) {
    forall m :: m != n ==> (m in s'.servers <==> m in s.servers) && (m in s.servers ==> s'.servers[m] == s.servers[m])
  }

  /** Of server `n`, only redirect `id` may have changed, come or gone. */
  ghost predicate OnlyRedirect(s: State, s': State, n: string, id: nat) {
    && OthersAlone(s, s', n) && n in s.servers && n in s'.servers
    && var v, v' := s.servers[n], s'.servers[n];
    && v'.commands == v.commands && v'.self == v.self && v'.lastCID == v.lastCID
    && forall i :: i != id ==> (i in v'.redirects <==> i in v.redirects) && (i in v.redirects ==> v'.redirects[i] == v.redirects[i])
  }

  ghost predicate OnlyCommand(s: State, s': State, n: string, id: nat) {
    && OthersAlone(s, s', n) && n in s.servers && n in s'.servers
    && var v, v' := s.servers[n], s'.servers[n];
    && v'.redirects == v.redirects && v'.self == v.self && v'.lastRID == v.lastRID && s'.live == s.live
    && forall i :: i != id ==> (i in v'.commands <==> i in v.commands) && (i in v.commands ==> v'.commands[i] == v.commands[i])
  }

  predicate HasRedirect(s: State, n: string, id: nat) {
    n in s.servers && id in s.servers[n].redirects
  }

  predicate HasCommand(s: State, n: string, id: nat) {
    n in s.servers && id in s.servers[n].commands
  }

  // ---------- servers ----------

  /** Only a name that is not taken is added, and then with nothing in it. */
  lemma AddLeaves(s: State, n: string)
    ensures var (s', o) := Apply(s, Add(n));
      && o == (if n in s.servers then NameExists else Done)
      && (o == Done ==>
            && OthersAlone(s, s', n) && n in s'.servers
            && s'.servers[n].redirects == map[] && s'.servers[n].commands == map[]
            && s'.servers[n].lastRID == s'.servers[n].lastCID == 0)
      && (o != Done ==> s' == s)
  {
    hide ApplyToRedirects, ApplyToCommands;
  }

  /** A server moves, with all it has, to a name that is not taken. */
  lemma RenameLeaves(s: State, from: string, to: string)
    ensures var (s', o) := Apply(s, Rename(from, to));
      && o == (if to in s.servers then NameExists else if from !in s.servers then NoServer else Done)
      && (o == Done ==>
            && s'.servers.Keys == s.servers.Keys - {from} + {to} && s'.servers[to] == s.servers[from]
            && forall m :: m != from && m in s.servers ==> s'.servers[m] == s.servers[m])
      && (o != Done ==> s' == s)
  {
    hide ApplyToRedirects, ApplyToCommands;
  }

  /** A server goes if no redirect of it is started and every command has status 0, and its name can be
      taken again. */
  lemma RemoveLeaves(s: State, n: string)
    ensures var (s', o) := Apply(s, Remove(n));
      && (o == Done <==> (
            && n in s.servers
            && (forall i :: i in s.servers[n].redirects ==> !s.servers[n].redirects[i].start)
            && (forall i :: i in s.servers[n].commands ==> s.servers[n].commands[i].status == 0)))
      && (o == Done ==> n !in s'.servers && OthersAlone(s, s', n) && Apply(s', Add(n)).1 == Done)
      && (o != Done ==> s' == s && o == (if n in s.servers then ServerRunning else NoServer))
  {
    hide ApplyToRedirects, ApplyToCommands;
  }

  // ---------- redirects ----------

  lemma AddRedirectLeaves(s: State, n: string, rd: RedirectData)
    ensures var (s', o) := Apply(s, AddRedirect(n, rd));
      && o == (if n in s.servers then Done else NoServer)
      && (o == Done ==>
            var id := (s.servers[n].lastRID + 1) % IDS;
            && OnlyRedirect(s, s', n, id) && s'.live == s.live && id in s'.servers[n].redirects && s'.servers[n].lastRID == id
            && var r := s'.servers[n].redirects[id];
            && r.data == rd && !r.start && r.port == None && r.made == rd.hosts && r.matcher == MakeMatchService(rd.hosts))
      && (o != Done ==> s' == s)
  {
    hide ApplyToServers, ApplyToCommands;
  }

  /** The answer of what getRedirect guards. */
  function RedirectGuard(s: State, n: string, id: nat): Outcome {
    if n !in s.servers then NoServer
    else if id !in s.servers[n].redirects then UnknownRedirect
    else if s.servers[n].redirects[id].start then ServerRunning
    else Done
  }

  /** The data are the new ones, and nothing else is. */
  lemma ModifyRedirectLeaves(s: State, n: string, id: nat, rd: RedirectData)
    ensures var (s', o) := Apply(s, ModifyRedirect(n, id, rd));
      && o == RedirectGuard(s, n, id)
      && (o == Done ==>
            && OnlyRedirect(s, s', n, id) && s'.live == s.live && id in s'.servers[n].redirects
            && var r, r' := s.servers[n].redirects[id], s'.servers[n].redirects[id];
            && r'.data == rd && r'.matcher == r.matcher && r'.start == r.start && r'.port == r.port)
      && (o != Done ==> s' == s)
  {
    hide ApplyToServers, ApplyToCommands;
  }

  lemma RemoveRedirectLeaves(s: State, n: string, id: nat)
    ensures var (s', o) := Apply(s, RemoveRedirect(n, id));
      && o == RedirectGuard(s, n, id)
      && (o == Done ==> OnlyRedirect(s, s', n, id) && s'.live == s.live && id !in s'.servers[n].redirects)
      && (o != Done ==> s' == s)
  {
    hide ApplyToServers, ApplyToCommands;
  }

  /** A redirect that takes up a Port holds it and is started; else it stays as it was. */
  lemma RunRedirectLeaves(s: State, n: string, id: nat, got: Option<Port>)
    requires HasRedirect(s, n, id)
    ensures var s', r := RunRedirect(s, n, id, got), s.servers[n].redirects[id];
      if r.data.from > 0 && r.data.to != "" && r.port == None && got.Some? then
        && OnlyRedirect(s, s', n, id) && id in s'.servers[n].redirects
        && var r' := s'.servers[n].redirects[id];
        && r'.port == got && r'.start && r'.data == r.data && r'.matcher == r.matcher
        && s'.live.Keys == s.live.Keys + {got.value}
      else s' == s
  {
  }

  lemma StartRedirectLeaves(s: State, n: string, id: nat, got: Option<Port>)
    ensures var (s', o) := Apply(s, StartRedirect(n, id, got));
      o == RedirectGuard(s, n, id) && s' == if o == Done then RunRedirect(s, n, id, got) else s
  {
    hide ApplyToServers, ApplyToCommands;
  }

  /** At start-up, what was started before is started again. */
  lemma InitRedirectLeaves(s: State, n: string, id: nat, got: Option<Port>)
    ensures Apply(s, InitRedirect(n, id, got)).0 ==
      if HasRedirect(s, n, id) && s.servers[n].redirects[id].start then RunRedirect(s, n, id, got) else s
  {
    hide ApplyToServers, ApplyToCommands;
  }

  /** A stopped redirect is not started and holds nothing, and what it held is not open. */
  lemma StopRedirectLeaves(s: State, n: string, id: nat)
    ensures var (s', o) := Apply(s, StopRedirect(n, id));
      && (o == Done <==> HasRedirect(s, n, id) && s.servers[n].redirects[id].start)
      && (o == Done ==>
            && OnlyRedirect(s, s', n, id) && id in s'.servers[n].redirects
            && var r, r' := s.servers[n].redirects[id], s'.servers[n].redirects[id];
            && !r'.start && r'.port == None && r'.data == r.data && r'.matcher == r.matcher
            && s'.live.Keys == s.live.Keys - if r.port.Some? then {r.port.value} else {})
      && (o != Done ==> s' == s)
  {
    hide ApplyToServers, ApplyToCommands;
  }

  // ---------- commands ----------

  lemma AddCommandLeaves(s: State, n: string, cd: CommandData)
    ensures var (s', o) := Apply(s, AddCommand(n, cd));
      && o == (if n in s.servers then Done else NoServer)
      && (o == Done ==>
            var id := (s.servers[n].lastCID + 1) % IDS;
            && OnlyCommand(s, s', n, id) && id in s'.servers[n].commands && s'.servers[n].lastCID == id
            && var c := s'.servers[n].commands[id];
            && c.data == cd && !c.start && c.status == 0 && c.unixCmd == None && c.matcher == MakeMatchService(cd.hosts))
      && (o != Done ==> s' == s)
  {
    hide ApplyToServers, ApplyToRedirects;
  }

  /** The answer of what getCommand guards. */
  function CommandGuard(s: State, n: string, id: nat): Outcome {
    if n !in s.servers then NoServer
    else if id !in s.servers[n].commands then UnknownCommand
    else if s.servers[n].commands[id].status == 1 then ServerRunning
    else Done
  }

  lemma ModifyCommandLeaves(s: State, n: string, id: nat, cd: CommandData)
    ensures var (s', o) := Apply(s, ModifyCommand(n, id, cd));
      && o == CommandGuard(s, n, id)
      && (o == Done ==>
            && OnlyCommand(s, s', n, id) && id in s'.servers[n].commands
            && var c, c' := s.servers[n].commands[id], s'.servers[n].commands[id];
            && c'.data == cd && c'.matcher == c.matcher && c'.start == c.start && c'.status == c.status && c'.unixCmd == c.unixCmd)
      && (o != Done ==> s' == s)
  {
    hide ApplyToServers, ApplyToRedirects;
  }

  lemma RemoveCommandLeaves(s: State, n: string, id: nat)
    ensures var (s', o) := Apply(s, RemoveCommand(n, id));
      && o == CommandGuard(s, n, id)
      && (o == Done ==> OnlyCommand(s, s', n, id) && id !in s'.servers[n].commands)
      && (o != Done ==> s' == s)
  {
    hide ApplyToServers, ApplyToRedirects;
  }

  /** A command that starts has status 1 and a handle; one that does not has status 2, and is marked
      as started no more than before. */
  lemma RunCommandLeaves(s: State, n: string, id: nat, uc: Option<UnixCmd>)
    requires HasCommand(s, n, id)
    ensures var s', c := RunCommand(s, n, id, uc), s.servers[n].commands[id];
      if c.unixCmd.Some? then s' == s
      else
        && OnlyCommand(s, s', n, id) && id in s'.servers[n].commands
        && var c' := s'.servers[n].commands[id];
        && c'.data == c.data && c'.matcher == c.matcher && c'.unixCmd == uc
        && c'.status == (if uc.Some? then 1 else 2) && c'.start == (c.start || uc.Some?)
        && s'.reapers == s.reapers + if uc.Some? then {(c.self, uc.value)} else {}
  {
  }

  /** A server with a command that could not be started is not removed. */
  lemma StartCommandLeaves(s: State, n: string, id: nat, uc: Option<UnixCmd>)
    ensures var (s', o) := Apply(s, StartCommand(n, id, uc));
      && s' == (if CommandGuard(s, n, id) == Done then RunCommand(s, n, id, uc) else s)
      && o == (if CommandGuard(s, n, id) != Done then CommandGuard(s, n, id)
               else if uc.Some? || s.servers[n].commands[id].unixCmd.Some? then Done else StartFailed)
      && (o == StartFailed ==> Apply(s', Remove(n)).1 == ServerRunning)
  {
    StartCommandIs(s, n, id, uc);
    if CommandGuard(s, n, id) == Done {
      RunCommandLeaves(s, n, id, uc);
      RemoveLeaves(RunCommand(s, n, id, uc), n);
    }
    hide Apply, RunCommand;
  }

  lemma StartCommandIs(s: State, n: string, id: nat, uc: Option<UnixCmd>)
    ensures Apply(s, StartCommand(n, id, uc)) ==
      if CommandGuard(s, n, id) != Done then (s, CommandGuard(s, n, id))
      else (RunCommand(s, n, id, uc), if uc.Some? || s.servers[n].commands[id].unixCmd.Some? then Done else StartFailed)
  {
    hide ApplyToServers, ApplyToRedirects;
  }

  lemma InitCommandLeaves(s: State, n: string, id: nat, uc: Option<UnixCmd>)
    ensures Apply(s, InitCommand(n, id, uc)).0 ==
      if HasCommand(s, n, id) && s.servers[n].commands[id].start then RunCommand(s, n, id, uc) else s
  {
    hide ApplyToServers, ApplyToRedirects;
  }

  /** A stopped command is marked as not started; with a handle it loses that and has status 0. */
  lemma StopCommandLeaves(s: State, n: string, id: nat)
    ensures var (s', o) := Apply(s, StopCommand(n, id));
      && (o == Done <==> HasCommand(s, n, id) && s.servers[n].commands[id].status == 1)
      && (o == Done ==>
            && OnlyCommand(s, s', n, id) && id in s'.servers[n].commands
            && var c, c' := s.servers[n].commands[id], s'.servers[n].commands[id];
            && !c'.start && c'.unixCmd == None && c'.data == c.data && c'.matcher == c.matcher
            && c'.status == (if c.unixCmd.Some? then 0 else 1))
      && (o != Done ==> s' == s)
  {
    hide ApplyToServers, ApplyToRedirects;
  }

  /** The ports are told of a command of status 1, and nothing changes. */
  lemma CommandPortsLeaves(s: State, n: string, id: nat)
    ensures var (s', o) := Apply(s, CommandPorts(n, id));
      && s' == s
      && (o in {Done, NilCommand} <==> HasCommand(s, n, id) && s.servers[n].commands[id].status == 1)
      && (o == Done ==> s.servers[n].commands[id].unixCmd.Some?)
  {
    hide ApplyToServers, ApplyToRedirects;
  }

  // ---------- the reapers ----------

  /** The reaper of a record's own command takes its handle and leaves status 2, so that its server is
      not removed; of another's it takes the handle alone. All other records stay, and so does
      everything if the process ends. */
  lemma ReapLeaves(s: State, self: nat, gone: UnixCmd)
    requires !Unlinked(s, Reap(self, gone))
    ensures var s' := Apply(s, Reap(self, gone)).0;
      && s'.servers.Keys == s.servers.Keys && s'.live == s.live && s'.reapers == s.reapers - {(self, gone)} && s'.down == s.down
      && forall n :: n in s.servers ==>
           && s'.servers[n].redirects == s.servers[n].redirects && s'.servers[n].commands.Keys == s.servers[n].commands.Keys
           && forall i :: i in s.servers[n].commands ==>
                var c, c' := s.servers[n].commands[i], s'.servers[n].commands[i];
                && c'.data == c.data && c'.matcher == c.matcher && c'.start == c.start && c'.self == c.self
                && c'.unixCmd == (if c.self == self then None else c.unixCmd)
                && c'.status == (if c.self == self && c.unixCmd == Some(gone) then 2 else c.status)
  {
    hide ApplyToRedirects, ApplyToCommands, Unlinked;
  }

  lemma ReapedServerStays(s: State, self: nat, gone: UnixCmd, n: string, i: nat)
    requires HasCommand(s, n, i) && s.servers[n].commands[i].self == self && s.servers[n].commands[i].unixCmd == Some(gone)
    requires !Unlinked(s, Reap(self, gone))
    ensures Apply(Apply(s, Reap(self, gone)).0, Remove(n)) == (Apply(s, Reap(self, gone)).0, ServerRunning)
  {
    ReapLeaves(s, self, gone);
    RemoveLeaves(Apply(s, Reap(self, gone)).0, n);
    hide Apply, Unlinked;
  }

  lemma UnlinkedLeaves(s: State, self: nat, gone: UnixCmd)
    requires Unlinked(s, Reap(self, gone))
    ensures Apply(s, Reap(self, gone)).0 == s.(down := true)
  {
    hide ApplyToRedirects, ApplyToCommands, Unlinked;
  }

  lemma ServeLeaves(s: State)
    ensures Apply(s, Serve) == (s.(serving := true), Done)
  {
    hide ApplyToRedirects, ApplyToCommands;
  }
}
