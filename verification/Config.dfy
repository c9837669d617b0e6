/** The configuration that the management interface works on: servers.go and rpc.go of
    cmd/reverseproxy. Every operation runs under config.mu and so as one step. */
module Config {
  import opened Bytes
  import opened Dispatch
  import opened Registry
  import opened Commands

  const IDS: nat := 0x1_0000_0000_0000_0000 // ids are 64-bit

  datatype RedirectData = RedirectData(from: uint16, to: string, hosts: seq<Match>)

  datatype CommandData = CommandData(exe: string, hosts: seq<Match>)

  /** `made` is the history of `matcher`: the match list it was made from. */
  datatype Redirect = Redirect(data: RedirectData, matcher: Matcher, made: seq<Match>, start: bool, port: Option<Port>)

  /** `self` is the identity of this record; `linked` is whether it knows its server, as command.Init
      tells it and addCommand does not. */
  datatype Command = Command(data: CommandData, matcher: Matcher, made: seq<Match>, start: bool, status: nat,
    unixCmd: Option<UnixCmd>, linked: bool, self: nat)

  datatype Server = Server(redirects: map<nat, Redirect>, commands: map<nat, Command>, lastRID: nat, lastCID: nat, self: nat)

  /** For which redirect of which server a Port was opened. */
  datatype Held = Held(server: nat, id: nat)

  /** An id that a server record has given out. */
  datatype Id = RedirectId(server: nat, id: nat) | CommandId(server: nat, id: nat)

  /** `next` numbers the records. The history: the open Ports of redirects, the ids given out, and the
      goroutines of command.Run that wait for their process. `serving` once start-up is over, `down`
      once the process has ended. */
  datatype State = State(servers: map<string, Server>, live: map<Port, Held>, issued: set<Id>, next: nat,
    serving: bool, down: bool, reapers: set<(nat, UnixCmd)>)

  datatype Outcome =
    | Done
    | NameExists | NoServer | UnknownRedirect | UnknownCommand | ServerRunning | ServerNotRunning
    | StartFailed | SaveFailed | NilCommand

  /** `got` is what AddRedirect or RegisterCmd returned, or None for an error, also that of an
      address that does not resolve. */
  datatype Op =
    | Add(name: string)
    | Rename(from: string, to: string)
    | Remove(name: string)
    | AddRedirect(name: string, rd: RedirectData)
    | AddCommand(name: string, cd: CommandData)
    | ModifyRedirect(name: string, id: nat, rd: RedirectData)
    | ModifyCommand(name: string, id: nat, cd: CommandData)
    | RemoveRedirect(name: string, id: nat)
    | RemoveCommand(name: string, id: nat)
    | StartRedirect(name: string, id: nat, got: Option<Port>)
    | StartCommand(name: string, id: nat, uc: Option<UnixCmd>)
    | StopRedirect(name: string, id: nat)
    | StopCommand(name: string, id: nat)
    | CommandPorts(name: string, id: nat)
    | InitRedirect(name: string, id: nat, got: Option<Port>)   // at start-up, for what the file has
    | InitCommand(name: string, id: nat, uc: Option<UnixCmd>)
    | Serve                                                    // start-up is over
    | Reap(self: nat, gone: UnixCmd)                           // the goroutine of command.Run, after Wait

  function PutServer(s: State, name: string, v: Server): State {
    s.(servers := s.servers[name := v])
  }

  function PutRedirect(s: State, name: string, id: nat, r: Redirect): State
    requires name in s.servers
  {
    PutServer(s, name, s.servers[name].(redirects := s.servers[name].redirects[id := r]))
  }

  function PutCommand(s: State, name: string, id: nat, c: Command): State
    requires name in s.servers
  {
    PutServer(s, name, s.servers[name].(commands := s.servers[name].commands[id := c]))
  }

  /** What redirect.Run asks before it adds a Port. */
  predicate Runnable(r: Redirect) {
    r.data.from > 0 && r.data.to != "" && r.port.None?
  }

  /** redirect.Run */
  function RunRedirect(s: State, name: string, id: nat, got: Option<Port>): State
    requires name in s.servers && id in s.servers[name].redirects
  {
    var v := s.servers[name];
    var r := v.redirects[id];
    if Runnable(r) && got.Some?
    then PutRedirect(s, name, id, r.(port := got, start := true)).(live := s.live[got.value := Held(v.self, id)])
    else s
  }

  /** command.Run */
  function RunCommand(s: State, name: string, id: nat, uc: Option<UnixCmd>): State
    requires name in s.servers && id in s.servers[name].commands
  {
    var c := s.servers[name].commands[id];
    if c.unixCmd.Some? then s
    else if uc.None? then PutCommand(s, name, id, c.(status := 2))
    else PutCommand(s, name, id, c.(status := 1, unixCmd := uc, start := true)).(reapers := s.reapers + {(c.self, uc.value)})
  }

  /** redirect.Stop */
  function Stopped(s: State, name: string, id: nat): State
    requires name in s.servers && id in s.servers[name].redirects
  {
    var r := s.servers[name].redirects[id];
    PutRedirect(s, name, id, r.(start := false, port := None))
      .(live := if r.port.Some? then s.live - {r.port.value} else s.live)
  }

  /** command.Stop */
  function StoppedCommand(s: State, name: string, id: nat): State
    requires name in s.servers && id in s.servers[name].commands
  {
    var c := s.servers[name].commands[id];
    PutCommand(s, name, id, if c.unixCmd.None? then c.(start := false) else c.(start := false, status := 0, unixCmd := None))
  }

  function Reaped(c: Command, self: nat, uc: UnixCmd): Command {
    if c.self != self then c
    else c.(status := if c.unixCmd == Some(uc) then 2 else c.status, unixCmd := None)
  }

  function ReapedServers(servers: map<string, Server>, self: nat, gone: UnixCmd): map<string, Server> {
    map n | n in servers ::
      servers[n].(commands := map i | i in servers[n].commands :: Reaped(servers[n].commands[i], self, gone))
  }

  /** One operation: what it leaves and what it answers. */
  function Apply(s: State, op: Op): (State, Outcome) {
    if OnRedirects(op) then ApplyToRedirects(s, op)
    else if OnCommands(op) then ApplyToCommands(s, op)
    else ApplyToServers(s, op)
  }

  function ApplyToServers(s: State, op: Op): (State, Outcome)
    requires !OnRedirects(op) && !OnCommands(op)
  {
    if op.Add? then
      if op.name in s.servers then (s, NameExists)
      else (PutServer(s, op.name, Server(map[], map[], 0, 0, s.next)).(next := s.next + 1), Done)
    else if op.Rename? then
      if op.to in s.servers then (s, NameExists)
      else if op.from !in s.servers then (s, NoServer)
      else (s.(servers := (s.servers - {op.from})[op.to := s.servers[op.from]]), Done)
    else if op.Remove? then
      if op.name !in s.servers then (s, NoServer)
      else if !Idle(s.servers[op.name]) then (s, ServerRunning)
      else (s.(servers := s.servers - {op.name}), Done)
    else if op.Serve? then (s.(serving := true), Done)
    else if Unlinked(s, op) then (s.(down := true), Done)
    else (s.(servers := ReapedServers(s.servers, op.self, op.gone), reapers := s.reapers - {(op.self, op.gone)}), Done)
  }

  /** A reaper that finds its own command running, of a record that does not know its server, asks
      it for its server's name. */
  predicate Unlinked(s: State, op: Op) {
    op.Reap? && exists n | n in s.servers :: exists i | i in s.servers[n].commands :: OwnUnlinked(s.servers[n].commands[i], op)
  }

  predicate OwnUnlinked(c: Command, op: Op)
    requires op.Reap?
  {
    c.self == op.self && c.unixCmd == Some(op.gone) && !c.linked
  }

  /** The operations on one server's redirects. Those that getRedirect guards are refused while the
      record is started. */
  predicate OnRedirects(op: Op) {
    op.AddRedirect? || op.ModifyRedirect? || op.RemoveRedirect? || op.StartRedirect? || op.StopRedirect? || op.InitRedirect?
  }

  function ApplyToRedirects(s: State, op: Op): (State, Outcome)
    requires OnRedirects(op)
  {
    if op.name !in s.servers then (s, NoServer)
    else
      var v := s.servers[op.name];
      if op.AddRedirect? then
        var id := (v.lastRID + 1) % IDS;
        var r := Redirect(op.rd, MakeMatchService(op.rd.hosts), op.rd.hosts, false, None);
        (PutServer(s, op.name, v.(lastRID := id, redirects := v.redirects[id := r])).(issued := s.issued + {RedirectId(v.self, id)}), Done)
      else if op.id !in v.redirects then (s, UnknownRedirect)
      else
        var r := v.redirects[op.id];
        if op.StopRedirect? then (if r.start then (Stopped(s, op.name, op.id), Done) else (s, ServerNotRunning))
        else if op.InitRedirect? then (if r.start then RunRedirect(s, op.name, op.id, op.got) else s, Done)
        else if r.start then (s, ServerRunning)
        else if op.ModifyRedirect? then (PutRedirect(s, op.name, op.id, r.(data := op.rd)), Done)
        else if op.RemoveRedirect? then (PutServer(s, op.name, v.(redirects := v.redirects - {op.id})), Done)
        else (RunRedirect(s, op.name, op.id, op.got), Done)
  }

  /** The operations on one server's commands. Those that getCommand guards are refused while the
      status is 1. */
  predicate OnCommands(op: Op) {
    || op.AddCommand? || op.ModifyCommand? || op.RemoveCommand? || op.StartCommand? || op.StopCommand? || op.CommandPorts?
    || op.InitCommand?
  }

  function ApplyToCommands(s: State, op: Op): (State, Outcome)
    requires OnCommands(op)
  {
    if op.name !in s.servers then (s, NoServer)
    else
      var v := s.servers[op.name];
      if op.AddCommand? then
        var id := (v.lastCID + 1) % IDS;
        var c := Command(op.cd, MakeMatchService(op.cd.hosts), op.cd.hosts, false, 0, None, false, s.next);
        (PutServer(s, op.name, v.(lastCID := id, commands := v.commands[id := c]))
         .(next := s.next + 1, issued := s.issued + {CommandId(v.self, id)}), Done)
      else if op.id !in v.commands then (s, UnknownCommand)
      else
        var c := v.commands[op.id];
        if op.StopCommand? then (if c.status == 1 then (StoppedCommand(s, op.name, op.id), Done) else (s, ServerNotRunning))
        else if op.CommandPorts? then // Status is called on the command
          (s, if c.status != 1 then ServerNotRunning else if c.unixCmd.None? then NilCommand else Done)
        else if op.InitCommand? then (if c.start then RunCommand(s, op.name, op.id, op.uc) else s, Done)
        else if c.status == 1 then (s, ServerRunning)
        else if op.ModifyCommand? then (PutCommand(s, op.name, op.id, c.(data := op.cd)), Done)
        else if op.RemoveCommand? then (PutServer(s, op.name, v.(commands := v.commands - {op.id})), Done)
        else (RunCommand(s, op.name, op.id, op.uc), if op.uc.Some? || c.unixCmd.Some? then Done else StartFailed)
  }

  /** Every handler that changed something saves the configuration, and reports it if that fails. */
  function Saved(r: (State, Outcome), saveOk: bool): (State, Outcome) {
    if r.1.Done? && !saveOk then (r.0, SaveFailed) else r
  }

  /** What remove asks of a server. */
  predicate Idle(v: Server) {
    (forall i :: i in v.redirects ==> !v.redirects[i].start) && (forall i :: i in v.commands ==> v.commands[i].status == 0)
  }

  // ---------- the invariant ----------

  /** A Port held is open, was opened for this record, and matches as the record does. */
  ghost predicate RedirectOk(s: State, v: Server, id: nat, r: Redirect) {
    && r.matcher == MakeMatchService(r.made)
    && (r.port.Some? ==>
          var p := r.port.value;
          && r.start && p in s.live && s.live[p] == Held(v.self, id)
          && p.port == r.data.from && p.service.matcher == r.matcher)
  }

  ghost predicate CommandOk(s: State, c: Command) {
    && c.matcher == MakeMatchService(c.made) && c.self < s.next
    && (c.unixCmd.Some? ==> c.status == 1 && (c.self, c.unixCmd.value) in s.reapers)
  }

  ghost predicate ServerOk(s: State, v: Server) {
    && v.self < s.next && v.lastRID < IDS && v.lastCID < IDS
    && (forall i :: i in v.redirects ==> RedirectOk(s, v, i, v.redirects[i]) && i <= v.lastRID && RedirectId(v.self, i) in s.issued)
    && (forall i :: i in v.commands ==> CommandOk(s, v.commands[i]) && i <= v.lastCID && CommandId(v.self, i) in s.issued)
    && (forall i: nat :: RedirectId(v.self, i) in s.issued ==> i <= v.lastRID)
    && (forall i: nat :: CommandId(v.self, i) in s.issued ==> i <= v.lastCID)
  }

  /** The redirect of the configuration that Port `h` was opened for holds it. */
  ghost predicate Referenced(s: State, h: Port, n: string)
    requires h in s.live
  {
    var x := s.live[h];
    && n in s.servers && s.servers[n].self == x.server
    && x.id in s.servers[n].redirects && s.servers[n].redirects[x.id].port == Some(h)
  }

  ghost predicate Inv(s: State) {
    && (forall n :: n in s.servers ==> ServerOk(s, s.servers[n]))
    && (forall m, n :: m in s.servers && n in s.servers && m != n ==> s.servers[m].self != s.servers[n].self)
    && (forall x :: x in s.issued ==> x.server < s.next)
    && (forall h :: h in s.live ==> exists n :: Referenced(s, h, n))
  }

  /** The premise that a server does not give out 2^64 ids. */
  ghost predicate IdsLeft(s: State, op: Op) {
    && (op.AddRedirect? && op.name in s.servers ==> s.servers[op.name].lastRID < IDS - 1)
    && (op.AddCommand? && op.name in s.servers ==> s.servers[op.name].lastCID < IDS - 1)
  }

  /** A Port that AddRedirect returned for this record. */
  ghost predicate NewPort(s: State, name: string, id: nat, got: Option<Port>) {
    got.Some? && name in s.servers && id in s.servers[name].redirects ==>
      var r := s.servers[name].redirects[id];
      got.value !in s.live && got.value.port == r.data.from && got.value.service.matcher == r.matcher
  }

  /** When an operation can come: the handlers once start-up is over, and each reaper once. */
  ghost predicate Possible(s: State, op: Op) {
    && !s.down
    && match op
       case InitRedirect(name, id, got) => !s.serving && NewPort(s, name, id, got)
       case InitCommand(_, _, uc) => !s.serving && (uc.Some? ==> forall x :: x in s.reapers ==> x.1 != uc.value)
       case Serve => !s.serving
       case Reap(self, gone) => (self, gone) in s.reapers
       case StartRedirect(name, id, got) => s.serving && NewPort(s, name, id, got)
       case StartCommand(_, _, uc) => s.serving && (uc.Some? ==> forall x :: x in s.reapers ==> x.1 != uc.value)
       case _ => s.serving && IdsLeft(s, op)
  }

  /** What the file was read into, before anything runs: nothing held, matchers made, and the
      counters at the highest ids there are. */
  ghost predicate Loaded(s: State) {
    && s.live == map[] && s.reapers == {} && !s.serving && !s.down
    && (forall n :: n in s.servers ==> LoadedServer(s, s.servers[n]))
    && (forall m, n :: m in s.servers && n in s.servers && m != n ==> s.servers[m].self != s.servers[n].self)
    && (forall x :: x in s.issued ==> x.server < s.next)
  }

  ghost predicate LoadedServer(s: State, v: Server) {
    && v.self < s.next && v.lastRID < IDS && v.lastCID < IDS
    && (v.lastRID == 0 || v.lastRID in v.redirects) && (v.lastCID == 0 || v.lastCID in v.commands)
    && (forall i :: i in v.redirects ==>
          var r := v.redirects[i];
          i <= v.lastRID && r.port.None? && r.made == r.data.hosts && r.matcher == MakeMatchService(r.made))
    && (forall i :: i in v.commands ==>
          var c := v.commands[i];
          i <= v.lastCID && c.unixCmd.None? && c.status == 0 && c.linked && c.self < s.next
          && c.made == c.data.hosts && c.matcher == MakeMatchService(c.made))
    && (forall i: nat :: RedirectId(v.self, i) in s.issued <==> i in v.redirects)
    && (forall i: nat :: CommandId(v.self, i) in s.issued <==> i in v.commands)
  }

  lemma RecordOf(s: State, n: string)
    requires Inv(s) && n in s.servers
    ensures ServerOk(s, s.servers[n])
    ensures forall m :: m in s.servers && m != n ==> s.servers[m].self != s.servers[n].self
  {
  }

  lemma RedirectOf(s: State, n: string, i: nat)
    requires Inv(s) && n in s.servers && i in s.servers[n].redirects
    ensures RedirectOk(s, s.servers[n], i, s.servers[n].redirects[i])
  {
    assert ServerOk(s, s.servers[n]);
  }

  lemma ReferencedFrom(s: State, h: Port) returns (n: string)
    requires Inv(s) && h in s.live
    ensures Referenced(s, h, n)
  {
    hide ServerOk;
    n :| Referenced(s, h, n);
  }

  lemma CommandOf(s: State, n: string, i: nat)
    requires Inv(s) && n in s.servers && i in s.servers[n].commands
    ensures CommandOk(s, s.servers[n].commands[i]) && i <= s.servers[n].lastCID && CommandId(s.servers[n].self, i) in s.issued
  {
    assert ServerOk(s, s.servers[n]);
  }

  /** A record not touched stays in order when only more is known. */
  lemma ServerStays(s: State, s': State, v: Server)
    requires ServerOk(s, v) && s.next <= s'.next && s.issued <= s'.issued && s.reapers <= s'.reapers
    requires forall x :: x in s'.issued && x !in s.issued ==> x.server != v.self
    requires forall h :: h in s.live && s.live[h].server == v.self ==> h in s'.live && s'.live[h] == s.live[h]
    ensures ServerOk(s', v)
  {
    forall i | i in v.redirects ensures RedirectOk(s', v, i, v.redirects[i]) { assert RedirectOk(s, v, i, v.redirects[i]); }
    forall i | i in v.commands ensures CommandOk(s', v.commands[i]) { assert CommandOk(s, v.commands[i]); }
  }

  // ---------- every operation keeps it ----------

  /** Nothing but what one server has was changed: `s'` knows all that `s` did, of the other servers
      no more and no less. */
  ghost predicate Grows(s: State, s': State, self: nat) {
    && s.next <= s'.next && s.issued <= s'.issued && s.reapers <= s'.reapers
    && (forall x :: x in s'.issued && x !in s.issued ==> x.server == self && self < s'.next)
    && (forall h :: h in s.live && s.live[h].server != self ==> h in s'.live && s'.live[h] == s.live[h])
    && (forall h :: h in s'.live && s'.live[h].server != self ==> h in s.live && s'.live[h] == s.live[h])
  }

  ghost predicate Changes(s: State, s': State, name: string) {
    && name in s.servers && name in s'.servers
    && s'.servers == s.servers[name := s'.servers[name]] && s'.servers[name].self == s.servers[name].self
    && Grows(s, s', s.servers[name].self)
  }

  lemma ChangeKeepsOthers(s: State, s': State, name: string, n: string)
    requires Inv(s) && Changes(s, s', name) && n in s.servers && n != name
    ensures s'.servers[n] == s.servers[n] && ServerOk(s', s.servers[n]) && s.servers[n].self != s.servers[name].self
  {
    RecordOf(s, n);
    hide Inv, ServerOk;
    assert s.servers[n].self != s.servers[name].self;
    ServerStays(s, s', s.servers[n]);
  }

  lemma OthersReferenced(s: State, s': State, name: string, h: Port)
    requires Inv(s) && Changes(s, s', name) && h in s'.live && s'.live[h].server != s.servers[name].self
    ensures exists n :: Referenced(s', h, n)
  {
    hide ServerOk;
    var n :| Referenced(s, h, n);
    assert Referenced(s', h, n);
  }

  /** One server's record changed, for the better or with something new in it. */
  lemma ChangeKeeps(s: State, s': State, name: string)
    requires Inv(s) && Changes(s, s', name) && ServerOk(s', s'.servers[name])
    requires forall h :: h in s'.live && s'.live[h].server == s.servers[name].self ==> Referenced(s', h, name)
    ensures Inv(s')
  {
    hide ServerOk;
    forall n | n in s'.servers && n != name ensures n in s.servers && ServerOk(s', s'.servers[n]) { ChangeKeepsOthers(s, s', name, n); }
    forall h | h in s'.live ensures exists n :: Referenced(s', h, n) {
      if s'.live[h].server != s.servers[name].self { OthersReferenced(s, s', name, h); }
    }
    assert forall m, n :: m in s'.servers && n in s'.servers && m != n ==> s'.servers[m].self != s'.servers[n].self;
  }

  /** Whoever is referenced is referenced from the server it was opened for. */
  lemma StaysReferenced(s: State, name: string, h: Port)
    requires Inv(s) && name in s.servers && h in s.live && s.live[h].server == s.servers[name].self
    ensures Referenced(s, h, name)
  {
    hide ServerOk;
    var n :| Referenced(s, h, n);
  }

  /** A change of one server that leaves its redirects' Ports alone. */
  lemma QuietKeeps(s: State, s': State, name: string)
    requires Inv(s) && Changes(s, s', name) && ServerOk(s', s'.servers[name]) && s'.live == s.live
    requires forall i :: i in s.servers[name].redirects && s.servers[name].redirects[i].port.Some? ==>
      i in s'.servers[name].redirects && s'.servers[name].redirects[i].port == s.servers[name].redirects[i].port
    ensures Inv(s')
  {
    hide ServerOk;
    forall h | h in s'.live && s'.live[h].server == s.servers[name].self ensures Referenced(s', h, name) {
      StaysReferenced(s, name, h);
    }
    hide Inv, Changes;
    ChangeKeeps(s, s', name);
  }

  lemma ReferencedStill(s: State, s': State, h: Port)
    requires h in s.live && s'.live == s.live && exists n :: Referenced(s, h, n)
    requires forall n :: n in s.servers ==> n in s'.servers && s'.servers[n] == s.servers[n]
    ensures exists n :: Referenced(s', h, n)
  {
    var n :| Referenced(s, h, n);
    assert Referenced(s', h, n);
  }

  lemma AddKeepsServers(s: State, name: string)
    requires Inv(s) && name !in s.servers
    ensures var s' := Apply(s, Add(name)).0;
      && ServerOk(s', s'.servers[name])
      && forall n :: n in s.servers ==> ServerOk(s', s.servers[n]) && s.servers[n].self < s.next
  {
    hide ApplyToRedirects, ApplyToCommands;
    var s' := Apply(s, Add(name)).0;
    forall n | n in s.servers ensures ServerOk(s', s.servers[n]) && s.servers[n].self < s.next {
      RecordOf(s, n);
      ServerStays(s, s', s.servers[n]);
    }
  }

  lemma AddKeepsRest(s: State, s': State, name: string)
    requires Inv(s) && name !in s.servers && name in s'.servers && s'.servers[name].self == s.next
    requires s' == s.(servers := s.servers[name := s'.servers[name]], next := s.next + 1)
    requires forall n :: n in s'.servers ==> ServerOk(s', s'.servers[n])
    requires forall n :: n in s.servers ==> s.servers[n].self < s.next
    ensures Inv(s')
  {
    hide ServerOk, Referenced;
    forall h | h in s'.live ensures exists n :: Referenced(s', h, n) { ReferencedStill(s, s', h); }
  }

  lemma AddKeeps(s: State, name: string)
    requires Inv(s) && name !in s.servers
    ensures Inv(Apply(s, Add(name)).0)
  {
    hide Inv, ServerOk, ApplyToRedirects, ApplyToCommands;
    AddKeepsServers(s, name);
    AddKeepsRest(s, Apply(s, Add(name)).0, name);
  }

  /** Start-up is over, or the process has ended. */
  lemma FlagsKeep(s: State, s': State)
    requires Inv(s) && s' == s.(serving := s'.serving, down := s'.down)
    ensures Inv(s')
  {
    forall n | n in s.servers ensures ServerOk(s', s.servers[n]) {
      RecordOf(s, n);
      ServerStays(s, s', s.servers[n]);
    }
    hide ServerOk;
    forall h | h in s'.live ensures exists n :: Referenced(s', h, n) {
      var n :| Referenced(s, h, n);
      assert Referenced(s', h, n);
    }
  }

  lemma RenameKeepsServers(s: State, from: string, to: string, n: string)
    requires Inv(s) && from in s.servers && to !in s.servers
    requires var s' := Apply(s, Rename(from, to)).0; n in s'.servers
    ensures var s' := Apply(s, Rename(from, to)).0; ServerOk(s', s'.servers[n])
  {
    hide ApplyToRedirects, ApplyToCommands;
    var s' := Apply(s, Rename(from, to)).0;
    RecordOf(s, if n == to then from else n);
    ServerStays(s, s', s'.servers[n]);
  }

  /** The record moves, and nothing else does. */
  lemma RenameKeeps(s: State, from: string, to: string)
    requires Inv(s) && from in s.servers && to !in s.servers
    ensures Inv(Apply(s, Rename(from, to)).0)
  {
    hide ServerOk, ApplyToRedirects, ApplyToCommands;
    var s' := Apply(s, Rename(from, to)).0;
    forall n | n in s'.servers ensures ServerOk(s', s'.servers[n]) { RenameKeepsServers(s, from, to, n); }
    forall h | h in s.live ensures exists n :: Referenced(s', h, n) {
      var n :| Referenced(s, h, n);
      assert Referenced(s', h, if n == from then to else n);
    }
  }

  /** The server that goes holds no Port: none of its redirects is started. */
  lemma IdleHoldsNone(s: State, s': State, name: string, h: Port)
    requires Inv(s) && name in s.servers && Idle(s.servers[name]) && s' == s.(servers := s.servers - {name}) && h in s.live
    ensures exists n :: Referenced(s', h, n)
  {
    var n :| Referenced(s, h, n);
    RedirectOf(s, n, s.live[h].id);
    assert n != name;
    assert Referenced(s', h, n);
  }

  lemma WithoutServer(s: State, s': State, name: string)
    requires Inv(s) && name in s.servers && Idle(s.servers[name]) && s' == s.(servers := s.servers - {name})
    ensures Inv(s')
  {
    forall h | h in s.live ensures exists n :: Referenced(s', h, n) { IdleHoldsNone(s, s', name, h); }
    hide Idle, Referenced, ServerOk;
    forall n | n in s'.servers ensures ServerOk(s', s'.servers[n]) { ServerStays(s, s', s'.servers[n]); }
  }

  lemma RemoveKeeps(s: State, name: string)
    requires Inv(s) && name in s.servers && Idle(s.servers[name])
    ensures Inv(Apply(s, Remove(name)).0)
  {
    hide ApplyToRedirects, ApplyToCommands, Inv, Idle;
    WithoutServer(s, Apply(s, Remove(name)).0, name);
  }

  lemma ReapedOk(s: State, s': State, v: Server, v': Server, self: nat, gone: UnixCmd)
    requires ServerOk(s, v) && s' == s.(servers := s'.servers, reapers := s.reapers - {(self, gone)})
    requires v' == v.(commands := map i | i in v.commands :: Reaped(v.commands[i], self, gone))
    ensures ServerOk(s', v')
  {
    forall i | i in v.redirects ensures RedirectOk(s', v', i, v'.redirects[i]) { assert RedirectOk(s, v, i, v.redirects[i]); }
    forall i | i in v.commands ensures CommandOk(s', v'.commands[i]) { assert CommandOk(s, v.commands[i]); }
  }

  lemma ReapKeeps(s: State, self: nat, gone: UnixCmd)
    requires Inv(s) && !Unlinked(s, Reap(self, gone))
    ensures Inv(Apply(s, Reap(self, gone)).0)
  {
    hide ApplyToRedirects, ApplyToCommands;
    var s' := Apply(s, Reap(self, gone)).0;
    hide ServerOk;
    forall n | n in s'.servers ensures ServerOk(s', s'.servers[n]) {
      RecordOf(s, n);
      ReapedOk(s, s', s.servers[n], s'.servers[n], self, gone);
    }
    forall h | h in s.live ensures exists n :: Referenced(s', h, n) {
      var n :| Referenced(s, h, n);
      assert Referenced(s', h, n);
    }
  }

  lemma SameGrows(s: State, s': State, self: nat)
    requires s'.live == s.live && s.next <= s'.next && s.reapers <= s'.reapers && self < s'.next
    requires s.issued <= s'.issued && forall x :: x in s'.issued && x !in s.issued ==> x.server == self
    ensures Grows(s, s', self)
  {
  }

  /** One command record changed, or came, or went. */
  lemma CommandsKeep(s: State, s': State, name: string, v': Server, id: nat)
    requires Inv(s) && name in s.servers
    requires s' == s.(servers := s.servers[name := v'], next := s'.next, reapers := s'.reapers, issued := s'.issued)
    requires s.next <= s'.next && s.reapers <= s'.reapers
    requires s'.issued == s.issued || s'.issued == s.issued + {CommandId(s.servers[name].self, id)}
    requires var v := s.servers[name];
      && v' == v.(commands := v'.commands, lastCID := v'.lastCID) && v.lastCID <= v'.lastCID < IDS
      && (forall i :: i in v'.commands && i != id ==> i in v.commands && v'.commands[i] == v.commands[i])
      && (id in v'.commands ==> CommandOk(s', v'.commands[id]) && CommandId(v.self, id) in s'.issued)
      && (CommandId(v.self, id) in s'.issued ==> id <= v'.lastCID)
    ensures Inv(s')
  {
    var v := s.servers[name];
    RecordOf(s, name);
    SameGrows(s, s', v.self);
    hide Inv, Grows;
    CommandsChanged(s, s', v, v', id);
    QuietKeeps(s, s', name);
  }

  lemma CommandsChanged(s: State, s': State, v: Server, v': Server, id: nat)
    requires ServerOk(s, v) && s' == s.(servers := s'.servers, next := s'.next, reapers := s'.reapers, issued := s'.issued)
    requires s.next <= s'.next && s.reapers <= s'.reapers
    requires s'.issued == s.issued || s'.issued == s.issued + {CommandId(v.self, id)}
    requires v' == v.(commands := v'.commands, lastCID := v'.lastCID) && v.lastCID <= v'.lastCID < IDS
    requires forall i :: i in v'.commands && i != id ==> i in v.commands && v'.commands[i] == v.commands[i]
    requires id in v'.commands ==> CommandOk(s', v'.commands[id]) && CommandId(v.self, id) in s'.issued
    requires CommandId(v.self, id) in s'.issued ==> id <= v'.lastCID
    ensures ServerOk(s', v')
  {
    forall i | i in v.redirects ensures RedirectOk(s', v', i, v'.redirects[i]) { assert RedirectOk(s, v, i, v.redirects[i]); }
    forall i | i in v'.commands && i != id ensures CommandOk(s', v'.commands[i]) { assert CommandOk(s, v.commands[i]); }
  }

  /** One redirect record changed, or came, or went, that holds no Port. */
  lemma RedirectsKeep(s: State, s': State, name: string, v': Server, id: nat)
    requires Inv(s) && name in s.servers
    requires s' == s.(servers := s.servers[name := v'], issued := s'.issued)
    requires s'.issued == s.issued || s'.issued == s.issued + {RedirectId(s.servers[name].self, id)}
    requires var v := s.servers[name];
      && v' == v.(redirects := v'.redirects, lastRID := v'.lastRID) && v.lastRID <= v'.lastRID < IDS
      && (forall i :: i in v.redirects && i != id ==> i in v'.redirects)
      && (forall i :: i in v'.redirects && i != id ==> i in v.redirects && v'.redirects[i] == v.redirects[i])
      && (id in v.redirects ==> v.redirects[id].port.None?)
      && (id in v'.redirects ==> RedirectOk(s', v', id, v'.redirects[id]) && RedirectId(v.self, id) in s'.issued)
      && (RedirectId(v.self, id) in s'.issued ==> id <= v'.lastRID)
    ensures Inv(s')
  {
    var v := s.servers[name];
    RecordOf(s, name);
    SameGrows(s, s', v.self);
    hide Inv, Grows;
    RedirectsChanged(s, s', v, v', id);
    QuietKeeps(s, s', name);
  }

  lemma RedirectsChanged(s: State, s': State, v: Server, v': Server, id: nat)
    requires ServerOk(s, v) && s' == s.(servers := s'.servers, issued := s'.issued)
    requires s'.issued == s.issued || s'.issued == s.issued + {RedirectId(v.self, id)}
    requires v' == v.(redirects := v'.redirects, lastRID := v'.lastRID) && v.lastRID <= v'.lastRID < IDS
    requires forall i :: i in v'.redirects && i != id ==> i in v.redirects && v'.redirects[i] == v.redirects[i]
    requires id in v'.redirects ==> RedirectOk(s', v', id, v'.redirects[id]) && RedirectId(v.self, id) in s'.issued
    requires RedirectId(v.self, id) in s'.issued ==> id <= v'.lastRID
    ensures ServerOk(s', v')
  {
    forall i | i in v'.redirects && i != id ensures RedirectOk(s', v', i, v'.redirects[i]) { assert RedirectOk(s, v, i, v.redirects[i]); }
    forall i | i in v'.commands ensures CommandOk(s', v'.commands[i]) { assert CommandOk(s, v.commands[i]); }
  }

  lemma AddCommandKeeps(s: State, name: string, cd: CommandData)
    requires Inv(s) && IdsLeft(s, AddCommand(name, cd)) && name in s.servers
    ensures Inv(Apply(s, AddCommand(name, cd)).0)
  {
    hide ApplyToRedirects, ApplyToServers;
    CounterOk(s, name);
    SelfOk(s, name);
    hide Inv, ServerOk;
    var s' := Apply(s, AddCommand(name, cd)).0;
    CommandsKeep(s, s', name, s'.servers[name], s.servers[name].lastCID + 1);
  }

  lemma ModifyCommandKeeps(s: State, name: string, id: nat, cd: CommandData)
    requires Inv(s) && Apply(s, ModifyCommand(name, id, cd)).1 == Done
    ensures Inv(Apply(s, ModifyCommand(name, id, cd)).0)
  {
    hide ApplyToRedirects, ApplyToServers;
    CommandOf(s, name, id);
    hide Inv, ServerOk;
    CounterOk(s, name);
    var s' := Apply(s, ModifyCommand(name, id, cd)).0;
    CommandsKeep(s, s', name, s'.servers[name], id);
  }

  lemma RemoveCommandKeeps(s: State, name: string, id: nat)
    requires Inv(s) && Apply(s, RemoveCommand(name, id)).1 == Done
    ensures Inv(Apply(s, RemoveCommand(name, id)).0)
  {
    hide Inv, ServerOk, ApplyToRedirects, ApplyToServers;
    CounterOk(s, name);
    var s' := Apply(s, RemoveCommand(name, id)).0;
    CommandsKeep(s, s', name, s'.servers[name], id);
  }

  lemma StoppedCommandKeeps(s: State, name: string, id: nat)
    requires Inv(s) && name in s.servers && id in s.servers[name].commands
    ensures Inv(StoppedCommand(s, name, id))
  {
    CommandOf(s, name, id);
    hide Inv, ServerOk;
    CounterOk(s, name);
    var s' := StoppedCommand(s, name, id);
    CommandsKeep(s, s', name, s'.servers[name], id);
  }

  lemma SelfOk(s: State, name: string)
    requires Inv(s) && name in s.servers
    ensures s.servers[name].self < s.next
  {
    RecordOf(s, name);
  }

  lemma NextIdUnused(s: State, name: string)
    requires Inv(s) && name in s.servers
    ensures s.servers[name].lastRID + 1 !in s.servers[name].redirects
    ensures s.servers[name].lastCID + 1 !in s.servers[name].commands
  {
    RecordOf(s, name);
  }

  lemma CounterOk(s: State, name: string)
    requires Inv(s) && name in s.servers
    ensures s.servers[name].lastCID < IDS && s.servers[name].lastRID < IDS
    ensures forall i: nat :: RedirectId(s.servers[name].self, i) in s.issued ==> i <= s.servers[name].lastRID
    ensures forall i: nat :: CommandId(s.servers[name].self, i) in s.issued ==> i <= s.servers[name].lastCID
  {
    RecordOf(s, name);
  }

  lemma RunCommandKeeps(s: State, name: string, id: nat, uc: Option<UnixCmd>)
    requires Inv(s) && name in s.servers && id in s.servers[name].commands
    ensures Inv(RunCommand(s, name, id, uc))
  {
    CounterOk(s, name);
    CommandOf(s, name, id);
    hide Inv, ServerOk;
    var s' := RunCommand(s, name, id, uc);
    if s' != s { CommandsKeep(s, s', name, s'.servers[name], id); }
  }

  lemma AddRedirectKeeps(s: State, name: string, rd: RedirectData)
    requires Inv(s) && IdsLeft(s, AddRedirect(name, rd)) && name in s.servers
    ensures Inv(Apply(s, AddRedirect(name, rd)).0)
  {
    hide ApplyToCommands, ApplyToServers;
    CounterOk(s, name);
    NextIdUnused(s, name);
    hide Inv, ServerOk;
    var s' := Apply(s, AddRedirect(name, rd)).0;
    RedirectsKeep(s, s', name, s'.servers[name], s.servers[name].lastRID + 1);
  }

  /** A redirect that may be modified or removed holds no Port. */
  lemma ModifyRedirectKeeps(s: State, name: string, id: nat, rd: RedirectData)
    requires Inv(s) && Apply(s, ModifyRedirect(name, id, rd)).1 == Done
    ensures Inv(Apply(s, ModifyRedirect(name, id, rd)).0)
  {
    hide ApplyToCommands, ApplyToServers;
    RedirectOf(s, name, id);
    assert id <= s.servers[name].lastRID && RedirectId(s.servers[name].self, id) in s.issued by { RecordOf(s, name); }
    hide Inv, ServerOk;
    CounterOk(s, name);
    var s' := Apply(s, ModifyRedirect(name, id, rd)).0;
    RedirectsKeep(s, s', name, s'.servers[name], id);
  }

  lemma RemoveRedirectKeeps(s: State, name: string, id: nat)
    requires Inv(s) && Apply(s, RemoveRedirect(name, id)).1 == Done
    ensures Inv(Apply(s, RemoveRedirect(name, id)).0)
  {
    hide ApplyToCommands, ApplyToServers;
    RedirectOf(s, name, id);
    hide Inv, ServerOk;
    CounterOk(s, name);
    var s' := Apply(s, RemoveRedirect(name, id)).0;
    RedirectsKeep(s, s', name, s'.servers[name], id);
  }

  /** A record of a server changed that all others of that server do not notice. */
  lemma PortMoved(s: State, s': State, v: Server, v': Server, id: nat)
    requires ServerOk(s, v) && s' == s.(servers := s'.servers, live := s'.live)
    requires id in v.redirects && id in v'.redirects && v' == v.(redirects := v.redirects[id := v'.redirects[id]])
    requires RedirectOk(s', v', id, v'.redirects[id])
    requires forall h :: h in s.live && s.live[h] != Held(v.self, id) ==> h in s'.live && s'.live[h] == s.live[h]
    ensures ServerOk(s', v')
  {
    forall i | i in v'.redirects && i != id ensures RedirectOk(s', v', i, v'.redirects[i]) { assert RedirectOk(s, v, i, v.redirects[i]); }
    forall i | i in v'.commands ensures CommandOk(s', v'.commands[i]) { assert CommandOk(s, v.commands[i]); }
  }

  lemma PortGrows(s: State, s': State, self: nat, id: nat, p: Port)
    requires s' == s.(servers := s'.servers, live := s'.live)
    requires (p !in s.live && s'.live == s.live[p := Held(self, id)])
      || (p in s.live && s.live[p].server == self && s'.live == s.live - {p})
    ensures Grows(s, s', self)
  {
  }

  lemma PutChanges(s: State, s': State, name: string, id: nat, r: Redirect)
    requires name in s.servers && s' == PutRedirect(s, name, id, r).(live := s'.live) && Grows(s, s', s.servers[name].self)
    ensures Changes(s, s', name) && s' == s.(servers := s'.servers, live := s'.live)
    ensures var v, v' := s.servers[name], s'.servers[name];
      v'.self == v.self && id in v'.redirects && v'.redirects[id] == r && v' == v.(redirects := v.redirects[id := r])
  {
  }

  /** The other Ports of a server are referenced as before. */
  lemma OtherPortsReferenced(s: State, s': State, name: string, id: nat, h: Port)
    requires Inv(s) && name in s.servers && h in s.live && s.live[h].server == s.servers[name].self
    requires h in s'.live && s'.live[h] == s.live[h] && s.live[h].id != id
    requires name in s'.servers && s'.servers[name].self == s.servers[name].self && id in s'.servers[name].redirects
    requires s'.servers[name].redirects == s.servers[name].redirects[id := s'.servers[name].redirects[id]]
    ensures Referenced(s', h, name)
  {
    hide Inv;
    StaysReferenced(s, name, h);
  }

  /** A redirect takes up a Port. */
  lemma PortTakenKeeps(s: State, s': State, name: string, id: nat, p: Port)
    requires Inv(s) && name in s.servers && id in s.servers[name].redirects && s.servers[name].redirects[id].port.None? && p !in s.live
    requires var v := s.servers[name];
      s' == PutRedirect(s, name, id, v.redirects[id].(port := Some(p), start := true)).(live := s.live[p := Held(v.self, id)])
    requires p.port == s.servers[name].redirects[id].data.from && p.service.matcher == s.servers[name].redirects[id].matcher
    ensures Inv(s')
  {
    hide Inv, ServerOk, Grows, Changes;
    var v, v' := s.servers[name], s'.servers[name];
    RecordOf(s, name);
    RedirectOf(s, name, id);
    PortGrows(s, s', v.self, id, p);
    PutChanges(s, s', name, id, v.redirects[id].(port := Some(p), start := true));
    hide PutRedirect;
    PortMoved(s, s', v, v', id);
    forall h | h in s'.live && s'.live[h].server == v.self ensures Referenced(s', h, name) {
      if h != p {
        StaysReferenced(s, name, h);
        OtherPortsReferenced(s, s', name, id, h);
      }
    }
    ChangeKeeps(s, s', name);
  }

  /** Or puts it down. */
  lemma PortDroppedKeeps(s: State, s': State, name: string, id: nat, p: Port)
    requires Inv(s) && name in s.servers && id in s.servers[name].redirects && s.servers[name].redirects[id].port == Some(p)
    requires s' == PutRedirect(s, name, id, s.servers[name].redirects[id].(port := None, start := false)).(live := s.live - {p})
    ensures Inv(s')
  {
    hide Inv, ServerOk, Grows, Changes;
    var v, v' := s.servers[name], s'.servers[name];
    RecordOf(s, name);
    RedirectOf(s, name, id);
    PortGrows(s, s', v.self, id, p);
    PutChanges(s, s', name, id, v.redirects[id].(port := None, start := false));
    hide PutRedirect;
    PortMoved(s, s', v, v', id);
    forall h | h in s'.live && s'.live[h].server == v.self ensures Referenced(s', h, name) {
      StaysReferenced(s, name, h);
      OtherPortsReferenced(s, s', name, id, h);
    }
    ChangeKeeps(s, s', name);
  }

  lemma RunRedirectKeeps(s: State, name: string, id: nat, got: Option<Port>)
    requires Inv(s) && name in s.servers && id in s.servers[name].redirects && NewPort(s, name, id, got)
    ensures Inv(RunRedirect(s, name, id, got))
  {
    hide Inv;
    var s' := RunRedirect(s, name, id, got);
    if s' != s { PortTakenKeeps(s, s', name, id, got.value); }
  }

  lemma StopKeeps(s: State, name: string, id: nat)
    requires Inv(s) && name in s.servers && id in s.servers[name].redirects
    ensures Inv(Stopped(s, name, id))
  {
    RedirectOf(s, name, id);
    assert RedirectId(s.servers[name].self, id) in s.issued && id <= s.servers[name].lastRID by { RecordOf(s, name); }
    hide Inv, ServerOk;
    var s', r := Stopped(s, name, id), s.servers[name].redirects[id];
    if r.port.Some? {
      PortDroppedKeeps(s, s', name, id, r.port.value);
    } else {
      RedirectsKeep(s, s', name, s'.servers[name], id);
    }
  }

  lemma ServersStepKeeps(s: State, op: Op)
    requires Inv(s) && !OnRedirects(op) && !OnCommands(op)
    ensures Inv(Apply(s, op).0) && s.issued <= Apply(s, op).0.issued
  {
    hide Inv, ApplyToRedirects, ApplyToCommands;
    if Apply(s, op).0 != s {
      match op {
        case Add(name) => AddKeeps(s, name);
        case Rename(from, to) => RenameKeeps(s, from, to);
        case Remove(name) => RemoveKeeps(s, name);
        case Serve => FlagsKeep(s, Apply(s, Serve).0);
        case Reap(self, gone) => if Unlinked(s, op) { FlagsKeep(s, Apply(s, op).0); } else { ReapKeeps(s, self, gone); }
      }
    }
  }

  lemma RedirectsStepKeeps(s: State, op: Op)
    requires Inv(s) && Possible(s, op) && OnRedirects(op)
    ensures Inv(Apply(s, op).0) && s.issued <= Apply(s, op).0.issued
  {
    hide Inv, ApplyToCommands, ApplyToServers;
    if Apply(s, op).0 != s {
      match op {
        case AddRedirect(name, rd) => AddRedirectKeeps(s, name, rd);
        case ModifyRedirect(name, id, rd) => ModifyRedirectKeeps(s, name, id, rd);
        case RemoveRedirect(name, id) => RemoveRedirectKeeps(s, name, id);
        case StartRedirect(name, id, got) => RunRedirectKeeps(s, name, id, got);
        case InitRedirect(name, id, got) => RunRedirectKeeps(s, name, id, got);
        case StopRedirect(name, id) => StopKeeps(s, name, id);
      }
    }
  }

  lemma CommandsStepKeeps(s: State, op: Op)
    requires Inv(s) && Possible(s, op) && OnCommands(op)
    ensures Inv(Apply(s, op).0) && s.issued <= Apply(s, op).0.issued
  {
    hide Inv, ApplyToRedirects, ApplyToServers;
    if Apply(s, op).0 != s {
      match op {
        case AddCommand(name, cd) => AddCommandKeeps(s, name, cd);
        case ModifyCommand(name, id, cd) => ModifyCommandKeeps(s, name, id, cd);
        case RemoveCommand(name, id) => RemoveCommandKeeps(s, name, id);
        case StartCommand(name, id, uc) => RunCommandKeeps(s, name, id, uc);
        case InitCommand(name, id, uc) => RunCommandKeeps(s, name, id, uc);
        case StopCommand(name, id) => StoppedCommandKeeps(s, name, id);
        case CommandPorts(_, _) =>
      }
    }
  }

  /** Every operation keeps the configuration in order, and what was issued stays issued. */
  lemma StepKeeps(s: State, op: Op)
    requires Inv(s) && Possible(s, op)
    ensures Inv(Apply(s, op).0) && s.issued <= Apply(s, op).0.issued
  {
    hide Inv, Possible, Apply;
    if OnRedirects(op) {
      RedirectsStepKeeps(s, op);
    } else if OnCommands(op) {
      CommandsStepKeeps(s, op);
    } else {
      ServersStepKeeps(s, op);
    }
  }

  // ---------- whole runs ----------

  /** The state after a sequence of operations. */
  ghost function After(start: State, ops: seq<Op>): State
    decreases |ops|
  {
    if |ops| == 0 then start else Apply(After(start, ops[..|ops| - 1]), ops[|ops| - 1]).0
  }

  /** From what the file has, each operation possible when it comes. */
  ghost predicate Run(start: State, ops: seq<Op>)
    decreases |ops|
  {
    if |ops| == 0 then Loaded(start)
    else Run(start, ops[..|ops| - 1]) && Possible(After(start, ops[..|ops| - 1]), ops[|ops| - 1])
  }

  lemma LoadedInOrder(s: State)
    requires Loaded(s)
    ensures Inv(s)
  {
    forall n | n in s.servers ensures ServerOk(s, s.servers[n]) { assert LoadedServer(s, s.servers[n]); }
  }

  lemma {:induction false} RunKeeps(start: State, ops: seq<Op>)
    requires Run(start, ops)
    ensures Inv(After(start, ops)) && start.issued <= After(start, ops).issued
    decreases |ops|
  {
    hide Inv, Apply, Loaded, Possible;
    if |ops| == 0 {
      LoadedInOrder(start);
    } else {
      RunKeeps(start, ops[..|ops| - 1]);
      StepKeeps(After(start, ops[..|ops| - 1]), ops[|ops| - 1]);
    }
  }

  /** In every run the redirects' open Ports are exactly those that the configuration refers to,
      each from one record, which is marked as started, for the number and with the matcher that the
      record has; and a running command has status 1. */
  lemma PortsExactlyReferenced(start: State, ops: seq<Op>)
    requires Run(start, ops)
    ensures var s := After(start, ops);
      && (forall n, i :: n in s.servers && i in s.servers[n].redirects && s.servers[n].redirects[i].port.Some? ==>
            RedirectOk(s, s.servers[n], i, s.servers[n].redirects[i]))
      && (forall h :: h in s.live ==> exists n :: Referenced(s, h, n))
      && (forall h, m, n :: h in s.live && Referenced(s, h, m) && Referenced(s, h, n) ==> m == n)
      && (forall n, i :: n in s.servers && i in s.servers[n].commands && s.servers[n].commands[i].unixCmd.Some? ==>
            s.servers[n].commands[i].status == 1)
  {
    var s := After(start, ops);
    RunKeeps(start, ops);
    forall n, i | n in s.servers && i in s.servers[n].redirects ensures RedirectOk(s, s.servers[n], i, s.servers[n].redirects[i]) {
      RedirectOf(s, n, i);
    }
    forall n, i | n in s.servers && i in s.servers[n].commands ensures CommandOk(s, s.servers[n].commands[i]) { CommandOf(s, n, i); }
    hide Run, After, ServerOk, RedirectOk, CommandOk;
  }

  /** Where an operation leaves the server of a name. */
  function NameAfter(s: State, op: Op, n: string): string {
    if op.Rename? && op.from == n && op.to !in s.servers then op.to else n
  }

  /** What an operation can change: a record of its own, or the name of a server. */
  ghost predicate Leaves(s: State, op: Op, n: string, redirect: bool, i: nat) {
    match op
    case Remove(name) => name != n
    case AddRedirect(name, _) => name == n && redirect && n in s.servers ==> i != (s.servers[n].lastRID + 1) % IDS
    case AddCommand(name, _) => name == n && !redirect && n in s.servers ==> i != (s.servers[n].lastCID + 1) % IDS
    case ModifyRedirect(name, id, _) => !(name == n && id == i && redirect)
    case RemoveRedirect(name, id) => !(name == n && id == i && redirect)
    case StartRedirect(name, id, _) => !(name == n && id == i && redirect)
    case InitRedirect(name, id, _) => !(name == n && id == i && redirect)
    case StopRedirect(name, id) => !(name == n && id == i && redirect)
    case ModifyCommand(name, id, _) => !(name == n && id == i && !redirect)
    case RemoveCommand(name, id) => !(name == n && id == i && !redirect)
    case StartCommand(name, id, _) => !(name == n && id == i && !redirect)
    case InitCommand(name, id, _) => !(name == n && id == i && !redirect)
    case StopCommand(name, id) => !(name == n && id == i && !redirect)
    case Reap(self, _) => redirect || (n in s.servers && i in s.servers[n].commands ==> s.servers[n].commands[i].self != self)
    case _ => true
  }

  lemma RedirectLeft(s: State, op: Op, n: string, i: nat)
    requires n in s.servers && i in s.servers[n].redirects && Leaves(s, op, n, true, i)
    ensures var s', m := Apply(s, op).0, NameAfter(s, op, n);
      && m in s'.servers && s'.servers[m].self == s.servers[n].self
      && i in s'.servers[m].redirects && s'.servers[m].redirects[i] == s.servers[n].redirects[i]
  {
    if OnRedirects(op) {
      RedirectsShape(s, op);
      hide Apply, ApplyToRedirects;
      if n == op.name { assert i in s.servers[n].redirects - {TouchedRedirect(s, op)}; }
    } else if OnCommands(op) {
      CommandsShape(s, op);
      hide Apply, ApplyToCommands;
    } else {
      OthersLeave(s, op, n);
      hide Apply;
    }
  }

  /** The record that an operation on redirects may change, and likewise on commands. */
  function TouchedRedirect(s: State, op: Op): nat
    requires OnRedirects(op) && op.name in s.servers
  {
    if op.AddRedirect? then (s.servers[op.name].lastRID + 1) % IDS else op.id
  }

  function TouchedCommand(s: State, op: Op): nat
    requires OnCommands(op) && op.name in s.servers
  {
    if op.AddCommand? then (s.servers[op.name].lastCID + 1) % IDS else op.id
  }

  lemma RedirectsShape(s: State, op: Op)
    requires OnRedirects(op)
    ensures Apply(s, op) == ApplyToRedirects(s, op)
    ensures var s' := Apply(s, op).0;
      s'.servers == s.servers || (op.name in s.servers && op.name in s'.servers
        && var v, v' := s.servers[op.name], s'.servers[op.name];
        && s'.servers == s.servers[op.name := v'] && v' == v.(redirects := v'.redirects, lastRID := v'.lastRID)
        && v.redirects - {TouchedRedirect(s, op)} == v'.redirects - {TouchedRedirect(s, op)})
  {
    hide ApplyToRedirects, ApplyToCommands, ApplyToServers;
    assert Apply(s, op) == ApplyToRedirects(s, op);
    hide Apply;
    RedirectsShapeIn(s, op);
  }

  /** One redirect record of a server changed. */
  ghost predicate RedirectChanged(s: State, s': State, name: string, id: nat) {
    s'.servers == s.servers || (name in s.servers && name in s'.servers
      && var v, v' := s.servers[name], s'.servers[name];
      && s'.servers == s.servers[name := v'] && v' == v.(redirects := v'.redirects) && v.redirects - {id} == v'.redirects - {id})
  }

  lemma PutRedirectChanges(s: State, name: string, id: nat, r: Redirect)
    requires name in s.servers && id in s.servers[name].redirects
    ensures RedirectChanged(s, PutRedirect(s, name, id, r), name, id)
  {
  }

  lemma RunRedirectChanges(s: State, name: string, id: nat, got: Option<Port>)
    requires name in s.servers && id in s.servers[name].redirects
    ensures RedirectChanged(s, RunRedirect(s, name, id, got), name, id) && RedirectChanged(s, Stopped(s, name, id), name, id)
  {
  }

  lemma RedirectsShapeIn(s: State, op: Op)
    requires OnRedirects(op)
    ensures var s' := ApplyToRedirects(s, op).0;
      s'.servers == s.servers || (op.name in s.servers && op.name in s'.servers
        && var v, v' := s.servers[op.name], s'.servers[op.name];
        && s'.servers == s.servers[op.name := v'] && v' == v.(redirects := v'.redirects, lastRID := v'.lastRID)
        && v.redirects - {TouchedRedirect(s, op)} == v'.redirects - {TouchedRedirect(s, op)})
  {
    if op.name in s.servers && !op.AddRedirect? && op.id in s.servers[op.name].redirects {
      if op.ModifyRedirect? { PutRedirectChanges(s, op.name, op.id, s.servers[op.name].redirects[op.id].(data := op.rd)); }
      RunRedirectChanges(s, op.name, op.id, if op.StartRedirect? || op.InitRedirect? then op.got else None);
      hide RunRedirect, Stopped, PutRedirect;
    }
  }

  lemma CommandsShape(s: State, op: Op)
    requires OnCommands(op)
    ensures Apply(s, op) == ApplyToCommands(s, op)
    ensures var s' := Apply(s, op).0;
      s'.servers == s.servers || (op.name in s.servers && op.name in s'.servers
        && var v, v' := s.servers[op.name], s'.servers[op.name];
        var id := TouchedCommand(s, op);
        && s'.servers == s.servers[op.name := v'] && v' == v.(commands := v'.commands, lastCID := v'.lastCID)
        && v.commands - {id} == v'.commands - {id}
        && (!op.AddCommand? && id in v'.commands ==>
              id in v.commands && v'.commands[id].self == v.commands[id].self && v'.commands[id].linked == v.commands[id].linked))
  {
    hide ApplyToRedirects, ApplyToCommands, ApplyToServers;
    assert Apply(s, op) == ApplyToCommands(s, op);
    hide Apply;
    CommandsShapeIn(s, op);
  }

  /** One command record of a server changed, and is the same record. */
  ghost predicate CommandChanged(s: State, s': State, name: string, id: nat) {
    s'.servers == s.servers || (name in s.servers && name in s'.servers
      && var v, v' := s.servers[name], s'.servers[name];
      && s'.servers == s.servers[name := v'] && v' == v.(commands := v'.commands)
      && v.commands - {id} == v'.commands - {id} && id in v.commands && id in v'.commands
      && v'.commands[id].self == v.commands[id].self && v'.commands[id].linked == v.commands[id].linked)
  }

  lemma PutCommandChanges(s: State, name: string, id: nat, c: Command)
    requires name in s.servers && id in s.servers[name].commands
    requires c.self == s.servers[name].commands[id].self && c.linked == s.servers[name].commands[id].linked
    ensures CommandChanged(s, PutCommand(s, name, id, c), name, id)
  {
  }

  lemma RunCommandChanges(s: State, name: string, id: nat, uc: Option<UnixCmd>)
    requires name in s.servers && id in s.servers[name].commands
    ensures CommandChanged(s, RunCommand(s, name, id, uc), name, id) && CommandChanged(s, StoppedCommand(s, name, id), name, id)
  {
  }

  lemma CommandsShapeIn(s: State, op: Op)
    requires OnCommands(op)
    ensures var s' := ApplyToCommands(s, op).0;
      s'.servers == s.servers || (op.name in s.servers && op.name in s'.servers
        && var v, v' := s.servers[op.name], s'.servers[op.name];
        var id := TouchedCommand(s, op);
        && s'.servers == s.servers[op.name := v'] && v' == v.(commands := v'.commands, lastCID := v'.lastCID)
        && v.commands - {id} == v'.commands - {id}
        && (!op.AddCommand? && id in v'.commands ==>
              id in v.commands && v'.commands[id].self == v.commands[id].self && v'.commands[id].linked == v.commands[id].linked))
  {
    if op.name in s.servers && !op.AddCommand? && op.id in s.servers[op.name].commands {
      if op.ModifyCommand? { PutCommandChanges(s, op.name, op.id, s.servers[op.name].commands[op.id].(data := op.cd)); }
      RunCommandChanges(s, op.name, op.id, if op.StartCommand? || op.InitCommand? then op.uc else None);
      hide RunCommand, StoppedCommand, PutCommand;
    }
  }

  /** What the operations on servers, and the reapers, do to a server whose record they do not take away. */
  lemma OthersLeave(s: State, op: Op, n: string)
    requires n in s.servers && !OnRedirects(op) && !OnCommands(op) && op != Remove(n)
    ensures var s', m := Apply(s, op).0, NameAfter(s, op, n);
      && m in s'.servers && s'.servers[m].redirects == s.servers[n].redirects && s'.servers[m].self == s.servers[n].self
      && s'.servers[m].commands.Keys == s.servers[n].commands.Keys
      && forall i :: i in s.servers[n].commands ==>
           if op.Reap? && s.servers[n].commands[i].self == op.self
           then s'.servers[m].commands[i] == s.servers[n].commands[i] || s'.servers[m].commands[i] == Reaped(s.servers[n].commands[i], op.self, op.gone)
           else s'.servers[m].commands[i] == s.servers[n].commands[i]
  {
    hide Unlinked, ApplyToRedirects, ApplyToCommands;
  }

  lemma CommandLeft(s: State, op: Op, n: string, i: nat)
    requires n in s.servers && i in s.servers[n].commands && Leaves(s, op, n, false, i)
    ensures var s', m := Apply(s, op).0, NameAfter(s, op, n);
      && m in s'.servers && s'.servers[m].self == s.servers[n].self
      && i in s'.servers[m].commands && s'.servers[m].commands[i] == s.servers[n].commands[i]
  {
    if OnCommands(op) {
      CommandsShape(s, op);
      hide Apply, ApplyToCommands;
      if n == op.name && !op.CommandPorts? { assert i in s.servers[n].commands - {TouchedCommand(s, op)}; }
    } else if OnRedirects(op) {
      RedirectsShape(s, op);
      hide Apply, ApplyToRedirects;
    } else {
      OthersLeave(s, op, n);
      hide Apply;
    }
  }

  /** The guards refuse what would change or remove a started redirect. */
  lemma StartedRefuses(s: State, op: Op, n: string, i: nat)
    requires n in s.servers && i in s.servers[n].redirects && s.servers[n].redirects[i].start
    requires op.Remove? || op.ModifyRedirect? || op.RemoveRedirect? || op.StartRedirect?
    requires op.name == n && (op.Remove? || op.id == i)
    ensures Apply(s, op) == (s, ServerRunning)
  {
  }

  /** And what would change or remove a command of status 1. */
  lemma RunningRefuses(s: State, op: Op, n: string, i: nat)
    requires n in s.servers && i in s.servers[n].commands && s.servers[n].commands[i].status == 1
    requires op.Remove? || op.ModifyCommand? || op.RemoveCommand? || op.StartCommand?
    requires op.name == n && (op.Remove? || op.id == i)
    ensures Apply(s, op).0 == s && Apply(s, op).1 == ServerRunning
  {
  }

  /** A redirect with a Port is changed by its own stop alone. */
  lemma RedirectKept(s: State, op: Op, n: string, i: nat)
    requires Inv(s) && Possible(s, op) && n in s.servers && i in s.servers[n].redirects && s.servers[n].redirects[i].port.Some?
    requires op != StopRedirect(n, i)
    ensures var s', m := Apply(s, op).0, NameAfter(s, op, n);
      && m in s'.servers && s'.servers[m].self == s.servers[n].self
      && i in s'.servers[m].redirects && s'.servers[m].redirects[i] == s.servers[n].redirects[i]
  {
    RedirectOf(s, n, i);
    assert i <= s.servers[n].lastRID by { RecordOf(s, n); }
    hide Inv, ServerOk, Apply;
    if Leaves(s, op, n, true, i) {
      RedirectLeft(s, op, n, i);
    } else if op.InitRedirect? {
      HeldNotRun(s, n, i, op.got);
    } else {
      StartedRefuses(s, op, n, i);
    }
  }

  lemma HeldNotRun(s: State, n: string, i: nat, got: Option<Port>)
    requires n in s.servers && i in s.servers[n].redirects && s.servers[n].redirects[i].port.Some?
    ensures Apply(s, InitRedirect(n, i, got)).0 == s
  {
  }

  lemma PortKeptByStop(s: State, op: Op, h: Port, n: string)
    requires Inv(s) && h in s.live && Referenced(s, h, n)
    requires op.StopRedirect? && op != StopRedirect(n, s.live[h].id)
    ensures h in Apply(s, op).0.live && Apply(s, op).0.live[h] == s.live[h]
  {
    hide Inv, ServerOk;
    if op.name in s.servers && op.id in s.servers[op.name].redirects {
      RedirectOf(s, op.name, op.id);
      if op.name != n { OtherRecords(s, n, op.name); }
    }
  }

  lemma OtherRecords(s: State, m: string, n: string)
    requires Inv(s) && m in s.servers && n in s.servers && m != n
    ensures s.servers[m].self != s.servers[n].self
  {
    hide ServerOk;
  }

  /** Nobody but a stop takes a Port out of the registry. */
  lemma LiveGrows(s: State, op: Op)
    requires !op.StopRedirect? && Possible(s, op)
    ensures forall h :: h in s.live ==> h in Apply(s, op).0.live && Apply(s, op).0.live[h] == s.live[h]
  {
  }

  /** In every run no operation but its own stop closes a redirect's Port or loses the record that
      holds it. */
  lemma PortKept(start: State, ops: seq<Op>, op: Op, h: Port, n: string)
    requires Run(start, ops + [op]) && h in After(start, ops).live && Referenced(After(start, ops), h, n)
    requires op != StopRedirect(n, After(start, ops).live[h].id)
    ensures var s, s' := After(start, ops), After(start, ops + [op]);
      h in s'.live && s'.live[h] == s.live[h] && Referenced(s', h, NameAfter(s, op, n))
  {
    var s := After(start, ops);
    LastStep(start, ops, op);
    RunKeeps(start, ops);
    hide Inv, Apply, Run, After, Possible;
    if op.StopRedirect? { PortKeptByStop(s, op, h, n); } else { LiveGrows(s, op); }
    RedirectKept(s, op, n, s.live[h].id);
  }

  lemma LastStep(start: State, ops: seq<Op>, op: Op)
    requires Run(start, ops + [op])
    ensures Run(start, ops) && Possible(After(start, ops), op)
    ensures After(start, ops + [op]) == Apply(After(start, ops), op).0
  {
    assert (ops + [op])[..|ops|] == ops;
  }

  /** In every run no operation but its own stop, or a reaper of its own record, parts a record from
      its running command. */
  lemma CommandKept(start: State, ops: seq<Op>, op: Op, n: string, i: nat)
    requires Run(start, ops + [op])
    requires var s := After(start, ops);
      && n in s.servers && i in s.servers[n].commands && s.servers[n].commands[i].unixCmd.Some?
      && op != StopCommand(n, i) && !(op.Reap? && op.self == s.servers[n].commands[i].self)
    ensures var s, s' := After(start, ops), After(start, ops + [op]);
      var m := NameAfter(s, op, n);
      && m in s'.servers && i in s'.servers[m].commands && s'.servers[m].commands[i] == s.servers[n].commands[i]
  {
    LastStep(start, ops, op);
    RunKeeps(start, ops);
    hide Run, After;
    CommandKeptByStep(After(start, ops), op, n, i);
  }

  lemma CommandKeptByStep(s: State, op: Op, n: string, i: nat)
    requires Inv(s) && Possible(s, op)
    requires n in s.servers && i in s.servers[n].commands && s.servers[n].commands[i].unixCmd.Some?
    requires op != StopCommand(n, i) && !(op.Reap? && op.self == s.servers[n].commands[i].self)
    ensures var s', m := Apply(s, op).0, NameAfter(s, op, n);
      && m in s'.servers && i in s'.servers[m].commands && s'.servers[m].commands[i] == s.servers[n].commands[i]
  {
    CommandOf(s, n, i);
    hide Inv, ServerOk, Apply;
    if Leaves(s, op, n, false, i) {
      CommandLeft(s, op, n, i);
    } else if op.InitCommand? {
      RunningNotRun(s, n, i, op.uc);
    } else {
      RunningRefuses(s, op, n, i);
    }
  }

  lemma RunningNotRun(s: State, n: string, i: nat, uc: Option<UnixCmd>)
    requires n in s.servers && i in s.servers[n].commands && s.servers[n].commands[i].unixCmd.Some?
    ensures Apply(s, InitCommand(n, i, uc)).0 == s
  {
  }

  /** The ids of one kind that server record `self` has given out. */
  ghost predicate Given(issued: set<Id>, self: nat, command: bool, i: nat) {
    if command then CommandId(self, i) in issued else RedirectId(self, i) in issued
  }

  ghost predicate AllBelow(issued: set<Id>, self: nat, command: bool, id: nat) {
    forall i: nat :: Given(issued, self, command, i) ==> i < id
  }

  ghost predicate NoneGiven(issued: set<Id>, self: nat, command: bool) {
    forall i: nat :: !Given(issued, self, command, i)
  }

  /** An id given out, to a redirect or to a command, was never given out before for that server, not
      even to a record since removed; this is so exactly until the 64-bit counter comes round. */
  lemma NewIdFresh(start: State, ops: seq<Op>, name: string, rd: RedirectData, cd: CommandData)
    requires Run(start, ops) && name in After(start, ops).servers
    ensures var s := After(start, ops);
      var v := s.servers[name];
      var rid, cid := (v.lastRID + 1) % IDS, (v.lastCID + 1) % IDS;
      && rid in Apply(s, AddRedirect(name, rd)).0.servers[name].redirects
      && cid in Apply(s, AddCommand(name, cd)).0.servers[name].commands
      && (AllBelow(s.issued, v.self, false, rid) <==> v.lastRID < IDS - 1 || NoneGiven(s.issued, v.self, false))
      && (AllBelow(s.issued, v.self, true, cid) <==> v.lastCID < IDS - 1 || NoneGiven(s.issued, v.self, true))
  {
    hide Run, After, Inv, Apply, AllBelow, NoneGiven;
    RunKeeps(start, ops);
    NewIdFreshIn(After(start, ops), name, rd, cd);
  }

  lemma NewIdFreshIn(s: State, name: string, rd: RedirectData, cd: CommandData)
    requires Inv(s) && name in s.servers
    ensures var v := s.servers[name];
      var rid, cid := (v.lastRID + 1) % IDS, (v.lastCID + 1) % IDS;
      && rid in Apply(s, AddRedirect(name, rd)).0.servers[name].redirects
      && cid in Apply(s, AddCommand(name, cd)).0.servers[name].commands
      && (AllBelow(s.issued, v.self, false, rid) <==> v.lastRID < IDS - 1 || NoneGiven(s.issued, v.self, false))
      && (AllBelow(s.issued, v.self, true, cid) <==> v.lastCID < IDS - 1 || NoneGiven(s.issued, v.self, true))
  {
    AddedIds(s, name, rd, cd);
    hide Inv, ServerOk, Apply, AllBelow, NoneGiven;
    IdsFresh(s, name);
  }

  lemma IdsFresh(s: State, name: string)
    requires Inv(s) && name in s.servers
    ensures var v := s.servers[name];
      && (AllBelow(s.issued, v.self, false, (v.lastRID + 1) % IDS) <==> v.lastRID < IDS - 1 || NoneGiven(s.issued, v.self, false))
      && (AllBelow(s.issued, v.self, true, (v.lastCID + 1) % IDS) <==> v.lastCID < IDS - 1 || NoneGiven(s.issued, v.self, true))
  {
    hide Inv, ServerOk, AllBelow, NoneGiven;
    CounterOk(s, name);
    IdFresh(s.issued, s.servers[name].self, false, s.servers[name].lastRID);
    IdFresh(s.issued, s.servers[name].self, true, s.servers[name].lastCID);
  }

  lemma AddedIds(s: State, name: string, rd: RedirectData, cd: CommandData)
    requires name in s.servers
    ensures (s.servers[name].lastRID + 1) % IDS in Apply(s, AddRedirect(name, rd)).0.servers[name].redirects
    ensures (s.servers[name].lastCID + 1) % IDS in Apply(s, AddCommand(name, cd)).0.servers[name].commands
  {
  }

  lemma IdFresh(issued: set<Id>, self: nat, command: bool, last: nat)
    requires last < IDS && forall i: nat :: Given(issued, self, command, i) ==> i <= last
    ensures AllBelow(issued, self, command, (last + 1) % IDS) <==> last < IDS - 1 || NoneGiven(issued, self, command)
  {
  }

  // ---------- what a redirect matches ----------

  /** The names that some line of a match list accepts. */
  ghost predicate ListAccepts(ms: seq<Match>, name: seq<byte>) {
    exists i :: 0 <= i < |ms| && Accepts(ms[i], name)
  }

  ghost predicate SameNames(a: seq<Match>, b: seq<Match>) {
    forall name :: ListAccepts(a, name) <==> ListAccepts(b, name)
  }

  /** In every run a redirect, and the Port it holds, match exactly the names of the list that the
      redirect was made with, when it was added or the file was read. So it matches the names of the
      list it shows exactly if the two lists accept the same names. */
  lemma MatchesAsMade(start: State, ops: seq<Op>, n: string, i: nat)
    requires Run(start, ops) && n in After(start, ops).servers && i in After(start, ops).servers[n].redirects
    ensures var r := After(start, ops).servers[n].redirects[i];
      && (forall name :: MatchService(r.matcher, name) <==> ListAccepts(r.made, name))
      && (r.port.Some? ==> forall name :: MatchService(r.port.value.service.matcher, name) <==> ListAccepts(r.made, name))
      && ((forall name :: MatchService(r.matcher, name) <==> ListAccepts(r.data.hosts, name)) <==> SameNames(r.made, r.data.hosts))
  {
    RunKeeps(start, ops);
    RedirectOf(After(start, ops), n, i);
    hide Run, After, Inv;
    var r := After(start, ops).servers[n].redirects[i];
    forall name ensures MatchService(r.matcher, name) <==> ListAccepts(r.made, name) { MatchListMeaning(r.made, name); }
  }

  /** Only a new record has a new matcher. After a redirect is modified, it accepts what its new list
      accepts if and only if the new list accepts the same names as the list it was made with; and
      so it will be started. */
  lemma ModifyTakesEffect(start: State, ops: seq<Op>, n: string, i: nat, rd: RedirectData)
    requires Run(start, ops + [ModifyRedirect(n, i, rd)])
    requires n in After(start, ops).servers && i in After(start, ops).servers[n].redirects
    requires !After(start, ops).servers[n].redirects[i].start
    ensures var s, s' := After(start, ops), After(start, ops + [ModifyRedirect(n, i, rd)]);
      var r := s'.servers[n].redirects[i];
      && r.data == rd && r.made == s.servers[n].redirects[i].made
      && ((forall name :: MatchService(r.matcher, name) <==> ListAccepts(rd.hosts, name)) <==>
            SameNames(s.servers[n].redirects[i].made, rd.hosts))
  {
    LastStep(start, ops, ModifyRedirect(n, i, rd));
    MatchesAsMade(start, ops + [ModifyRedirect(n, i, rd)], n, i);
  }
}
