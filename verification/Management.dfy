/** The management interface at work: the start-up of servers.go and the handlers of rpc.go change
    the configuration in place and open and close Ports of the shared registry, beside the children
    that do so too. Each is shown to do what Config.Apply says of its operation. */
module Management {
  import opened Bytes
  import opened Dispatch
  import opened Registry
  import opened Commands
  import opened Config

  /** What the file has of a server: the data of each record, and whether it is to be started. */
  datatype FileServer = FileServer(redirects: map<nat, (RedirectData, bool)>, commands: map<nat, (CommandData, bool)>)

  class Manager {
    const px: Commands.Proxy
    var servers: map<string, Server>
    var next: nat
    ghost var live: map<Port, Held>
    var down: bool // the process has ended
    ghost var issued: set<Id>
    ghost var serving: bool
    ghost var reapers: set<(nat, UnixCmd)>
    ghost var own: set<Service> // the services made for redirects
    ghost const start: Config.State // what the file was read into
    ghost var ops: seq<Op>          // and all that was done since

    ghost function State(): Config.State
      reads this
    {
      Config.State(servers, live, issued, next, serving, down, reapers)
    }

    /** The configuration has come about by a run of operations on what the file had, so that all that
        holds of runs holds of it. */
    ghost predicate Valid()
      reads this, px, px.cmds, px.registry, px.registry.cells, px.registry.all
    {
      Steady() && Run(start, ops) && State() == After(start, ops)
    }

    /** The configuration is in order, and what it says of Ports and commands is so: the registry's
        open Ports of redirects are those it knows of, and its commands are the proxy's. */
    ghost predicate Steady()
      reads this, px, px.cmds, px.registry, px.registry.cells, px.registry.all
    {
      && px.Valid() && Inv(State())
      && live.Keys == (set p | p in px.registry.live && p.service in own)
      && (forall u :: u in px.cmds ==> u.srv !in own)
      && (forall x :: x in reapers ==> x.1 in px.cmds)
    }

    /** The interface is being served. */
    ghost predicate Up()
      reads this
    {
      serving && !down
    }

    /** One more operation on record. */
    ghost method Note(op: Op)
      requires Run(start, ops) && Possible(After(start, ops), op)
      modifies this`ops
      ensures ops == old(ops) + [op] && Run(start, ops) && After(start, ops) == Apply(After(start, old(ops)), op).0
    {
      ops := ops + [op];
      assert ops[..|ops| - 1] == old(ops);
    }

    /** Redirect `i` of server `n` holds Port `p`. */
    ghost predicate Holds(n: string, i: nat, p: Port)
      reads this
    {
      n in servers && i in servers[n].redirects && servers[n].redirects[i].port == Some(p)
    }

    /** Command `i` of server `n` has a process. */
    ghost predicate Runs(n: string, i: nat)
      reads this
    {
      n in servers && i in servers[n].commands && servers[n].commands[i].unixCmd.Some?
    }

    /** The open Ports of redirects in the registry are exactly those that records of the
        configuration hold, one each, for the number the record shows; all other open Ports are no
        redirect's. */
    lemma PortsExactlyHeld()
      requires Steady()
      ensures forall p :: p in px.registry.live && p.service in own <==> exists n, i :: Holds(n, i, p)
      ensures forall n, i, m, j, p :: Holds(n, i, p) && Holds(m, j, p) ==> n == m && i == j
      ensures forall n, i, p :: Holds(n, i, p) ==> p.port in px.registry.listeners && p.port == servers[n].redirects[i].data.from
    {
      hide Commands.Proxy.Valid, Inv, ServerOk;
      forall n, i, p: Port | Holds(n, i, p) ensures p in live && live[p] == Held(servers[n].self, i) && p.port == servers[n].redirects[i].data.from {
        RedirectOf(State(), n, i);
      }
      forall p | p in px.registry.live && p.service in own ensures exists n, i :: Holds(n, i, p) {
        assert p in live.Keys;
        var n := ReferencedFrom(State(), p);
        assert Holds(n, live[p].id, p);
      }
      forall n, i, m, j, p: Port | Holds(n, i, p) && Holds(m, j, p) ensures n == m && i == j {
        if n != m { OtherRecords(State(), n, m); }
      }
      forall n, i, p: Port | Holds(n, i, p) ensures p in px.registry.live && p.service in own && p.port in px.registry.listeners {
        assert p in live.Keys;
        HasListener(p);
      }
    }

    lemma HasListener(p: Port)
      requires Steady() && p in live
      ensures p.port in px.registry.listeners && p in px.registry.live && p in px.registry.all
      ensures forall u :: u in px.cmds ==> u.srv != p.service
    {
    }

    // ---------- start-up ----------

    /** The file read: the records made, with their matchers, and the counters of server.Init. */
    constructor (px: Commands.Proxy, file: map<string, FileServer>)
      requires px.Valid() && forall n :: n in file ==> forall i :: i in file[n].redirects || i in file[n].commands ==> i < IDS
      ensures Valid() && this.px == px && own == {} && Loaded(State()) && servers.Keys == file.Keys
      ensures forall n :: n in file ==> Reads(file[n], servers[n])
    {
      var servers, next;
      ghost var issued;
      servers, next, issued := ReadFile(file);
      LoadedInOrder(Config.State(servers, map[], issued, next, false, false, {}));
      this.px, this.servers, this.next, this.issued := px, servers, next, issued;
      live, serving, down, reapers, own := map[], false, false, {}, {};
      start, ops := Config.State(servers, map[], issued, next, false, false, {}), [];
    }

    /** redirect.Init of a redirect that is to be started. */
    method InitRedirect(name: string, id: nat, resolves: bool, bindOk: bool) returns (o: Outcome, ghost got: Option<Port>)
      requires Valid() && !px.registry.stuck && !serving && !down
      modifies this, px.registry, px.registry.cells
      ensures (State(), o) == Apply(old(State()), Op.InitRedirect(name, id, got)) && Valid()
      ensures Possible(old(State()), Op.InitRedirect(name, id, got))
      ensures got.Some? <==> old(name in servers && id in servers[name].redirects && servers[name].redirects[id].start
        && Runnable(servers[name].redirects[id]) && resolves && (servers[name].redirects[id].data.from in px.registry.listeners || bindOk))
      ensures fresh(px.registry.cells - old(px.registry.cells)) && fresh(px.registry.all - old(px.registry.all))
    {
      hide Commands.Proxy.Valid, Listeners.Valid, Inv, Run, After, Possible, NewPort, ApplyToCommands, ApplyToServers;
      ghost var before := State();
      got := None;
      NoPort(before, name, id);
      InitPossible(before, name, id, got);
      if name !in servers {
        Note(Op.InitRedirect(name, id, got));
        return NoServer, got;
      }
      if id !in servers[name].redirects {
        Note(Op.InitRedirect(name, id, got));
        return UnknownRedirect, got;
      }
      if servers[name].redirects[id].start {
        got := RunRedirect(name, id, resolves, bindOk);
        InitPossible(before, name, id, got);
      }
      Note(Op.InitRedirect(name, id, got));
      return Done, got;
    }

    /** command.Init of a command that is to be started. */
    method InitCommand(name: string, id: nat, starts: bool) returns (o: Outcome, ghost uc: Option<UnixCmd>)
      requires Valid() && !serving && !down
      modifies this, px
      ensures (State(), o) == Apply(old(State()), Op.InitCommand(name, id, uc)) && Valid()
      ensures Possible(old(State()), Op.InitCommand(name, id, uc))
      ensures uc.Some? <==> starts && old(name in servers && id in servers[name].commands && servers[name].commands[id].start
        && servers[name].commands[id].unixCmd.None?)
    {
      hide Commands.Proxy.Valid, Listeners.Valid, Inv, Run, After, ApplyToRedirects, ApplyToServers;
      uc := None;
      if name !in servers {
        Note(Op.InitCommand(name, id, uc));
        return NoServer, uc;
      }
      if id !in servers[name].commands {
        Note(Op.InitCommand(name, id, uc));
        return UnknownCommand, uc;
      }
      if servers[name].commands[id].start {
        var started;
        started, uc := RunCommand(name, id, starts);
      }
      Note(Op.InitCommand(name, id, uc));
      return Done, uc;
    }

    /** redirect.Run. It is a new service each time, so that nobody else's Port is taken for its. */
    method RunRedirect(name: string, id: nat, resolves: bool, bindOk: bool) returns (ghost got: Option<Port>)
      requires Steady() && !px.registry.stuck && name in servers && id in servers[name].redirects
      modifies this`servers, this`live, this`own, px.registry, px.registry.cells
      ensures State() == Config.RunRedirect(old(State()), name, id, got) && Steady()
      ensures NewPort(old(State()), name, id, got)
      ensures var r := old(servers[name].redirects[id]);
        got.Some? <==> Runnable(r) && resolves && (r.data.from in old(px.registry.listeners) || bindOk)
      ensures got.Some? ==> fresh(got.value) && got.value in px.registry.live
      ensures fresh(px.registry.cells - old(px.registry.cells)) && fresh(px.registry.all - old(px.registry.all))
    {
      hide Commands.Proxy.Valid, Listeners.Valid, Inv, Run, After;
      got := None;
      var r := servers[name].redirects[id];
      if Runnable(r) && resolves {
        var p := OpenPort(r, bindOk);
        got := p;
        if p.Some? {
          TakePort(name, id, p.value);
        }
      }
    }

    /** reverseproxy.AddRedirect: the Port is open and known to nobody yet. */
    method OpenPort(r: Redirect, bindOk: bool) returns (p: Option<Port>)
      requires Steady() && !px.registry.stuck && r.data.from > 0
      modifies this`own, px.registry, px.registry.cells
      ensures px.Valid() && forall u :: u in px.cmds ==> u.srv !in own
      ensures (set q | q in px.registry.live && q.service in own) == live.Keys + if p.Some? then {p.value} else {}
      ensures p.Some? <==> r.data.from in old(px.registry.listeners) || bindOk
      ensures p.Some? ==> fresh(p.value) && p.value in px.registry.live && p.value.port == r.data.from && p.value.service.matcher == r.matcher
      ensures fresh(px.registry.cells - old(px.registry.cells)) && fresh(px.registry.all - old(px.registry.all))
    {
      hide Commands.Proxy.Valid, Listeners.Valid, Inv, Run, After;
      var srv := new Service(r.matcher);
      p := px.Redirect(r.data.from, srv, bindOk);
      own := own + {srv};
    }

    /** The record takes the Port up. */
    method TakePort(name: string, id: nat, p: Port)
      requires Inv(State()) && name in servers && id in servers[name].redirects
      requires Runnable(servers[name].redirects[id]) && NewPort(State(), name, id, Some(p))
      modifies this`servers, this`live
      ensures State() == Config.RunRedirect(old(State()), name, id, Some(p)) && Inv(State())
      ensures live == old(live)[p := Held(old(servers[name].self), id)]
    {
      hide Inv;
      RunRedirectKeeps(State(), name, id, Some(p));
      var serv := servers[name];
      var r := serv.redirects[id];
      r := r.(port := Some(p), start := true);
      servers := servers[name := serv.(redirects := serv.redirects[id := r])];
      live := live[p := Held(serv.self, id)];
    }

    /** command.Run. */
    method RunCommand(name: string, id: nat, starts: bool) returns (started: bool, ghost uc: Option<UnixCmd>)
      requires Steady() && name in servers && id in servers[name].commands
      modifies this`servers, this`reapers, px
      ensures State() == Config.RunCommand(old(State()), name, id, uc) && Steady()
      ensures started == (starts || old(servers[name].commands[id].unixCmd.Some?))
      ensures uc.Some? <==> starts && old(servers[name].commands[id].unixCmd.None?)
      ensures uc.Some? ==> fresh(uc.value) && px.cmds == old(px.cmds) + {uc.value} && uc.value.srv.matcher == old(servers[name].commands[id].matcher)
    {
      hide Listeners.Valid, Inv;
      uc := None;
      var serv := servers[name];
      var c := serv.commands[id];
      if c.unixCmd.Some? {
        return true, uc;
      }
      ghost var before := State();
      if starts {
        var srv := new Service(c.matcher);
        var u := px.Start(srv);
        uc := Some(u);
        c := c.(status := 1, unixCmd := Some(u), start := true);
        reapers := reapers + {(c.self, u)};
      } else {
        c := c.(status := 2);
      }
      servers := servers[name := serv.(commands := serv.commands[id := c])];
      RunCommandKeeps(before, name, id, uc);
      return starts, uc;
    }

    /** Start-up is over. */
    method Serve()
      requires Valid() && !serving && !down
      modifies this`serving, this`ops
      ensures (State(), Outcome.Done) == Apply(old(State()), Op.Serve) && Valid()
    {
      hide Commands.Proxy.Valid, Inv, Run, After;
      ghost var before := State();
      serving := true;
      StepKeeps(before, Op.Serve);
      Note(Op.Serve);
    }

    // ---------- the handlers ----------

    method Add(name: string, saveOk: bool) returns (o: Outcome)
      requires Valid() && Up()
      modifies this
      ensures (State(), o) == Saved(Apply(old(State()), Op.Add(name)), saveOk) && Valid() && own == old(own)
    {
      hide Commands.Proxy.Valid, Inv, Run, After, ApplyToRedirects, ApplyToCommands;
      StepKeeps(State(), Op.Add(name));
      Note(Op.Add(name));
      if name in servers {
        return NameExists;
      }
      servers := servers[name := Server(map[], map[], 0, 0, next)];
      next := next + 1;
      return Answer(saveOk);
    }

    method Rename(from: string, to: string, saveOk: bool) returns (o: Outcome)
      requires Valid() && Up()
      modifies this
      ensures (State(), o) == Saved(Apply(old(State()), Op.Rename(from, to)), saveOk) && Valid() && own == old(own)
    {
      hide Commands.Proxy.Valid, Inv, Run, After, ApplyToRedirects, ApplyToCommands;
      StepKeeps(State(), Op.Rename(from, to));
      Note(Op.Rename(from, to));
      if to in servers {
        return NameExists;
      }
      if from !in servers {
        return NoServer;
      }
      var serv := servers[from];
      servers := servers - {from};
      servers := servers[to := serv];
      return Answer(saveOk);
    }

    /** The two loops look at every redirect and every command before the server goes. */
    method Remove(name: string, saveOk: bool) returns (o: Outcome)
      requires Valid() && Up()
      modifies this
      ensures (State(), o) == Saved(Apply(old(State()), Op.Remove(name)), saveOk) && Valid() && own == old(own)
    {
      hide Commands.Proxy.Valid, Inv, Run, After, ApplyToRedirects, ApplyToCommands;
      StepKeeps(State(), Op.Remove(name));
      Note(Op.Remove(name));
      if name !in servers {
        return NoServer;
      }
      var idle := IsIdle(servers[name]);
      if !idle {
        return ServerRunning;
      }
      servers := servers - {name};
      return Answer(saveOk);
    }

    method AddRedirect(name: string, rd: RedirectData, saveOk: bool) returns (o: Outcome, id: nat)
      requires Valid() && Up() && IdsLeft(State(), Op.AddRedirect(name, rd))
      modifies this
      ensures (State(), o) == Saved(Apply(old(State()), Op.AddRedirect(name, rd)), saveOk) && Valid() && own == old(own)
      ensures name in old(servers) ==> name in servers && id in servers[name].redirects && id !in old(servers[name].redirects)
    {
      hide Possible, Commands.Proxy.Valid, Inv, Run, After, ApplyToCommands, ApplyToServers;
      AddPossible(State(), Op.AddRedirect(name, rd));
      StepKeeps(State(), Op.AddRedirect(name, rd));
      Note(Op.AddRedirect(name, rd));
      id := 0;
      if name !in servers {
        return NoServer, id;
      }
      NextIdUnused(State(), name);
      var serv := servers[name];
      id := (serv.lastRID + 1) % IDS;
      var matcher := BuildMatchService(rd.hosts);
      serv := serv.(lastRID := id, redirects := serv.redirects[id := Redirect(rd, matcher, rd.hosts, false, None)]);
      servers := servers[name := serv];
      issued := issued + {RedirectId(serv.self, id)};
      return Answer(saveOk), id;
    }

    method AddCommand(name: string, cd: CommandData, saveOk: bool) returns (o: Outcome, id: nat)
      requires Valid() && Up() && IdsLeft(State(), Op.AddCommand(name, cd))
      modifies this
      ensures (State(), o) == Saved(Apply(old(State()), Op.AddCommand(name, cd)), saveOk) && Valid() && own == old(own)
      ensures name in old(servers) ==> name in servers && id in servers[name].commands && id !in old(servers[name].commands)
    {
      hide Possible, Commands.Proxy.Valid, Inv, Run, After, ApplyToRedirects, ApplyToServers;
      AddPossible(State(), Op.AddCommand(name, cd));
      StepKeeps(State(), Op.AddCommand(name, cd));
      Note(Op.AddCommand(name, cd));
      id := 0;
      if name !in servers {
        return NoServer, id;
      }
      NextIdUnused(State(), name);
      var serv := servers[name];
      id := (serv.lastCID + 1) % IDS;
      var matcher := BuildMatchService(cd.hosts);
      serv := serv.(lastCID := id, commands := serv.commands[id := Command(cd, matcher, cd.hosts, false, 0, None, false, next)]);
      servers := servers[name := serv];
      issued := issued + {CommandId(serv.self, id)};
      next := next + 1;
      return Answer(saveOk), id;
    }

    /** The guard of getRedirect: it lets through what may be changed without losing a Port, and
        says why not otherwise. */
    method GetRedirect(name: string, id: nat) returns (o: Outcome)
      requires Steady()
      ensures o.Done? ==> name in servers && id in servers[name].redirects && servers[name].redirects[id].port.None?
      ensures forall op :: OfRedirect(op, name, id) ==>
        if o.Done? then Apply(State(), op).1 == Done else Apply(State(), op) == (State(), o)
    {
      hide Commands.Proxy.Valid, Inv, Run, After, ApplyToCommands, ApplyToServers;
      if name !in servers {
        return NoServer;
      }
      if id !in servers[name].redirects {
        return UnknownRedirect;
      }
      RedirectOf(State(), name, id);
      return if servers[name].redirects[id].start then ServerRunning else Done;
    }

    /** The guard of getCommand: nothing that runs is lost. */
    method GetCommand(name: string, id: nat) returns (o: Outcome)
      requires Steady()
      ensures o.Done? ==> name in servers && id in servers[name].commands && servers[name].commands[id].unixCmd.None?
      ensures o in {Done, NoServer, UnknownCommand, ServerRunning}
      ensures forall op :: OfCommand(op, name, id) ==>
        if o.Done? then Apply(State(), op).1 in {Done, StartFailed} else Apply(State(), op) == (State(), o)
    {
      hide Commands.Proxy.Valid, Inv, Run, After, ApplyToRedirects, ApplyToServers;
      if name !in servers {
        return NoServer;
      }
      if id !in servers[name].commands {
        return UnknownCommand;
      }
      CommandOf(State(), name, id);
      return if servers[name].commands[id].status == 1 then ServerRunning else Done;
    }

    method ModifyRedirect(name: string, id: nat, rd: RedirectData, saveOk: bool) returns (o: Outcome)
      requires Valid() && Up()
      modifies this
      ensures (State(), o) == Saved(Apply(old(State()), Op.ModifyRedirect(name, id, rd)), saveOk) && Valid() && own == old(own)
    {
      hide Commands.Proxy.Valid, Inv, Run, After, ApplyToCommands, ApplyToServers;
      o := GetRedirect(name, id);
      assert OfRedirect(Op.ModifyRedirect(name, id, rd), name, id);
      StepKeeps(State(), Op.ModifyRedirect(name, id, rd));
      Note(Op.ModifyRedirect(name, id, rd));
      if o.Done? {
        var serv := servers[name];
        serv := serv.(redirects := serv.redirects[id := serv.redirects[id].(data := rd)]);
        servers := servers[name := serv];
        o := Answer(saveOk);
      }
    }

    method ModifyCommand(name: string, id: nat, cd: CommandData, saveOk: bool) returns (o: Outcome)
      requires Valid() && Up()
      modifies this
      ensures (State(), o) == Saved(Apply(old(State()), Op.ModifyCommand(name, id, cd)), saveOk) && Valid() && own == old(own)
    {
      hide Commands.Proxy.Valid, Inv, Run, After, ApplyToRedirects, ApplyToServers;
      o := GetCommand(name, id);
      assert OfCommand(Op.ModifyCommand(name, id, cd), name, id);
      StepKeeps(State(), Op.ModifyCommand(name, id, cd));
      Note(Op.ModifyCommand(name, id, cd));
      if o.Done? {
        var serv := servers[name];
        serv := serv.(commands := serv.commands[id := serv.commands[id].(data := cd)]);
        servers := servers[name := serv];
        o := Answer(saveOk);
      }
    }

    method RemoveRedirect(name: string, id: nat, saveOk: bool) returns (o: Outcome)
      requires Valid() && Up()
      modifies this
      ensures (State(), o) == Saved(Apply(old(State()), Op.RemoveRedirect(name, id)), saveOk) && Valid() && own == old(own)
    {
      hide Commands.Proxy.Valid, Inv, Run, After, ApplyToCommands, ApplyToServers;
      o := GetRedirect(name, id);
      assert OfRedirect(Op.RemoveRedirect(name, id), name, id);
      StepKeeps(State(), Op.RemoveRedirect(name, id));
      Note(Op.RemoveRedirect(name, id));
      if o.Done? {
        var serv := servers[name];
        servers := servers[name := serv.(redirects := serv.redirects - {id})];
        o := Answer(saveOk);
      }
    }

    method RemoveCommand(name: string, id: nat, saveOk: bool) returns (o: Outcome)
      requires Valid() && Up()
      modifies this
      ensures (State(), o) == Saved(Apply(old(State()), Op.RemoveCommand(name, id)), saveOk) && Valid() && own == old(own)
    {
      hide Commands.Proxy.Valid, Inv, Run, After, ApplyToRedirects, ApplyToServers;
      o := GetCommand(name, id);
      assert OfCommand(Op.RemoveCommand(name, id), name, id);
      StepKeeps(State(), Op.RemoveCommand(name, id));
      Note(Op.RemoveCommand(name, id));
      if o.Done? {
        var serv := servers[name];
        servers := servers[name := serv.(commands := serv.commands - {id})];
        o := Answer(saveOk);
      }
    }

    method StartRedirect(name: string, id: nat, resolves: bool, bindOk: bool, saveOk: bool)
      returns (o: Outcome, ghost got: Option<Port>)
      requires Valid() && Up() && !px.registry.stuck
      modifies this, px.registry, px.registry.cells
      ensures (State(), o) == Saved(Apply(old(State()), Op.StartRedirect(name, id, got)), saveOk) && Valid()
      ensures Possible(old(State()), Op.StartRedirect(name, id, got))
      ensures got.Some? <==> old(name in servers && id in servers[name].redirects && !servers[name].redirects[id].start
        && Runnable(servers[name].redirects[id]) && resolves && (servers[name].redirects[id].data.from in px.registry.listeners || bindOk))
      ensures fresh(px.registry.cells - old(px.registry.cells)) && fresh(px.registry.all - old(px.registry.all))
    {
      hide Commands.Proxy.Valid, Listeners.Valid, Inv, Run, After, Possible, NewPort, ApplyToCommands, ApplyToServers;
      o := GetRedirect(name, id);
      got := None;
      ghost var before := State();
      assert OfRedirect(Op.StartRedirect(name, id, None), name, id);
      if o.Done? {
        got := RunRedirect(name, id, resolves, bindOk);
        o := Answer(saveOk);
        StartsRedirect(before, name, id, got);
      } else {
        StartRefused(before, name, id, o);
        NoPort(before, name, id);
      }
      StartPossible(before, name, id, got);
      Note(Op.StartRedirect(name, id, got));
    }

    /** It fails exactly if the process was to start and did not. */
    method StartCommand(name: string, id: nat, starts: bool, saveOk: bool) returns (o: Outcome, ghost uc: Option<UnixCmd>)
      requires Valid() && Up()
      modifies this, px
      ensures (State(), o) == Saved(Apply(old(State()), Op.StartCommand(name, id, uc)), saveOk) && Valid()
      ensures Possible(old(State()), Op.StartCommand(name, id, uc))
      ensures uc.Some? <==> starts && old(name in servers && id in servers[name].commands && servers[name].commands[id].status != 1)
      ensures o == StartFailed <==> !starts && old(name in servers && id in servers[name].commands && servers[name].commands[id].status != 1)
    {
      hide Commands.Proxy.Valid, Listeners.Valid, Inv, Run, After, ApplyToRedirects, ApplyToServers;
      o := GetCommand(name, id);
      uc := None;
      ghost var before := State();
      assert OfCommand(Op.StartCommand(name, id, None), name, id);
      if o.Done? {
        var started;
        started, uc := RunCommand(name, id, starts);
        o := if started then Answer(saveOk) else StartFailed;
        StartsCommand(before, name, id, uc);
      } else {
        StartCommandRefused(before, name, id, o);
      }
      Note(Op.StartCommand(name, id, uc));
    }

    /** redirect.Stop, with its Shutdown: exactly the Port that this redirect holds is closed, if it
        holds one; every other open Port stays open. */
    method StopRecord(name: string, id: nat)
      requires Steady() && !px.registry.stuck && name in servers && id in servers[name].redirects
      modifies this`servers, this`live, px.registry`listeners, px.registry`bound, px.registry`live, px.registry`dead, px.registry.cells, px.registry.all
      ensures State() == Stopped(old(State()), name, id) && Steady()
      ensures px.registry.live == old(px.registry.live) - set p | p in old(px.registry.live) && old(Holds(name, id, p))
    {
      hide Commands.Proxy.Valid, Listeners.Valid, Inv, Run, After;
      StopKeeps(State(), name, id);
      RedirectOf(State(), name, id);
      var serv := servers[name];
      var r := serv.redirects[id].(start := false);
      if r.port.Some? {
        ClosePort(r.port.value);
        r := r.(port := None);
      }
      servers := servers[name := serv.(redirects := serv.redirects[id := r])];
    }

    /** r.port.Close() */
    method ClosePort(p: Port)
      requires Steady() && !px.registry.stuck && p in live
      modifies this`live, px.registry`listeners, px.registry`bound, px.registry`live, px.registry`dead, px.registry.cells, px.registry.all
      ensures px.Valid() && px.registry.live == old(px.registry.live) - {p} && live == old(live) - {p}
      ensures live.Keys == (set q | q in px.registry.live && q.service in own)
    {
      hide Commands.Proxy.Valid, Listeners.Valid, Inv, Run, After;
      HasListener(p);
      px.CloseRedirect(p);
      live := live - {p};
    }

    method StopRedirect(name: string, id: nat, saveOk: bool) returns (o: Outcome)
      requires Valid() && Up() && !px.registry.stuck
      modifies this, px.registry`listeners, px.registry`bound, px.registry`live, px.registry`dead, px.registry.cells, px.registry.all
      ensures (State(), o) == Saved(Apply(old(State()), Op.StopRedirect(name, id)), saveOk) && Valid()
      ensures px.registry.live == old(px.registry.live) - set p | p in old(px.registry.live) && old(Holds(name, id, p))
    {
      hide Commands.Proxy.Valid, Listeners.Valid, Inv, Run, After, ApplyToCommands, ApplyToServers;
      Note(Op.StopRedirect(name, id));
      if name !in servers {
        return NoServer;
      }
      if id !in servers[name].redirects {
        return UnknownRedirect;
      }
      if !servers[name].redirects[id].start {
        RedirectOf(State(), name, id);
        return ServerNotRunning;
      }
      StopRecord(name, id);
      return Answer(saveOk);
    }

    /** command.Stop, with its Shutdown: all Ports of the command that this record has are closed, and
        nobody else's. */
    method StopProcess(name: string, id: nat, signalOk: bool, closeOk: bool)
      requires Steady() && !px.registry.stuck && name in servers && id in servers[name].commands && servers[name].commands[id].status == 1
      modifies this`servers, px.cmds, px.registry`listeners, px.registry`bound, px.registry`live, px.registry`dead, px.registry.cells, px.registry.all
      ensures State() == StoppedCommand(old(State()), name, id) && Steady()
      ensures px.registry.live <= old(px.registry.live)
      ensures forall p :: p in old(px.registry.live) ==>
        (p in px.registry.live <==> !old(Runs(name, id)) || p.service != old(servers[name].commands[id].unixCmd.value.srv))
    {
      hide Commands.Proxy.Valid, Listeners.Valid, Inv, Run, After;
      StoppedCommandKeeps(State(), name, id);
      CommandOf(State(), name, id);
      var serv := servers[name];
      var c := serv.commands[id].(start := false);
      if c.unixCmd.Some? {
        c := c.(status := 0);
        var _ := px.CloseCommand(c.unixCmd.value, signalOk, closeOk);
        c := c.(unixCmd := None);
      }
      servers := servers[name := serv.(commands := serv.commands[id := c])];
    }

    method StopCommand(name: string, id: nat, signalOk: bool, closeOk: bool, saveOk: bool) returns (o: Outcome)
      requires Valid() && Up() && !px.registry.stuck
      modifies this, px.cmds, px.registry`listeners, px.registry`bound, px.registry`live, px.registry`dead, px.registry.cells, px.registry.all
      ensures (State(), o) == Saved(Apply(old(State()), Op.StopCommand(name, id)), saveOk) && Valid()
      ensures px.registry.live <= old(px.registry.live)
      ensures forall p :: p in old(px.registry.live) ==>
        (p in px.registry.live <==> !old(Runs(name, id)) || p.service != old(servers[name].commands[id].unixCmd.value.srv))
    {
      hide Commands.Proxy.Valid, Listeners.Valid, Inv, Run, After, ApplyToRedirects, ApplyToServers;
      Note(Op.StopCommand(name, id));
      if name !in servers {
        return NoServer;
      }
      if id !in servers[name].commands {
        return UnknownCommand;
      }
      if servers[name].commands[id].status != 1 {
        CommandOf(State(), name, id);
        return ServerNotRunning;
      }
      StopProcess(name, id, signalOk, closeOk);
      return Answer(saveOk);
    }

    /** The numbers that a running command has open; a record of status 1 without one makes it call
        Status on a nil command. */
    method CommandPorts(name: string, id: nat) returns (o: Outcome, ports: set<uint16>)
      requires Valid() && Up()
      modifies this`ops
      ensures (State(), o) == Apply(old(State()), Op.CommandPorts(name, id)) && Valid()
      ensures o.Done? ==> Runs(name, id) && ports == servers[name].commands[id].unixCmd.value.open.Keys
    {
      hide Commands.Proxy.Valid, Listeners.Valid, Inv, Run, After, ApplyToRedirects, ApplyToServers;
      Note(Op.CommandPorts(name, id));
      ports := {};
      if name !in servers {
        return NoServer, ports;
      }
      if id !in servers[name].commands {
        return UnknownCommand, ports;
      }
      var c := servers[name].commands[id];
      if c.status != 1 {
        return ServerNotRunning, ports;
      }
      if c.unixCmd.None? {
        return NilCommand, ports;
      }
      return Done, c.unixCmd.value.open.Keys;
    }

    // ---------- what goes on beside them ----------

    /** The goroutine of command.Run, once its process is gone. Of a record that does not know its
        server it cannot tell the name, and ends the process. */
    method Reap(self: nat, gone: UnixCmd)
      requires Valid() && !down && (self, gone) in reapers
      modifies this`servers, this`reapers, this`down, this`ops
      ensures (State(), Outcome.Done) == Apply(old(State()), Op.Reap(self, gone)) && Valid()
    {
      hide Commands.Proxy.Valid, Inv, Run, After, ApplyToRedirects, ApplyToCommands;
      ghost var before := State();
      StepKeeps(before, Op.Reap(self, gone));
      Note(Op.Reap(self, gone));
      var found := FindUnlinked(servers, self, gone);
      assert found == Unlinked(before, Op.Reap(self, gone));
      hide Unlinked;
      if found {
        down := true;
        return;
      }
      servers := ReapedServers(servers, self, gone);
      reapers := reapers - {(self, gone)};
    }

    /** A child opens or closes a port: the configuration and its Ports stay as they are. */
    method ChildMessage(u: UnixCmd, buf: seq<byte>, bindOk: bool, text: Text)
      requires Valid() && !down && !px.registry.stuck && u in px.cmds
      modifies u`open, u`sent, px.registry, px.registry.cells, px.registry.all
      ensures Valid() && State() == old(State())
      ensures forall p :: p in old(px.registry.live) && p.service in own ==> p in px.registry.live
    {
      hide Commands.Proxy.Valid, Listeners.Valid, Inv, Run, After;
      px.Message(u, buf, bindOk, text);
    }

    /** A child is gone: likewise, but its own Ports are closed. */
    method ChildGone(u: UnixCmd)
      requires Valid() && !down && !px.registry.stuck && u in px.cmds
      modifies u`open, u`closed, px.registry`listeners, px.registry`bound, px.registry`live, px.registry`dead, px.registry.cells, px.registry.all
      ensures Valid() && State() == old(State())
      ensures forall p :: p in old(px.registry.live) ==> (p in px.registry.live <==> p.service != u.srv)
    {
      hide Commands.Proxy.Valid, Listeners.Valid, Inv, Run, After;
      px.ChildGone(u);
    }
  }

  predicate FindUnlinked(servers: map<string, Server>, self: nat, gone: UnixCmd) {
    exists n | n in servers :: exists i | i in servers[n].commands :: OwnUnlinked(servers[n].commands[i], Op.Reap(self, gone))
  }

  function Answer(saveOk: bool): Outcome { if saveOk then Done else SaveFailed }

  /** The operations that getRedirect guards. */
  predicate OfRedirect(op: Op, name: string, id: nat) {
    (op.ModifyRedirect? || op.RemoveRedirect? || op.StartRedirect?) && op.name == name && op.id == id
  }

  /** And those that getCommand guards. */
  predicate OfCommand(op: Op, name: string, id: nat) {
    (op.ModifyCommand? || op.RemoveCommand? || op.StartCommand?) && op.name == name && op.id == id
  }

  lemma StartsRedirect(s: State, name: string, id: nat, got: Option<Port>)
    requires Apply(s, Op.StartRedirect(name, id, None)).1 == Done
    ensures name in s.servers && id in s.servers[name].redirects
    ensures !s.servers[name].redirects[id].start
    ensures Apply(s, Op.StartRedirect(name, id, got)) == (Config.RunRedirect(s, name, id, got), Done)
  {
  }

  lemma StartPossible(s: State, name: string, id: nat, got: Option<Port>)
    requires s.serving && !s.down && NewPort(s, name, id, got)
    ensures Possible(s, Op.StartRedirect(name, id, got))
  {
  }

  lemma InitPossible(s: State, name: string, id: nat, got: Option<Port>)
    requires !s.serving && !s.down && NewPort(s, name, id, got)
    ensures Possible(s, Op.InitRedirect(name, id, got))
  {
  }

  lemma AddPossible(s: State, op: Op)
    requires s.serving && !s.down && IdsLeft(s, op) && (op.AddRedirect? || op.AddCommand?)
    ensures Possible(s, op)
  {
  }

  lemma NoPort(s: State, name: string, id: nat)
    ensures NewPort(s, name, id, None)
  {
  }

  lemma StartRefused(s: State, name: string, id: nat, o: Outcome)
    requires Apply(s, Op.StartRedirect(name, id, None)) == (s, o) && o != Done
    ensures !(name in s.servers && id in s.servers[name].redirects && !s.servers[name].redirects[id].start)
  {
  }

  lemma StartCommandRefused(s: State, name: string, id: nat, o: Outcome)
    requires Apply(s, Op.StartCommand(name, id, None)) == (s, o) && o != Done && o != StartFailed
    ensures !(name in s.servers && id in s.servers[name].commands && s.servers[name].commands[id].status != 1)
  {
  }

  lemma StartsCommand(s: State, name: string, id: nat, uc: Option<UnixCmd>)
    requires Apply(s, Op.StartCommand(name, id, None)).1 in {Done, StartFailed}
    ensures name in s.servers && id in s.servers[name].commands && s.servers[name].commands[id].status != 1
    ensures Apply(s, Op.StartCommand(name, id, uc)) ==
      (Config.RunCommand(s, name, id, uc), if uc.Some? || s.servers[name].commands[id].unixCmd.Some? then Done else StartFailed)
  {
  }

  /** The two loops of remove. */
  method IsIdle(serv: Server) returns (idle: bool)
    ensures idle == Idle(serv)
  {
    var left := serv.redirects.Keys;
    while left != {}
      invariant left <= serv.redirects.Keys && forall i :: i in serv.redirects && i !in left ==> !serv.redirects[i].start
      decreases |left|
    {
      var i :| i in left;
      if serv.redirects[i].start {
        return false;
      }
      left := left - {i};
    }
    left := serv.commands.Keys;
    while left != {}
      invariant left <= serv.commands.Keys && forall i :: i in serv.commands && i !in left ==> serv.commands[i].status == 0
      decreases |left|
    {
      var i :| i in left;
      if serv.commands[i].status != 0 {
        return false;
      }
      left := left - {i};
    }
    return true;
  }

  // ---------- reading the file ----------

  function NewRedirect(x: (RedirectData, bool)): Redirect {
    Redirect(x.0, MakeMatchService(x.0.hosts), x.0.hosts, x.1, None)
  }

  /** A server's records are what the file has of them, with their matchers, and hold nothing. */
  ghost predicate Reads(f: FileServer, v: Server) {
    && v.redirects.Keys == f.redirects.Keys && v.commands.Keys == f.commands.Keys
    && (forall i :: i in f.redirects ==> ReadsRedirect(f.redirects[i], v.redirects[i]))
    && (forall i :: i in f.commands ==> ReadsCommand(f.commands[i], v.commands[i]))
  }

  /** With the data and the start flag that the file has, and the matcher of its list. */
  ghost predicate ReadsRedirect(x: (RedirectData, bool), r: Redirect) {
    r.data == x.0 && r.start == x.1 && r.port == None && r.made == x.0.hosts && r.matcher == MakeMatchService(x.0.hosts)
  }

  ghost predicate ReadsCommand(x: (CommandData, bool), c: Command) {
    && c.data == x.0 && c.start == x.1 && c.status == 0 && c.unixCmd == None && c.linked
    && c.made == x.0.hosts && c.matcher == MakeMatchService(x.0.hosts)
  }

  /** The loop of server.Init over one kind of record: the counter starts at the highest id there is. */
  method LastId(ids: set<nat>) returns (last: nat)
    ensures forall i :: i in ids ==> i <= last
    ensures last == 0 || last in ids
  {
    last := 0;
    var left := ids;
    while left != {}
      invariant left <= ids && (last == 0 || last in ids)
      invariant forall i :: i in ids && i !in left ==> i <= last
      decreases |left|
    {
      var id :| id in left;
      if id > last {
        last := id;
      }
      left := left - {id};
    }
  }

  method ReadCommands(file: map<nat, (CommandData, bool)>, next: nat) returns (cs: map<nat, Command>, next': nat)
    ensures cs.Keys == file.Keys && next' >= next
    ensures forall i :: i in file ==> ReadsCommand(file[i], cs[i]) && cs[i].self < next'
  {
    cs, next' := map[], next;
    var left := file.Keys;
    while left != {}
      invariant left <= file.Keys && cs.Keys == file.Keys - left && next' >= next
      invariant forall i :: i in cs ==> ReadsCommand(file[i], cs[i]) && cs[i].self < next'
      decreases |left|
    {
      var i :| i in left;
      var matcher := BuildMatchService(file[i].0.hosts);
      cs := cs[i := Command(file[i].0, matcher, file[i].0.hosts, file[i].1, 0, None, true, next')];
      next' := next' + 1;
      left := left - {i};
    }
  }

  method ReadServer(f: FileServer, next: nat) returns (v: Server, next': nat)
    requires forall i :: i in f.redirects || i in f.commands ==> i < IDS
    ensures Reads(f, v) && v.self == next && next' > next
    ensures v.lastRID < IDS && v.lastCID < IDS
    ensures (v.lastRID == 0 || v.lastRID in v.redirects) && (v.lastCID == 0 || v.lastCID in v.commands)
    ensures (forall i :: i in v.redirects ==> i <= v.lastRID) && (forall i :: i in v.commands ==> i <= v.lastCID && v.commands[i].self < next')
  {
    var rs := map i | i in f.redirects :: NewRedirect(f.redirects[i]);
    var cs;
    cs, next' := ReadCommands(f.commands, next + 1);
    var lastRID := LastId(rs.Keys);
    var lastCID := LastId(cs.Keys);
    v := Server(rs, cs, lastRID, lastCID, next);
  }

  /** The loop of servers.Init over the servers, with all of it that starts nothing. */
  method ReadFile(file: map<string, FileServer>) returns (servers: map<string, Server>, next: nat, ghost issued: set<Id>)
    requires forall n :: n in file ==> forall i :: i in file[n].redirects || i in file[n].commands ==> i < IDS
    ensures Loaded(Config.State(servers, map[], issued, next, false, false, {})) && servers.Keys == file.Keys
    ensures forall n :: n in file ==> Reads(file[n], servers[n])
  {
    hide Loaded, Reads;
    servers, next, issued := map[], 0, {};
    ghost var s := Config.State(map[], map[], {}, 0, false, false, {});
    NoneLoaded(s);
    var left := file.Keys;
    while left != {}
      invariant left <= file.Keys && servers.Keys == file.Keys - left
      invariant s == Config.State(servers, map[], issued, next, false, false, {}) && Loaded(s)
      invariant forall n :: n in servers ==> Reads(file[n], servers[n])
      decreases |left|
    {
      var n :| n in left;
      ghost var before := s;
      var v, k := ReadServer(file[n], next);
      servers, next := servers[n := v], k;
      issued := issued + IdsOf(v);
      left := left - {n};
      s := Config.State(servers, map[], issued, next, false, false, {});
      OneMoreLoaded(before, s, n, file[n]);
    }
  }

  lemma NoneLoaded(s: State)
    requires s == Config.State(map[], map[], {}, 0, false, false, {})
    ensures Loaded(s)
  {
  }

  /** The ids of a server's records. */
  ghost function IdsOf(v: Server): set<Id> {
    (set i | i in v.redirects :: RedirectId(v.self, i)) + set i | i in v.commands :: CommandId(v.self, i)
  }

  lemma StaysLoaded(s: State, s': State, v: Server)
    requires LoadedServer(s, v) && s.next <= s'.next
    requires v.self < s.next ==> forall i: nat :: RedirectId(v.self, i) in s.issued <==> RedirectId(v.self, i) in s'.issued
    requires v.self < s.next ==> forall i: nat :: CommandId(v.self, i) in s.issued <==> CommandId(v.self, i) in s'.issued
    ensures LoadedServer(s', v) && v.self < s.next
  {
  }

  lemma ReadLoaded(s: State, v: Server, f: FileServer)
    requires Reads(f, v) && v.self < s.next && v.lastRID < IDS && v.lastCID < IDS
    requires (v.lastRID == 0 || v.lastRID in v.redirects) && (v.lastCID == 0 || v.lastCID in v.commands)
    requires forall i :: i in v.redirects ==> i <= v.lastRID
    requires forall i :: i in v.commands ==> i <= v.lastCID && v.commands[i].self < s.next
    requires forall i: nat :: RedirectId(v.self, i) in s.issued <==> i in v.redirects
    requires forall i: nat :: CommandId(v.self, i) in s.issued <==> i in v.commands
    ensures LoadedServer(s, v)
  {
  }

  /** Another server read. */
  lemma OneMoreLoaded(s: State, s': State, n: string, f: FileServer)
    requires Loaded(s) && n !in s.servers && n in s'.servers && s' == s.(servers := s.servers[n := s'.servers[n]], next := s'.next,
      issued := s.issued + IdsOf(s'.servers[n]))
    requires var v := s'.servers[n];
      && Reads(f, v) && v.self == s.next < s'.next && v.lastRID < IDS && v.lastCID < IDS
      && (v.lastRID == 0 || v.lastRID in v.redirects) && (v.lastCID == 0 || v.lastCID in v.commands)
      && (forall i :: i in v.redirects ==> i <= v.lastRID)
      && (forall i :: i in v.commands ==> i <= v.lastCID && v.commands[i].self < s'.next)
    ensures Loaded(s')
  {
    hide LoadedServer;
    ReadLoaded(s', s'.servers[n], f);
    forall m | m in s.servers ensures LoadedServer(s', s.servers[m]) { StaysLoaded(s, s', s.servers[m]); }
    assert forall m :: m in s.servers ==> s.servers[m].self < s.next by {
      forall m | m in s.servers ensures s.servers[m].self < s.next { StaysLoaded(s, s, s.servers[m]); }
    }
  }
}
