/** The proxy's side of a child: UnixCmd of unix.go, on the shared registry. */
module Commands {
  import opened Bytes
  import opened Registry
  import Toggle

  /** The error text of addPort, which is never empty. */
  type Text = s: seq<byte> | |s| > 0 witness [1]

  /** Each entry of `open` is a live Port of its number that belongs to `srv`, and `srv` has no
      other live Port. */
  ghost predicate Owns(srv: Service, open: map<uint16, Port>, live: set<Port>) {
    && (forall k :: k in open ==> open[k] in live && open[k].port == k && open[k].service == srv)
    && (forall p :: p in live && p.service == srv ==> p.port in open && open[p.port] == p)
  }

  lemma OwnsLess(srv: Service, open: map<uint16, Port>, live: set<Port>, port: uint16)
    requires Owns(srv, open, live) && port in open
    ensures open[port] in live && Owns(srv, open - {port}, live - {open[port]})
  {
  }

  lemma OwnsMore(srv: Service, open: map<uint16, Port>, live: set<Port>, p: Port)
    requires Owns(srv, open, live) && p.service == srv && p.port !in open && p !in live
    ensures Owns(srv, open[p.port := p], live + {p})
  {
  }

  class UnixCmd {
    const registry: Listeners
    const srv: Service
    var open: map<uint16, Port>
    var closed: bool
    var exited: bool
    var sent: seq<seq<byte>> // the messages written on the socket pair

    constructor (registry: Listeners, srv: Service)
      requires registry.Valid() && forall p :: p in registry.live ==> p.service != srv
      ensures this.registry == registry && this.srv == srv && Valid() && !closed && sent == []
    {
      this.registry, this.srv := registry, srv;
      open, closed, exited, sent := map[], false, false, [];
    }

    ghost predicate Valid()
      reads this, registry
    {
      && Owns(srv, open, registry.live)
      && (closed ==> open == map[])
      && (exited ==> closed)
    }

    /** delete(u.open, port) and p.Close(), both before u.mu is released. */
    method Drop(port: uint16)
      requires registry.Valid() && Valid() && !registry.stuck && port in open
      modifies this`open, registry`listeners, registry`bound, registry`live, registry`dead, registry.cells, registry.all
      ensures registry.Valid() && Valid()
      ensures open == old(open - {port}) && registry.live == old(registry.live - {open[port]})
    {
      hide Listeners.Valid, Owns;
      OwnsLess(srv, open, registry.live, port);
      registry.Close(open[port]);
      open := open - {port};
    }

    /** The open branch of runCmdLoop: addPort, then the entry and the reply. */
    method Open(port: uint16, buf: seq<byte>, bindOk: bool, text: Text)
      requires registry.Valid() && Valid() && !registry.stuck && !closed && port !in open && |buf| >= 2
      modifies this`open, this`sent, registry, registry.cells
      ensures registry.Valid() && Valid() && old(registry.all) <= registry.all
      ensures fresh(registry.all - old(registry.all)) && fresh(registry.cells - old(registry.cells))
      ensures if port == 0 || (port !in old(registry.listeners) && !bindOk)
        then open == old(open) && sent == old(sent) + [buf[..2] + text]
             && registry.live == old(registry.live) && registry.stuck == (port != 0)
        else open.Keys == old(open.Keys) + {port} && fresh(open[port]) && open == old(open)[port := open[port]]
             && sent == old(sent) + [buf[..2]]
             && registry.live == old(registry.live) + {open[port]} && !registry.stuck
    {
      hide Listeners.Valid, Owns;
      ghost var live := registry.live;
      var r := registry.AddPort(port, srv, bindOk);
      match r {
        case None => sent := sent + [buf[..2] + text];
        case Some(p) =>
          OwnsMore(srv, open, live, p);
          open := open[port := p];
          sent := sent + [buf[..2]];
      }
    }

    /** One message read by runCmdLoop. */
    method Message(buf: seq<byte>, bindOk: bool, text: Text)
      requires registry.Valid() && Valid() && !registry.stuck
      modifies this`open, this`sent, registry, registry.cells, registry.all
      ensures registry.Valid() && Valid()
      ensures forall p :: p in old(registry.live) && p.service != srv ==> p in registry.live
      ensures forall p :: p in registry.live && p.service != srv ==> p in old(registry.live)
      ensures Handled(buf, closed, old(registry.listeners.Keys), bindOk, text, old(open), open, old(sent), sent, registry.stuck)
      ensures old(registry.all) <= registry.all
      ensures fresh(registry.all - old(registry.all)) && fresh(registry.cells - old(registry.cells))
    {
      hide Listeners.Valid;
      if |buf| < 2 || closed {
        return;
      }
      var port := Toggle.Decode(buf);
      if port in open {
        Drop(port);
      } else {
        Open(port, buf, bindOk, text);
      }
    }

    /** Every entry is taken out and its Port closed; everyone else's Ports stay. */
    method CloseAll()
      requires registry.Valid() && Valid() && !registry.stuck
      modifies this`open, registry`listeners, registry`bound, registry`live, registry`dead, registry.cells, registry.all
      ensures registry.Valid() && Valid() && open == map[]
      ensures registry.live <= old(registry.live)
      ensures forall p :: p in old(registry.live) ==> (p in registry.live <==> p.service != srv)
    {
      hide Listeners.Valid;
      while |open| > 0
        invariant registry.Valid() && Valid() && !registry.stuck
        invariant registry.live <= old(registry.live)
        invariant forall p :: p in old(registry.live) && p.service != srv ==> p in registry.live
        decreases |open|
      {
        var k :| k in open;
        Drop(k);
      }
    }

    /** UnixCmd.Close. The error of closing the socket goes before that of the signal. */
    method Close(signalOk: bool, closeOk: bool) returns (r: CloseResult)
      requires registry.Valid() && Valid() && !registry.stuck
      modifies this`open, this`closed, registry`listeners, registry`bound, registry`live, registry`dead, registry.cells, registry.all
      ensures registry.Valid() && Valid()
      ensures closed && open == map[] && exited == old(exited)
      ensures (r == ErrClosed <==> old(closed)) && (r == CloseOk <==> !old(closed) && signalOk && closeOk)
      ensures r == CloseFailed <==> !old(closed) && !closeOk
      ensures registry.live <= old(registry.live)
      ensures forall p :: p in old(registry.live) ==> (p in registry.live <==> p.service != srv)
    {
      if closed {
        return ErrClosed;
      }
      CloseAll();
      closed := true;
      return if !closeOk then CloseFailed else if !signalOk then SignalFailed else CloseOk;
    }

    /** The read of runCmdLoop fails: the child has gone, or the command was closed. */
    method EndOfStream()
      requires registry.Valid() && Valid() && !registry.stuck
      modifies this`open, this`closed, registry`listeners, registry`bound, registry`live, registry`dead, registry.cells, registry.all
      ensures registry.Valid() && Valid()
      ensures closed && exited == old(exited) && open == map[]
      ensures registry.live <= old(registry.live)
      ensures forall p :: p in old(registry.live) ==> (p in registry.live <==> p.service != srv)
    {
      if !closed {
        CloseAll();
        closed := true;
      }
    }

    /** runCmdLoop ends, after the process has. */
    method Exit()
      requires Valid() && closed
      modifies this`exited
      ensures Valid() && exited
    {
      exited := true;
    }
  }

  datatype CloseResult = CloseOk | ErrClosed | CloseFailed | SignalFailed

  /** What a message does to the command that sent it: `there` are the numbers that have an entry
      in the registry. Fewer than two bytes are ignored. */
  ghost predicate Handled(buf: seq<byte>, closed: bool, there: set<uint16>, bindOk: bool, text: Text,
    was: map<uint16, Port>, now: map<uint16, Port>, sent: seq<seq<byte>>, sent': seq<seq<byte>>, stuck: bool)
  {
    if |buf| < 2 || closed then now == was && sent' == sent && !stuck
    else
      var port := Toggle.Decode(buf);
      match Toggle.Choose(was.Keys, closed, port)
      case CloseIt => now == was - {port} && sent' == sent && !stuck
      case OpenIt =>
        if port == 0 || (port !in there && !bindOk)
        then now == was && sent' == sent + [buf[..2] + text] && stuck == (port != 0)
        else now.Keys == was.Keys + {port} && now == was[port := now[port]] && sent' == sent + [buf[..2]] && !stuck
      case Ignore => false
  }

  /** Everything that shares the registry: any number of commands and redirects. */
  class Proxy {
    const registry: Listeners
    ghost var cmds: set<UnixCmd>

    constructor ()
      ensures Valid() && cmds == {} && !registry.stuck && registry.all == {} && fresh(registry)
    {
      registry := new Listeners();
      cmds := {};
    }

    ghost predicate Valid()
      reads this, cmds, registry, registry.cells, registry.all
    {
      && registry.Valid()
      && (forall u :: u in cmds ==> u.registry == registry && u.Valid())
      && (forall u, v :: u in cmds && v in cmds && u != v ==> u.srv != v.srv)
    }

    method Start(srv: Service) returns (u: UnixCmd)
      requires Valid() && forall p :: p in registry.live ==> p.service != srv
      requires forall v :: v in cmds ==> v.srv != srv
      modifies this
      ensures Valid() && cmds == old(cmds) + {u} && fresh(u) && u.srv == srv && !u.closed
    {
      u := new UnixCmd(registry, srv);
      cmds := cmds + {u};
    }

    /** AddRedirect, for a service of the redirect's own. */
    method Redirect(port: uint16, srv: Service, bindOk: bool) returns (r: Option<Port>)
      requires Valid() && !registry.stuck && forall v :: v in cmds ==> v.srv != srv
      modifies registry, registry.cells
      ensures Valid()
      ensures registry.live == old(registry.live) + if r.Some? then {r.value} else {}
      ensures registry.all == old(registry.all) + if r.Some? then {r.value} else {}
      ensures fresh(registry.cells - old(registry.cells))
      ensures r.None? <==> port == 0 || (port !in old(registry.listeners) && !bindOk)
      ensures registry.stuck == (r.None? && port != 0)
      ensures r.Some? ==> fresh(r.value) && r.value.service == srv && r.value.port == port
    {
      hide Listeners.Valid;
      r := registry.AddPort(port, srv, bindOk);
    }

    method CloseRedirect(p: Port)
      requires Valid() && !registry.stuck && p in registry.all && forall v :: v in cmds ==> v.srv != p.service
      modifies registry`listeners, registry`bound, registry`live, registry`dead, registry.cells, p
      ensures Valid() && p.closed && registry.live == old(registry.live) - {p}
    {
      hide Listeners.Valid;
      registry.Close(p);
    }

    /** A message of one child: its own command changes as the protocol says, and nobody else's
        Ports come or go. */
    method Message(u: UnixCmd, buf: seq<byte>, bindOk: bool, text: Text)
      requires Valid() && !registry.stuck && u in cmds
      modifies u`open, u`sent, registry, registry.cells, registry.all
      ensures Valid() && fresh(registry.all - old(registry.all)) && fresh(registry.cells - old(registry.cells)) && old(registry.all) <= registry.all
      ensures forall p :: p in old(registry.live) && p.service != u.srv ==> p in registry.live
      ensures forall p :: p in registry.live && p.service != u.srv ==> p in old(registry.live)
      ensures Handled(buf, u.closed, old(registry.listeners.Keys), bindOk, text, old(u.open), u.open, old(u.sent), u.sent, registry.stuck)
    {
      hide Listeners.Valid;
      u.Message(buf, bindOk, text);
    }

    method CloseCommand(u: UnixCmd, signalOk: bool, closeOk: bool) returns (r: CloseResult)
      requires Valid() && !registry.stuck && u in cmds
      modifies u`open, u`closed, registry`listeners, registry`bound, registry`live, registry`dead, registry.cells, registry.all
      ensures Valid()
      ensures registry.live <= old(registry.live)
      ensures forall p :: p in old(registry.live) ==> (p in registry.live <==> p.service != u.srv)
      ensures u.closed && u.open == map[] && (r == ErrClosed <==> old(u.closed))
    {
      hide Listeners.Valid;
      r := u.Close(signalOk, closeOk);
    }

    method ChildGone(u: UnixCmd)
      requires Valid() && !registry.stuck && u in cmds
      modifies u`open, u`closed, registry`listeners, registry`bound, registry`live, registry`dead, registry.cells, registry.all
      ensures Valid()
      ensures registry.live <= old(registry.live)
      ensures forall p :: p in old(registry.live) ==> (p in registry.live <==> p.service != u.srv)
      ensures u.closed && u.open == map[]
    {
      hide Listeners.Valid;
      u.EndOfStream();
    }
  }
}
