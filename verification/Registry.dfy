/** The shared registry of bound ports: proxy.go. */
module Registry {
  import opened Bytes
  import opened Dispatch

  /** One registrant. Every redirect and every command has a service object of its own. */
  class Service {
    const matcher: Matcher

    constructor (matcher: Matcher)
      ensures this.matcher == matcher
    {
      this.matcher := matcher;
    }
  }

  class Port {
    const service: Service
    const port: uint16
    var closed: bool

    constructor (service: Service, port: uint16)
      ensures this.service == service && this.port == port && !closed
    {
      this.service, this.port, closed := service, port, false;
    }
  }

  /** `port` is the number that its socket is bound to. */
  class Listener {
    const port: uint16
    var ports: set<Port>

    constructor (port: uint16)
      ensures ports == {} && this.port == port
    {
      this.port := port;
      ports := {};
    }
  }

  class Listeners {
    var listeners: map<uint16, Listener>
    var bound: set<uint16>         // what the operating system has bound for this process
    var stuck: bool                // lMu was left locked
    ghost var all: set<Port>       // every Port ever made
    ghost var live: set<Port>      // those not yet closed
    ghost var cells: set<Listener> // every Listener ever made
    ghost var dead: set<uint16>    // entries whose accept loop has failed: the socket is gone

    constructor ()
      ensures Valid() && all == {} && live == {} && cells == {} && dead == {} && bound == {} && !stuck
    {
      listeners, bound, stuck := map[], {}, false;
      all, live, cells, dead := {}, {}, {}, {};
    }

    /** The entry of its number, and not one that was taken out or replaced since. */
    predicate Current(l: Listener)
      reads this
    {
      l.port in listeners && listeners[l.port] == l
    }

    ghost predicate Valid()
      reads this, cells, all
      ensures Valid() ==> live <= all
    {
      ValidBut(0)
    }

    /** In order, except that the listener of port `n` may have no Port. Port 0 is never listened
        on. A listener that is no longer an entry has no Ports. */
    ghost predicate ValidBut(n: uint16)
      reads this, cells, all
    {
      && bound == listeners.Keys - dead && dead <= listeners.Keys && 0 !in listeners
      && live <= all
      && (forall p :: p in all ==> p.closed == (p !in live))
      && (forall k :: k in listeners ==>
            && listeners[k] in cells && listeners[k].port == k
            && (k == n || k in dead || listeners[k].ports != {}))
      && (forall l :: l in cells && !Current(l) ==> l.ports == {})
      && (forall l :: l in cells ==> forall p :: p in l.ports ==> p in live && p.port == l.port)
      && (forall p :: p in live ==> p.port in listeners && p in listeners[p.port].ports)
    }

    /** The numbers bound are exactly those of the ports not yet closed, but for numbers whose
        accept loop failed; and each open port stands in exactly one listener's set, that of its
        number. */
    lemma BoundExactly(n: uint16)
      requires Valid()
      ensures n in bound <==> n !in dead && exists p :: p in all && !p.closed && p.port == n
      ensures forall p, l :: p in all && !p.closed && l in cells ==> (p in l.ports <==> Current(l) && l.port == p.port)
      ensures forall p :: p in all && !p.closed ==> p.port in listeners && listeners[p.port] in cells
    {
      if n in bound {
        var p :| p in listeners[n].ports;
        assert listeners[n] in cells;
        assert p in all && !p.closed && p.port == n;
      }
    }

    /** Without an entry the number has to be bound; with one the Port joins it, even if its accept
        loop has failed: then the Port is open and nothing listens for it. */
    method AddPort(port: uint16, service: Service, bindOk: bool) returns (r: Option<Port>)
      requires Valid() && !stuck
      modifies this, cells
      ensures var join := old(port in listeners);
        && r.None? == (port == 0 || (!join && !bindOk))
        && stuck == (port != 0 && !join && !bindOk)
      ensures r.None? ==> listeners == old(listeners) && bound == old(bound) && all == old(all) && live == old(live)
      ensures r.Some? ==>
        && fresh(r.value) && r.value.port == port && r.value.service == service && !r.value.closed
        && all == old(all) + {r.value} && live == old(live) + {r.value}
        && listeners.Keys == old(listeners.Keys) + {port} && bound == listeners.Keys - dead
      ensures Valid() && dead == old(dead) && old(cells) <= cells && fresh(cells - old(cells))
    {
      if port == 0 {
        return None;
      }
      if port !in listeners {
        if !bindOk {
          stuck := true;
          return None;
        }
        Bind(port);
      }
      var p := new Port(service, port);
      Insert(p);
      return Some(p);
    }

    /** net.ListenTCP succeeds: the port is bound and its listener made. */
    method Bind(port: uint16)
      requires Valid() && port != 0 && port !in listeners
      modifies this`listeners, this`bound, this`cells
      ensures ValidBut(port) && listeners.Keys == old(listeners.Keys) + {port} && bound == listeners.Keys - dead
      ensures old(cells) <= cells && fresh(cells - old(cells))
    {
      var l := new Listener(port);
      cells := cells + {l};
      bound := bound + {port};
      listeners := listeners[port := l];
    }

    /** l.ports[p] = struct{}{} */
    method Insert(p: Port)
      requires ValidBut(p.port) && p.port in listeners && !p.closed && p !in all
      modifies this`all, this`live, cells
      ensures Valid() && all == old(all) + {p} && live == old(live) + {p}
    {
      var l := listeners[p.port];
      l.ports := l.ports + {p};
      all, live := all + {p}, live + {p};
      assert forall k :: k in cells && k != l ==> k.ports == old(k.ports);
    }

    /** The last Port of a number takes its entry with it, alive or dead. */
    method Close(p: Port)
      requires Valid() && !stuck && p in all
      modifies this`listeners, this`bound, this`live, this`dead, cells, p
      ensures Valid() && p.closed && live == old(live) - {p} && dead <= old(dead)
      ensures old(p.closed) ==> unchanged(this)
      ensures !old(p.closed) ==>
        listeners.Keys == if exists q :: q in live && q.port == p.port then old(listeners.Keys) else old(listeners.Keys) - {p.port}
    {
      NotLive(p);
      hide Valid, ValidBut;
      if !p.closed {
        var last := Remove(p);
        if last {
          Unbind(p.port);
        }
      }
    }

    lemma NotLive(p: Port)
      requires Valid() && p in all
      ensures p.closed == (p !in live)
    {
    }

    /** delete(l.ports, p); p.closed = true. Both are done before lMu is released. */
    method Remove(p: Port) returns (last: bool)
      requires Valid() && p in live
      modifies this`live, cells, p
      ensures p.closed && live == old(live) - {p} && p.port in listeners
      ensures last <==> !exists q :: q in live && q.port == p.port
      ensures if last then ValidBut(p.port) && listeners[p.port].ports == {} else Valid()
    {
      var l := listeners[p.port];
      l.ports := l.ports - {p};
      live := live - {p};
      p.closed := true;
      last := l.ports == {};
      assert forall k :: k in cells && k != l ==> k.ports == old(k.ports);
      if !last {
        var q :| q in l.ports;
        assert q in live && q.port == p.port;
      }
    }

    /** The last Port of a number is gone: the entry goes and the socket is closed. */
    method Unbind(n: uint16)
      requires ValidBut(n) && n in listeners && listeners[n].ports == {}
      modifies this`listeners, this`bound, this`dead
      ensures Valid() && listeners == old(listeners) - {n} && dead == old(dead) - {n}
    {
      listeners := listeners - {n};
      bound := bound - {n};
      dead := dead - {n};
    }

    /** The search of listener.transfer over the ports of the listener that accepted, in whatever
        order the map yields them. That listener may have been closed since, and its number bound
        anew by another: then it has no Ports, and none is found. */
    method Pick(l: Listener, name: seq<byte>) returns (r: Option<Port>)
      requires Valid() && l in cells
      ensures r.Some? ==> Fits(l, r.value, name)
      ensures r.None? ==> forall p :: p in live ==> !Fits(l, p, name)
    {
      var left := l.ports;
      while left != {}
        invariant left <= l.ports
        invariant forall p :: p in l.ports && p !in left ==> !MatchService(p.service.matcher, name)
        decreases |left|
      {
        var p :| p in left;
        if MatchService(p.service.matcher, name) {
          return Some(p);
        }
        left := left - {p};
      }
      return None;
    }

    /** Port `p` may have a connection for `name` that listener `l` accepted: it is open, the
        listener is the one that now serves its number, and its matcher accepts the name. */
    ghost predicate Fits(l: Listener, p: Port, name: seq<byte>)
      reads this
    {
      p in live && Current(l) && p.port == l.port && MatchService(p.service.matcher, name)
    }

    /** The accept loop fails: its Ports are closed and the socket is gone, but the entry stays,
        empty, and its number is dead until a Port has been added to it and closed again. */
    method AcceptFails(n: uint16)
      requires Valid() && n in listeners
      modifies this`bound, this`live, this`dead, listeners[n], listeners[n].ports
      ensures Valid() && listeners == old(listeners) && dead == old(dead) + {n} && bound == old(bound) - {n}
      ensures listeners[n].ports == {} && live == old(live - listeners[n].ports)
      ensures forall p :: p in all ==> (p.closed <==> old(p.closed) || p.port == n)
    {
      var l := listeners[n];
      Lose(n);
      while l.ports != {}
        invariant Valid() && Current(l) && l.port == n && n in dead
        invariant dead == old(dead) + {n} && bound == old(bound) - {n}
        invariant l.ports <= old(l.ports) && live == old(live) - (old(l.ports) - l.ports)
        decreases |l.ports|
      {
        hide Valid;
        var p :| p in l.ports;
        CloseOne(l, p);
      }
    }

    /** The socket of number `n` is closed. */
    method Lose(n: uint16)
      requires Valid() && n in listeners
      modifies this`bound, this`dead
      ensures Valid() && dead == old(dead) + {n} && bound == old(bound) - {n}
      ensures Current(listeners[n]) && listeners[n].port == n && listeners[n] in cells && listeners[n].ports <= all
      ensures forall p :: p in all && !p.closed ==> (p in listeners[n].ports <==> p.port == n)
    {
      bound := bound - {n};
      dead := dead + {n};
    }

    /** p.closed = true and delete(l.ports, p) */
    method CloseOne(l: Listener, p: Port)
      requires Valid() && l in cells && l.port in dead && Current(l) && p in l.ports
      modifies this`live, l, p
      ensures Valid() && p.closed && live == old(live) - {p} && l.ports == old(l.ports) - {p}
    {
      p.closed := true;
      live := live - {p};
      l.ports := l.ports - {p};
      assert forall k :: k in cells && k != l ==> k.ports == old(k.ports);
    }
  }
}
