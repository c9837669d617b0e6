/** The locks of the proxy process, every path of code that takes them, and what it does under them. */
module Locks {
  datatype Lock = ConfigMu | CmdMu(u: nat) | LMu | ListenerMu(k: nat) | ConnMu

  /** The order in which all code takes them. */
  function Rank(l: Lock): nat {
    match l
    case ConfigMu => 0
    case CmdMu(_) => 1
    case LMu => 2
    case ListenerMu(_) => 3
    case ConnMu => 4
  }

  /** What threads share: the map of listeners, the set of Ports of listener `k` and their closed
      flags, what a command has open and its flags, the configuration, and the set of sockets. */
  datatype Data = Table | Ports(k: nat) | Flags(k: nat) | Command(u: nat) | Records | Sockets

  function Guard(d: Data): Lock {
    match d
    case Table => LMu
    case Ports(k) => ListenerMu(k)
    case Flags(_) => LMu
    case Command(u) => CmdMu(u)
    case Records => ConfigMu
    case Sockets => ConnMu
  }

  /** `BindFails` is net.ListenTCP's error in addPort, which then returns with lMu still locked. */
  datatype Act = Take(l: Lock, shared: bool) | Give(l: Lock) | Touch(d: Data, write: bool) | BindFails

  // ---------- the code, path by path ----------

  /** Port.Close on a listener's port, open or closed already. */
  function ClosePort(k: nat, open: bool): seq<Act> {
    Within(LMu, false, [Touch(Flags(k), false)] + if open then Unlist(k) + [Touch(Flags(k), true)] else [])
  }

  /** The listener's entry goes with its last Port, while both locks are held. */
  function Unlist(k: nat): seq<Act> {
    [Touch(Table, false)] + Within(ListenerMu(k), false, [Touch(Ports(k), true), Touch(Table, true)])
  }

  /** addPort: lMu is released before the listener's own lock is taken; port 0 takes none. */
  function AddPort(k: nat, ok: bool): seq<Act> {
    if k == 0 then []
    else if ok then Within(LMu, false, [Touch(Table, true)]) + Within(ListenerMu(k), false, [Touch(Ports(k), true)])
    else [Take(LMu, false), Touch(Table, false), BindFails]
  }

  /** Each of the ports that a command has open. */
  function CloseEach(u: nat, ks: seq<nat>): seq<Act> {
    if |ks| == 0 then [] else [Touch(Command(u), true)] + ClosePort(ks[0], true) + CloseEach(u, ks[1..])
  }

  /** UnixCmd.Close, and the end of runCmdLoop's reading. */
  function CloseCommand(u: nat, ks: seq<nat>): seq<Act> {
    Within(CmdMu(u), false, CloseEach(u, ks) + [Touch(Command(u), true)])
  }

  function Within(l: Lock, shared: bool, body: seq<Act>): seq<Act> {
    [Take(l, shared)] + body + [Give(l)]
  }

  datatype Handling = Ignored | Opens(k: nat, ok: bool) | Closes(k: nat)

  /** What a handler does between taking config.mu and giving it back, before it broadcasts. */
  datatype Body = Plain | StartRedirect(k: nat, ok: bool) | StopRedirect(k: nat) | StopCommand(u: nat, ks: seq<nat>) | CommandPorts(u: nat)

  datatype Path =
    | Transfer(k: nat)                         // listener.transfer
    | AcceptFails(k: nat)                      // listener.listen
    | PortStatus(k: nat)                       // Port.Status
    | PortClosed(k: nat)                       // Port.Closed
    | PortClose(k: nat, open: bool)            // Port.Close
    | Redirect(k: nat, ok: bool)               // AddRedirect
    | CmdMessage(u: nat, handling: Handling)   // runCmdLoop, one message
    | CmdEof(u: nat, ks: seq<nat>)             // runCmdLoop, at the end
    | CmdClose(u: nat, ks: seq<nat>)           // UnixCmd.Close
    | CmdStatus(u: nat)                        // UnixCmd.Status
    | Rpc(body: Body, broadcast: bool)         // the handlers of rpc.go
    | Reaper(error: bool, stopped: bool)       // the goroutine of command.Run
    | InitialMessage                           // buildInitialMessage
    | Connections                              // NewConn, ShutdownRPC
    | InitOrExit(bodies: seq<Body>)            // servers.Init and servers.Shutdown, without config.mu

  /** What a message of a child makes the proxy do. */
  function HandlingActs(u: nat, h: Handling): seq<Act> {
    match h
    case Ignored => []
    case Opens(k, ok) => AddPort(k, ok) + if k != 0 && ok then [Touch(Command(u), true)] else []
    case Closes(k) => [Touch(Command(u), true)] + ClosePort(k, true)
  }

  function BodyActs(b: Body): seq<Act> {
    [Touch(Records, true)] + Inside(b) + [Touch(Records, true)]
  }

  function Inside(b: Body): seq<Act> {
    match b
    case Plain => []
    case StartRedirect(k, ok) => AddPort(k, ok)
    case StopRedirect(k) => ClosePort(k, true)
    case StopCommand(u, ks) => CloseCommand(u, ks)
    case CommandPorts(u) => Within(CmdMu(u), false, [Touch(Command(u), false)])
  }

  function Broadcast(yes: bool): seq<Act> {
    if yes then Within(ConnMu, false, [Touch(Sockets, false)]) else []
  }

  function Acts(p: Path): seq<Act> {
    match p
    case Transfer(k) => Within(ListenerMu(k), true, [Touch(Ports(k), false)])
    case AcceptFails(k) => Within(ListenerMu(k), false, [Touch(Flags(k), true), Touch(Ports(k), true)])
    case PortStatus(k) => Within(LMu, true, [Touch(Flags(k), false)])
    case PortClosed(k) => [Touch(Flags(k), false)]
    case PortClose(k, open) => ClosePort(k, open)
    case Redirect(k, ok) => AddPort(k, ok)
    case CmdMessage(u, h) => Within(CmdMu(u), false, [Touch(Command(u), false)] + HandlingActs(u, h))
    case CmdEof(u, ks) => CloseCommand(u, ks) + Within(CmdMu(u), false, [Touch(Command(u), true)])
    case CmdClose(u, ks) => CloseCommand(u, ks)
    case CmdStatus(u) => Within(CmdMu(u), false, [Touch(Command(u), false)])
    case Rpc(body, b) => Within(ConfigMu, false, BodyActs(body) + Broadcast(b))
    case Reaper(e, b) => Within(ConfigMu, false, [Touch(Records, false)] + Broadcast(e) + Broadcast(b) + [Touch(Records, true)])
    case InitialMessage => Within(ConfigMu, true, [Touch(Records, false)])
    case Connections => Within(ConnMu, false, [Touch(Sockets, true)])
    case InitOrExit(bodies) => EachBody(bodies)
  }

  function EachBody(bs: seq<Body>): seq<Act> {
    if |bs| == 0 then [] else BodyActs(bs[0]) + EachBody(bs[1..])
  }

  // ---------- every path keeps the order ----------

  /** What a sequence of acts comes to: it ends with these locks held, it breaks off at a failed
      bind, or it takes a lock out of order or gives one back unheld. */
  datatype End = Held(locks: set<Lock>) | BrokenOff | OutOfOrder

  function Exec(acts: seq<Act>, held: set<Lock>): End
    decreases |acts|
  {
    if |acts| == 0 then Held(held)
    else
      match acts[0]
      case Take(l, _) =>
        if forall m :: m in held ==> Rank(m) < Rank(l) then Exec(acts[1..], held + {l}) else OutOfOrder
      case Give(l) => if l in held then Exec(acts[1..], held - {l}) else OutOfOrder
      case Touch(_, _) => Exec(acts[1..], held)
      case BindFails => if LMu in held then BrokenOff else OutOfOrder
  }

  /** From these locks back to them, in order, unless a bind fails. */
  ghost predicate Ordered(acts: seq<Act>, held: set<Lock>) {
    Exec(acts, held) == Held(held) || Exec(acts, held) == BrokenOff
  }

  ghost predicate Below(held: set<Lock>, rank: nat) {
    forall m :: m in held ==> Rank(m) < rank
  }

  lemma {:induction false} ExecJoins(a: seq<Act>, b: seq<Act>, held: set<Lock>)
    ensures Exec(a + b, held) == if Exec(a, held).Held? then Exec(b, Exec(a, held).locks) else Exec(a, held)
    decreases |a|
  {
    if |a| == 0 {
      assert a + b == b;
    } else {
      assert (a + b)[1..] == a[1..] + b;
      match a[0]
      case Take(l, _) => ExecJoins(a[1..], b, held + {l});
      case Give(l) => ExecJoins(a[1..], b, held - {l});
      case Touch(_, _) => ExecJoins(a[1..], b, held);
      case BindFails =>
    }
  }

  lemma WithinKeeps(l: Lock, shared: bool, body: seq<Act>, held: set<Lock>)
    requires Below(held, Rank(l)) && Ordered(body, held + {l})
    ensures Ordered(Within(l, shared, body), held)
    ensures Exec(body, held + {l}).Held? ==> Exec(Within(l, shared, body), held).Held?
  {
    var take, give := [Take(l, shared)], [Give(l)];
    assert take[1..] == [] && give[1..] == [];
    assert held + {l} - {l} == held;
    assert Exec(take, held) == Held(held + {l});
    ExecJoins(take, body, held);
    ExecJoins(take + body, give, held);
  }

  lemma JoinKeeps(a: seq<Act>, b: seq<Act>, held: set<Lock>)
    requires Ordered(a, held) && Ordered(b, held)
    ensures Ordered(a + b, held)
    ensures Exec(a, held).Held? && Exec(b, held).Held? ==> Exec(a + b, held).Held?
  {
    ExecJoins(a, b, held);
  }

  lemma TouchesKeep(a: seq<Act>, held: set<Lock>)
    requires |a| <= 2 && forall i :: 0 <= i < |a| ==> a[i].Touch?
    ensures Exec(a, held) == Held(held)
  {
  }

  lemma ClosePortKeeps(k: nat, open: bool, held: set<Lock>)
    requires Below(held, 2)
    ensures Exec(ClosePort(k, open), held) == Held(held)
  {
    var within := held + {LMu};
    var inner := [Touch(Ports(k), true), Touch(Table, true)];
    var first, last := [Touch(Flags(k), false)], if open then Unlist(k) + [Touch(Flags(k), true)] else [];
    TouchesKeep(inner, within + {ListenerMu(k)});
    WithinKeeps(ListenerMu(k), false, inner, within);
    TouchesKeep([Touch(Table, false)], within);
    TouchesKeep(first, within);
    TouchesKeep([Touch(Flags(k), true)], within);
    JoinKeeps([Touch(Table, false)], Within(ListenerMu(k), false, inner), within);
    JoinKeeps(Unlist(k), [Touch(Flags(k), true)], within);
    JoinKeeps(first, last, within);
    WithinKeeps(LMu, false, first + last, held);
  }

  lemma AddPortKeeps(k: nat, ok: bool, held: set<Lock>)
    requires Below(held, 2)
    ensures Ordered(AddPort(k, ok), held)
    ensures Exec(AddPort(k, ok), held).BrokenOff? <==> k != 0 && !ok
  {
    var first, second := [Touch(Table, true)], [Touch(Ports(k), true)];
    TouchesKeep(first, held + {LMu});
    TouchesKeep(second, held + {ListenerMu(k)});
    WithinKeeps(LMu, false, first, held);
    WithinKeeps(ListenerMu(k), false, second, held);
    JoinKeeps(Within(LMu, false, first), Within(ListenerMu(k), false, second), held);
    if k == 0 {
    } else if ok {
      assert AddPort(k, ok) == Within(LMu, false, first) + Within(ListenerMu(k), false, second);
    } else {
      var a := AddPort(k, ok);
      assert a[1..] == [Touch(Table, false), BindFails] && a[1..][1..] == [BindFails];
      assert Exec(a[1..][1..], held + {LMu}) == Exec(a[1..], held + {LMu}) == Exec(a, held);
    }
  }

  lemma {:induction false} CloseEachKeeps(u: nat, ks: seq<nat>, held: set<Lock>)
    requires Below(held, 2)
    ensures Exec(CloseEach(u, ks), held) == Held(held)
  {
    if |ks| > 0 {
      var touch := [Touch(Command(u), true)];
      TouchesKeep(touch, held);
      ClosePortKeeps(ks[0], true, held);
      CloseEachKeeps(u, ks[1..], held);
      JoinKeeps(touch, ClosePort(ks[0], true), held);
      JoinKeeps(touch + ClosePort(ks[0], true), CloseEach(u, ks[1..]), held);
    }
  }

  lemma CloseCommandKeeps(u: nat, ks: seq<nat>, held: set<Lock>)
    requires Below(held, 1)
    ensures Exec(CloseCommand(u, ks), held) == Held(held)
  {
    var touch := [Touch(Command(u), true)];
    CloseEachKeeps(u, ks, held + {CmdMu(u)});
    TouchesKeep(touch, held + {CmdMu(u)});
    JoinKeeps(CloseEach(u, ks), touch, held + {CmdMu(u)});
    WithinKeeps(CmdMu(u), false, CloseEach(u, ks) + touch, held);
  }

  lemma HandlingKeeps(u: nat, h: Handling, held: set<Lock>)
    requires Below(held, 2)
    ensures Ordered(HandlingActs(u, h), held)
  {
    var touch := [Touch(Command(u), true)];
    TouchesKeep(touch, held);
    match h {
      case Ignored =>
      case Opens(k, ok) =>
        AddPortKeeps(k, ok, held);
        JoinKeeps(AddPort(k, ok), if k != 0 && ok then touch else [], held);
      case Closes(k) =>
        ClosePortKeeps(k, true, held);
        JoinKeeps(touch, ClosePort(k, true), held);
    }
  }

  lemma BodyKeeps(b: Body, held: set<Lock>)
    requires Below(held, 1)
    ensures Ordered(BodyActs(b), held)
  {
    match b {
      case Plain =>
      case StartRedirect(k, ok) => AddPortKeeps(k, ok, held);
      case StopRedirect(k) => ClosePortKeeps(k, true, held);
      case StopCommand(u, ks) => CloseCommandKeeps(u, ks, held);
      case CommandPorts(u) => TouchWithin(CmdMu(u), false, Command(u), false, held);
    }
    var touch := [Touch(Records, true)];
    TouchesKeep(touch, held);
    JoinKeeps(touch, Inside(b), held);
    JoinKeeps(touch + Inside(b), touch, held);
  }

  lemma TouchWithin(l: Lock, shared: bool, d: Data, write: bool, held: set<Lock>)
    requires Below(held, Rank(l))
    ensures Exec(Within(l, shared, [Touch(d, write)]), held) == Held(held)
  {
    TouchesKeep([Touch(d, write)], held + {l});
    WithinKeeps(l, shared, [Touch(d, write)], held);
  }

  lemma {:induction false} EachBodyKeeps(bs: seq<Body>)
    ensures Ordered(EachBody(bs), {})
  {
    if |bs| > 0 {
      BodyKeeps(bs[0], {});
      EachBodyKeeps(bs[1..]);
      JoinKeeps(BodyActs(bs[0]), EachBody(bs[1..]), {});
    }
  }

  lemma BroadcastKeeps(yes: bool, held: set<Lock>)
    requires Below(held, 4)
    ensures Exec(Broadcast(yes), held) == Held(held)
  {
    TouchWithin(ConnMu, false, Sockets, false, held);
  }

  /** Every path, whatever ports and commands it meets, takes its locks in the one order and gives
      all of them back, unless a bind fails in it. */
  lemma PathOrdered(p: Path)
    ensures Ordered(Acts(p), {})
  {
    match p {
      case Transfer(k) => TouchWithin(ListenerMu(k), true, Ports(k), false, {});
      case AcceptFails(k) =>
        TouchesKeep([Touch(Flags(k), true), Touch(Ports(k), true)], {} + {ListenerMu(k)});
        WithinKeeps(ListenerMu(k), false, [Touch(Flags(k), true), Touch(Ports(k), true)], {});
      case PortStatus(k) => TouchWithin(LMu, true, Flags(k), false, {});
      case PortClosed(k) => TouchesKeep([Touch(Flags(k), false)], {});
      case PortClose(k, open) => ClosePortKeeps(k, open, {});
      case Redirect(k, ok) => AddPortKeeps(k, ok, {});
      case CmdMessage(u, h) =>
        var held := {} + {CmdMu(u)};
        TouchesKeep([Touch(Command(u), false)], held);
        HandlingKeeps(u, h, held);
        JoinKeeps([Touch(Command(u), false)], HandlingActs(u, h), held);
        WithinKeeps(CmdMu(u), false, [Touch(Command(u), false)] + HandlingActs(u, h), {});
      case CmdEof(u, ks) =>
        CloseCommandKeeps(u, ks, {});
        TouchWithin(CmdMu(u), false, Command(u), true, {});
        JoinKeeps(CloseCommand(u, ks), Within(CmdMu(u), false, [Touch(Command(u), true)]), {});
      case CmdClose(u, ks) => CloseCommandKeeps(u, ks, {});
      case CmdStatus(u) => TouchWithin(CmdMu(u), false, Command(u), false, {});
      case Rpc(body, b) =>
        var held := {} + {ConfigMu};
        BodyKeeps(body, held);
        BroadcastKeeps(b, held);
        JoinKeeps(BodyActs(body), Broadcast(b), held);
        WithinKeeps(ConfigMu, false, BodyActs(body) + Broadcast(b), {});
      case Reaper(e, b) => ReaperKeeps(e, b);
      case InitialMessage => TouchWithin(ConfigMu, true, Records, false, {});
      case Connections => TouchWithin(ConnMu, false, Sockets, true, {});
      case InitOrExit(bodies) => EachBodyKeeps(bodies);
    }
  }

  lemma ReaperKeeps(e: bool, b: bool)
    ensures Exec(Acts(Reaper(e, b)), {}) == Held({})
  {
    var held := {} + {ConfigMu};
    var first, last := [Touch(Records, false)], [Touch(Records, true)];
    TouchesKeep(first, held);
    TouchesKeep(last, held);
    BroadcastKeeps(e, held);
    BroadcastKeeps(b, held);
    JoinKeeps(first, Broadcast(e), held);
    JoinKeeps(first + Broadcast(e), Broadcast(b), held);
    JoinKeeps(first + Broadcast(e) + Broadcast(b), last, held);
    WithinKeeps(ConfigMu, false, first + Broadcast(e) + Broadcast(b) + last, {});
  }

  // ---------- what becomes of lMu ----------

  /** Where one thread stands with lMu: `Lost` after a bind failed while it held it, and `Past` what
      it would come to if it could take it again. */
  datatype Mode = Without | With | Reads | Lost | Past | Bad

  function Walk(acts: seq<Act>, m: Mode): Mode
    decreases |acts|
  {
    if |acts| == 0 then m else Walk(acts[1..], Next(acts[0], m))
  }

  function Next(a: Act, m: Mode): Mode {
    match m
    case Past => Past
    case Bad => Bad
    case _ =>
      if a == Take(LMu, true) then (if m == Without then Reads else if m == Lost then Past else Bad)
      else if a == Take(LMu, false) then (if m == Without then With else if m == Lost then Past else Bad)
      else if a == Give(LMu) then (if m == With || m == Reads then Without else Bad)
      else if a == BindFails then (if m == With then Lost else Bad)
      else m
  }

  /** From a state without lMu, or after it was lost, only to such a state again: once lMu is lost,
      no act gives it back before one asks for it. */
  ghost predicate Calm(acts: seq<Act>) {
    forall m :: m == Without || m == Lost || m == Past ==> Walk(acts, m) != Bad && Walk(acts, m) != With && Walk(acts, m) != Reads
  }

  lemma {:induction false} WalkJoins(a: seq<Act>, b: seq<Act>, m: Mode)
    ensures Walk(a + b, m) == Walk(b, Walk(a, m))
    decreases |a|
  {
    if |a| == 0 {
      assert a + b == b;
    } else {
      assert (a + b)[1..] == a[1..] + b;
      WalkJoins(a[1..], b, Next(a[0], m));
    }
  }

  lemma CalmJoins(a: seq<Act>, b: seq<Act>)
    requires Calm(a) && Calm(b)
    ensures Calm(a + b)
  {
    forall m ensures Walk(a + b, m) == Walk(b, Walk(a, m)) { WalkJoins(a, b, m); }
  }

  lemma CalmWithin(l: Lock, shared: bool, body: seq<Act>)
    requires l != LMu && Calm(body)
    ensures Calm(Within(l, shared, body))
  {
    var take, give := [Take(l, shared)], [Give(l)];
    assert take[1..] == [] && give[1..] == [];
    CalmJoins(take, body);
    CalmJoins(take + body, give);
  }

  lemma {:induction false} PastStays(acts: seq<Act>)
    ensures Walk(acts, Past) == Past
    decreases |acts|
  {
    if |acts| > 0 { PastStays(acts[1..]); }
  }

  /** Acts that have nothing to do with lMu. */
  lemma {:induction false} Quiet(acts: seq<Act>)
    requires forall i :: 0 <= i < |acts| ==>
      acts[i].Touch? || ((acts[i].Take? || acts[i].Give?) && acts[i].l != LMu)
    ensures forall m :: Walk(acts, m) == m
    ensures Calm(acts)
    decreases |acts|
  {
    if |acts| > 0 { Quiet(acts[1..]); }
  }

  lemma CalmLMu(shared: bool, body: seq<Act>)
    requires forall m :: Walk(body, m) == m
    ensures Calm(Within(LMu, shared, body))
  {
    var take, give := [Take(LMu, shared)], [Give(LMu)];
    assert take[1..] == [] && give[1..] == [];
    forall m ensures Walk(Within(LMu, shared, body), m) == Next(Give(LMu), Next(Take(LMu, shared), m)) {
      WalkJoins(take, body, m);
      WalkJoins(take + body, give, m);
    }
  }

  lemma CalmClosePort(k: nat, open: bool)
    ensures Calm(ClosePort(k, open))
  {
    var body := [Touch(Flags(k), false)] + if open then Unlist(k) + [Touch(Flags(k), true)] else [];
    Quiet(body);
    CalmLMu(false, body);
  }

  lemma CalmAddPort(k: nat, ok: bool)
    ensures Calm(AddPort(k, ok))
  {
    if k != 0 && ok {
      Quiet([Touch(Table, true)]);
      CalmLMu(false, [Touch(Table, true)]);
      Quiet(Within(ListenerMu(k), false, [Touch(Ports(k), true)]));
      CalmJoins(Within(LMu, false, [Touch(Table, true)]), Within(ListenerMu(k), false, [Touch(Ports(k), true)]));
    } else if k != 0 {
      var a := AddPort(k, ok);
      assert a[1..] == [Touch(Table, false), BindFails] && a[1..][1..] == [BindFails] && a[1..][1..][1..] == [];
      forall m ensures Walk(a, m) == Next(BindFails, Next(Take(LMu, false), m)) {
        var n := Next(Take(LMu, false), m);
        assert Walk(a, m) == Walk(a[1..], n) == Walk(a[1..][1..], n) == Walk(a[1..][1..][1..], Next(BindFails, n));
      }
    }
  }

  lemma {:induction false} CalmCloseEach(u: nat, ks: seq<nat>)
    ensures Calm(CloseEach(u, ks))
  {
    if |ks| > 0 {
      Quiet([Touch(Command(u), true)]);
      CalmClosePort(ks[0], true);
      CalmCloseEach(u, ks[1..]);
      CalmJoins([Touch(Command(u), true)], ClosePort(ks[0], true));
      CalmJoins([Touch(Command(u), true)] + ClosePort(ks[0], true), CloseEach(u, ks[1..]));
    }
  }

  lemma CalmCloseCommand(u: nat, ks: seq<nat>)
    ensures Calm(CloseCommand(u, ks))
  {
    CalmCloseEach(u, ks);
    Quiet([Touch(Command(u), true)]);
    CalmJoins(CloseEach(u, ks), [Touch(Command(u), true)]);
    CalmWithin(CmdMu(u), false, CloseEach(u, ks) + [Touch(Command(u), true)]);
  }

  lemma CalmHandling(u: nat, h: Handling)
    ensures Calm(HandlingActs(u, h))
  {
    Quiet([Touch(Command(u), true)]);
    match h
    case Ignored =>
    case Opens(k, ok) =>
      CalmAddPort(k, ok);
      CalmJoins(AddPort(k, ok), if k != 0 && ok then [Touch(Command(u), true)] else []);
    case Closes(k) =>
      CalmClosePort(k, true);
      CalmJoins([Touch(Command(u), true)], ClosePort(k, true));
  }

  lemma CalmBody(b: Body)
    ensures Calm(BodyActs(b))
  {
    match b {
      case Plain =>
      case StartRedirect(k, ok) => CalmAddPort(k, ok);
      case StopRedirect(k) => CalmClosePort(k, true);
      case StopCommand(u, ks) => CalmCloseCommand(u, ks);
      case CommandPorts(u) => Quiet(Inside(b));
    }
    Quiet([Touch(Records, true)]);
    CalmJoins([Touch(Records, true)], Inside(b));
    CalmJoins([Touch(Records, true)] + Inside(b), [Touch(Records, true)]);
  }

  lemma {:induction false} CalmEachBody(bs: seq<Body>)
    ensures Calm(EachBody(bs))
  {
    if |bs| > 0 {
      CalmBody(bs[0]);
      CalmEachBody(bs[1..]);
      CalmJoins(BodyActs(bs[0]), EachBody(bs[1..]));
    }
  }

  lemma CalmReaper(e: bool, b: bool)
    ensures Calm(Acts(Reaper(e, b)))
  {
    hide Walk, Calm;
    Quiet(Acts(Reaper(e, b)));
  }

  /** After a failed bind no path gives lMu back. */
  lemma PathCalm(p: Path)
    ensures Calm(Acts(p))
  {
    match p {
      case Transfer(_) => Quiet(Acts(p));
      case AcceptFails(_) => Quiet(Acts(p));
      case PortStatus(k) =>
        Quiet([Touch(Flags(k), false)]);
        CalmLMu(true, [Touch(Flags(k), false)]);
      case PortClosed(_) => Quiet(Acts(p));
      case PortClose(k, open) => CalmClosePort(k, open);
      case Redirect(k, ok) => CalmAddPort(k, ok);
      case CmdMessage(u, h) =>
        Quiet([Touch(Command(u), false)]);
        CalmHandling(u, h);
        CalmJoins([Touch(Command(u), false)], HandlingActs(u, h));
        CalmWithin(CmdMu(u), false, [Touch(Command(u), false)] + HandlingActs(u, h));
      case CmdEof(u, ks) =>
        CalmCloseCommand(u, ks);
        Quiet(Within(CmdMu(u), false, [Touch(Command(u), true)]));
        CalmJoins(CloseCommand(u, ks), Within(CmdMu(u), false, [Touch(Command(u), true)]));
      case CmdClose(u, ks) => CalmCloseCommand(u, ks);
      case CmdStatus(_) => Quiet(Acts(p));
      case Rpc(body, b) =>
        CalmBody(body);
        Quiet(Broadcast(b));
        CalmJoins(BodyActs(body), Broadcast(b));
        CalmWithin(ConfigMu, false, BodyActs(body) + Broadcast(b));
      case Reaper(e, b) => CalmReaper(e, b);
      case InitialMessage => Quiet(Acts(p));
      case Connections => Quiet(Acts(p));
      case InitOrExit(bodies) => CalmEachBody(bodies);
    }
  }

  // ---------- any number of threads ----------

  /** A thread: what it has still to do, what it holds, and which of that only for reading; `lost`
      records that a bind failed in it. */
  datatype Thread = Thread(todo: seq<Act>, held: set<Lock>, reading: set<Lock>, lost: bool)

  datatype Step = Spawn(p: Path) | Go(i: nat)

  /** Thread `i` next asks for `l`, exclusively unless `shared`. */
  predicate Wants(ts: seq<Thread>, i: nat, l: Lock, shared: bool) {
    i < |ts| && |ts[i].todo| > 0 && ts[i].todo[0] == Take(l, shared)
  }

  /** An exclusive request waits for every holder, the thread itself included; a shared one waits
      for an exclusive holder and also, as Go's RWMutex has it, for any exclusive request that is
      waiting. */
  ghost predicate Blocked(ts: seq<Thread>, i: nat)
    requires i < |ts| && |ts[i].todo| > 0
  {
    match ts[i].todo[0]
    case Give(_) => false
    case Touch(_, _) => false
    case BindFails => false
    case Take(l, shared) =>
      || (exists j :: 0 <= j < |ts| && l in ts[j].held && (!shared || l !in ts[j].reading))
      || (shared && exists j :: 0 <= j < |ts| && j != i && Wants(ts, j, l, false))
  }

  ghost predicate Can(ts: seq<Thread>, s: Step) {
    match s
    case Spawn(_) => true
    case Go(i) => i < |ts| && |ts[i].todo| > 0 && !Blocked(ts, i)
  }

  ghost function Do(ts: seq<Thread>, s: Step): seq<Thread>
    requires Can(ts, s)
  {
    match s
    case Spawn(p) => ts + [Thread(Acts(p), {}, {}, false)]
    case Go(i) =>
      var t := ts[i];
      ts[i := match t.todo[0]
              case Take(l, shared) => t.(todo := t.todo[1..], held := t.held + {l}, reading := if shared then t.reading + {l} else t.reading)
              case Give(l) => t.(todo := t.todo[1..], held := t.held - {l}, reading := t.reading - {l})
              case Touch(_, _) => t.(todo := t.todo[1..])
              case BindFails => t.(todo := t.todo[1..], lost := true)]
  }

  ghost predicate Leading(from: seq<Thread>, steps: seq<Step>, ts: seq<Thread>)
    decreases |steps|
  {
    if |steps| == 0 then ts == from
    else
      var front, last := steps[..|steps| - 1], steps[|steps| - 1];
      exists mid :: Leading(from, front, mid) && Leads(mid, last, ts)
  }

  ghost predicate Leads(ts: seq<Thread>, s: Step, ts': seq<Thread>) {
    Can(ts, s) && Do(ts, s) == ts'
  }

  ghost predicate Run(steps: seq<Step>, ts: seq<Thread>) {
    Leading([], steps, ts)
  }

  /** Each thread has the rest of an ordered path before it, from the locks it holds, unless it has
      lost lMu. */
  ghost predicate InOrder(ts: seq<Thread>) {
    forall i :: 0 <= i < |ts| && !ts[i].lost ==> Exec(ts[i].todo, ts[i].held) in {Held({}), BrokenOff}
  }

  /** How a thread stands with lMu, by what it holds. */
  function ModeOf(t: Thread): Mode {
    if t.lost then Lost else if LMu !in t.held then Without else if LMu in t.reading then Reads else With
  }

  ghost predicate LMuKept(ts: seq<Thread>) {
    forall i :: 0 <= i < |ts| ==>
      && Walk(ts[i].todo, ModeOf(ts[i])) != Bad
      && ts[i].reading <= ts[i].held
      && (ts[i].lost ==> LMu in ts[i].held && LMu !in ts[i].reading)
  }

  lemma StepInOrder(ts: seq<Thread>, s: Step)
    requires InOrder(ts) && Can(ts, s)
    ensures InOrder(Do(ts, s))
  {
    if s.Spawn? { PathOrdered(s.p); }
  }

  /** A thread that has lost lMu cannot take it again: it would wait for itself. */
  lemma LostBlocks(ts: seq<Thread>, i: nat, j: nat, shared: bool)
    requires LMuKept(ts) && i < |ts| && ts[i].lost && Wants(ts, j, LMu, shared)
    ensures Blocked(ts, j)
  {
    assert LMu in ts[i].held && LMu !in ts[i].reading;
  }

  lemma LostNeverTakes(ts: seq<Thread>, i: nat)
    requires LMuKept(ts) && Can(ts, Go(i)) && ts[i].lost
    ensures ts[i].todo[0].Take? ==> ts[i].todo[0].l != LMu
  {
    assert LMu in ts[i].held && LMu !in ts[i].reading;
  }

  lemma StepKeepsLMu(ts: seq<Thread>, s: Step)
    requires LMuKept(ts) && Can(ts, s)
    ensures LMuKept(Do(ts, s))
  {
    if s.Spawn? {
      PathCalm(s.p);
      assert Walk(Acts(s.p), Without) != Bad;
    } else {
      var t := ts[s.i];
      if t.lost { LostNeverTakes(ts, s.i); }
      assert !t.lost ==> Walk(t.todo[1..], Next(t.todo[0], ModeOf(t))) != Bad;
      BadStays(t.todo[1..]);
    }
  }

  lemma {:induction false} BadStays(acts: seq<Act>)
    ensures Walk(acts, Bad) == Bad
    decreases |acts|
  {
    if |acts| > 0 { BadStays(acts[1..]); }
  }

  lemma {:induction false} RunInOrder(steps: seq<Step>, ts: seq<Thread>)
    requires Run(steps, ts)
    ensures InOrder(ts) && LMuKept(ts)
    decreases |steps|
  {
    if |steps| > 0 {
      var front, last := steps[..|steps| - 1], steps[|steps| - 1];
      var mid :| Leading([], front, mid) && Leads(mid, last, ts);
      RunInOrder(front, mid);
      StepInOrder(mid, last);
      StepKeepsLMu(mid, last);
    }
  }

  /** A lock that two threads hold, both hold for reading. */
  ghost predicate Excluded(ts: seq<Thread>) {
    && (forall i :: 0 <= i < |ts| ==> ts[i].reading <= ts[i].held)
    && (forall i, j, l :: 0 <= i < |ts| && 0 <= j < |ts| && i != j && l in ts[i].held && l in ts[j].held ==> l in ts[i].reading)
  }

  lemma StepExcludes(ts: seq<Thread>, s: Step)
    requires Excluded(ts) && Can(ts, s)
    ensures Excluded(Do(ts, s))
  {
    var ts' := Do(ts, s);
    if s.Go? && ts[s.i].todo[0].Take? {
      var i, l, shared := s.i, ts[s.i].todo[0].l, ts[s.i].todo[0].shared;
      assert !Blocked(ts, i);
      assert forall j :: 0 <= j < |ts| && l in ts[j].held ==> shared && l in ts[j].reading;
      assert forall j :: 0 <= j < |ts| && j != i ==> ts'[j] == ts[j];
    }
  }

  /** Mutual exclusion, in every run of any number of threads: a lock that one thread holds and not
      for reading, no other thread holds. */
  lemma {:induction false} MutualExclusion(steps: seq<Step>, ts: seq<Thread>)
    requires Run(steps, ts)
    ensures Excluded(ts)
    decreases |steps|
  {
    if |steps| > 0 {
      var front, last := steps[..|steps| - 1], steps[|steps| - 1];
      var mid :| Leading([], front, mid) && Leads(mid, last, ts);
      MutualExclusion(front, mid);
      StepExcludes(mid, last);
    }
  }

  // ---------- what is done under the locks ----------

  /** How a thread holds the lock of a datum; `Wrong` once it has touched it without. */
  datatype Hold = Out | Shared | Sole | Wrong

  function HoldNext(a: Act, d: Data, m: Hold): Hold {
    if m == Wrong then Wrong
    else if a == Take(Guard(d), true) then Shared
    else if a == Take(Guard(d), false) then Sole
    else if a == Give(Guard(d)) then Out
    else if a == Touch(d, true) then (if m == Sole then m else Wrong)
    else if a == Touch(d, false) then (if m == Out then Wrong else m)
    else m
  }

  function Under(acts: seq<Act>, d: Data, m: Hold): Hold
    decreases |acts|
  {
    if |acts| == 0 then m else Under(acts[1..], d, HoldNext(acts[0], d, m))
  }

  /** What touches a datum without its lock: an accept loop that fails sets the closed flags of its
      Ports under its own lock, Port.Closed reads one under none, and start-up and exit work on the
      configuration without config.mu. */
  predicate Careless(p: Path, d: Data) {
    || (p.AcceptFails? && d == Flags(p.k))
    || (p.PortClosed? && d == Flags(p.k))
    || (p.InitOrExit? && |p.bodies| > 0 && d == Records)
  }

  lemma {:induction false} UnderJoins(a: seq<Act>, b: seq<Act>, d: Data, m: Hold)
    ensures Under(a + b, d, m) == Under(b, d, Under(a, d, m))
    decreases |a|
  {
    if |a| == 0 {
      assert a + b == b;
    } else {
      assert (a + b)[1..] == a[1..] + b;
      UnderJoins(a[1..], b, d, HoldNext(a[0], d, m));
    }
  }

  lemma UnderWithin(l: Lock, shared: bool, body: seq<Act>, d: Data, m: Hold)
    ensures Under(Within(l, shared, body), d, m) == HoldNext(Give(l), d, Under(body, d, HoldNext(Take(l, shared), d, m)))
  {
    var take, give := [Take(l, shared)], [Give(l)];
    assert take[1..] == [] && give[1..] == [];
    UnderJoins(take, body, d, m);
    UnderJoins(take + body, give, d, m);
  }

  /** Whoever holds the lock alone keeps it, whatever it touches, until it gives it back. */
  lemma {:induction false} Keeps(acts: seq<Act>, d: Data)
    requires forall i :: 0 <= i < |acts| && (acts[i].Take? || acts[i].Give?) ==> acts[i].l != Guard(d)
    ensures Under(acts, d, Sole) == Sole
    ensures (forall i :: 0 <= i < |acts| && acts[i].Touch? ==> acts[i].d != d) ==> forall m :: Under(acts, d, m) == m
    decreases |acts|
  {
    if |acts| > 0 { Keeps(acts[1..], d); }
  }

  /** Acts that touch the datum only under its lock, from outside it or from a failed bind on. */
  ghost predicate Minds(acts: seq<Act>, d: Data) {
    Under(acts, d, Out) in {Out, Sole} && Under(acts, d, Sole) in {Out, Sole}
  }

  lemma MindsJoin(a: seq<Act>, b: seq<Act>, d: Data)
    ensures Minds(a, d) && Minds(b, d) ==> Minds(a + b, d)
    ensures Under(a, d, Sole) == Sole == Under(b, d, Sole) ==> Under(a + b, d, Sole) == Sole
  {
    forall m ensures Under(a + b, d, m) == Under(b, d, Under(a, d, m)) { UnderJoins(a, b, d, m); }
  }

  lemma MindsWithin(l: Lock, body: seq<Act>, d: Data)
    requires if l == Guard(d) then Under(body, d, Sole) == Sole else Minds(body, d)
    ensures Minds(Within(l, false, body), d)
    ensures l != Guard(d) && Under(body, d, Sole) == Sole ==> Under(Within(l, false, body), d, Sole) == Sole
  {
    forall m ensures Under(Within(l, false, body), d, m) == HoldNext(Give(l), d, Under(body, d, HoldNext(Take(l, false), d, m))) {
      UnderWithin(l, false, body, d, m);
    }
  }

  lemma UnlistMinds(k: nat, d: Data)
    requires d != Table
    ensures Minds(Unlist(k), d)
  {
    var inner := [Touch(Ports(k), true), Touch(Table, true)];
    if d == Ports(k) {
      Keeps(inner, d);
      MindsWithin(ListenerMu(k), inner, d);
      Keeps([Touch(Table, false)], d);
      MindsJoin([Touch(Table, false)], Within(ListenerMu(k), false, inner), d);
    } else {
      Keeps(Unlist(k), d);
    }
  }

  lemma ClosePortMinds(k: nat, open: bool, d: Data)
    ensures Minds(ClosePort(k, open), d)
    ensures d.Command? || d.Records? ==> Under(ClosePort(k, open), d, Sole) == Sole
  {
    var first, last := [Touch(Flags(k), false)], if open then Unlist(k) + [Touch(Flags(k), true)] else [];
    if d == Ports(k) {
      Keeps(first, d);
      Keeps([Touch(Flags(k), true)], d);
      UnlistMinds(k, d);
      MindsJoin(Unlist(k), [Touch(Flags(k), true)], d);
      MindsJoin(first, last, d);
    } else {
      Keeps(first + last, d);
    }
    MindsWithin(LMu, first + last, d);
  }

  lemma AddPortMinds(k: nat, ok: bool, d: Data)
    ensures Minds(AddPort(k, ok), d)
    ensures d.Command? || d.Records? ==> Under(AddPort(k, ok), d, Sole) == Sole
  {
    var first, second := [Touch(Table, true)], [Touch(Ports(k), true)];
    if k != 0 && ok {
      Keeps(first, d);
      Keeps(second, d);
      MindsWithin(LMu, first, d);
      MindsWithin(ListenerMu(k), second, d);
      MindsJoin(Within(LMu, false, first), Within(ListenerMu(k), false, second), d);
    } else if k != 0 {
      var take, rest := [Take(LMu, false)], [Touch(Table, false), BindFails];
      assert AddPort(k, ok) == take + rest && take[1..] == [];
      Keeps(rest, d);
      forall m ensures Under(AddPort(k, ok), d, m) == Under(rest, d, HoldNext(Take(LMu, false), d, m)) { UnderJoins(take, rest, d, m); }
    }
  }

  lemma {:induction false} CloseEachMinds(u: nat, ks: seq<nat>, d: Data)
    ensures d != Command(u) ==> Minds(CloseEach(u, ks), d)
    ensures d.Command? || d.Records? ==> Under(CloseEach(u, ks), d, Sole) == Sole
  {
    if |ks| > 0 {
      var touch := [Touch(Command(u), true)];
      Keeps(touch, d);
      ClosePortMinds(ks[0], true, d);
      CloseEachMinds(u, ks[1..], d);
      MindsJoin(touch, ClosePort(ks[0], true), d);
      MindsJoin(touch + ClosePort(ks[0], true), CloseEach(u, ks[1..]), d);
    }
  }

  lemma CloseCommandMinds(u: nat, ks: seq<nat>, d: Data)
    ensures Minds(CloseCommand(u, ks), d)
    ensures d == Records ==> Under(CloseCommand(u, ks), d, Sole) == Sole
  {
    var touch := [Touch(Command(u), true)];
    Keeps(touch, d);
    CloseEachMinds(u, ks, d);
    MindsJoin(CloseEach(u, ks), touch, d);
    MindsWithin(CmdMu(u), CloseEach(u, ks) + touch, d);
  }

  lemma HandlingMinds(u: nat, h: Handling, d: Data)
    ensures if d == Command(u) then Under(HandlingActs(u, h), d, Sole) == Sole else Minds(HandlingActs(u, h), d)
  {
    var touch := [Touch(Command(u), true)];
    Keeps(touch, d);
    match h
    case Ignored =>
    case Opens(k, ok) =>
      AddPortMinds(k, ok, d);
      MindsJoin(AddPort(k, ok), if k != 0 && ok then touch else [], d);
    case Closes(k) =>
      ClosePortMinds(k, true, d);
      MindsJoin(touch, ClosePort(k, true), d);
  }

  lemma TouchMinds(l: Lock, touched: Data, write: bool, d: Data)
    requires Guard(touched) == l
    ensures Minds(Within(l, false, [Touch(touched, write)]), d)
    ensures l != Guard(d) ==> Under(Within(l, false, [Touch(touched, write)]), d, Sole) == Sole
  {
    Keeps([Touch(touched, write)], d);
    MindsWithin(l, [Touch(touched, write)], d);
  }

  lemma BodyMinds(b: Body, d: Data)
    ensures if d == Records then Under(BodyActs(b), d, Sole) == Sole else Minds(BodyActs(b), d)
  {
    match b {
      case Plain =>
      case StartRedirect(k, ok) => AddPortMinds(k, ok, d);
      case StopRedirect(k) => ClosePortMinds(k, true, d);
      case StopCommand(u, ks) => CloseCommandMinds(u, ks, d);
      case CommandPorts(u) => TouchMinds(CmdMu(u), Command(u), false, d);
    }
    var touch := [Touch(Records, true)];
    Keeps(touch, d);
    MindsJoin(touch, Inside(b), d);
    MindsJoin(touch + Inside(b), touch, d);
  }

  lemma {:induction false} EachBodyMinds(bs: seq<Body>, d: Data)
    requires d != Records
    ensures Minds(EachBody(bs), d)
  {
    if |bs| > 0 {
      BodyMinds(bs[0], d);
      EachBodyMinds(bs[1..], d);
      MindsJoin(BodyActs(bs[0]), EachBody(bs[1..]), d);
    }
  }

  lemma BroadcastMinds(yes: bool, d: Data)
    ensures Minds(Broadcast(yes), d)
    ensures d == Records ==> Under(Broadcast(yes), d, Sole) == Sole
  {
    TouchMinds(ConnMu, Sockets, false, d);
  }

  lemma SharedMinds(l: Lock, touched: Data, d: Data)
    requires Guard(touched) == l
    ensures Under(Within(l, true, [Touch(touched, false)]), d, Out) == Out
  {
    UnderWithin(l, true, [Touch(touched, false)], d, Out);
    assert [Touch(touched, false)][1..] == [];
  }

  lemma MessageMinds(u: nat, h: Handling, d: Data)
    ensures Minds(Acts(CmdMessage(u, h)), d)
  {
    var first := [Touch(Command(u), false)];
    Keeps(first, d);
    HandlingMinds(u, h, d);
    MindsJoin(first, HandlingActs(u, h), d);
    MindsWithin(CmdMu(u), first + HandlingActs(u, h), d);
  }

  lemma EofMinds(u: nat, ks: seq<nat>, d: Data)
    ensures Minds(Acts(CmdEof(u, ks)), d)
  {
    CloseCommandMinds(u, ks, d);
    TouchMinds(CmdMu(u), Command(u), true, d);
    MindsJoin(CloseCommand(u, ks), Within(CmdMu(u), false, [Touch(Command(u), true)]), d);
  }

  lemma RpcMinds(b: Body, broadcast: bool, d: Data)
    ensures Minds(Acts(Rpc(b, broadcast)), d)
  {
    BodyMinds(b, d);
    BroadcastMinds(broadcast, d);
    MindsJoin(BodyActs(b), Broadcast(broadcast), d);
    MindsWithin(ConfigMu, BodyActs(b) + Broadcast(broadcast), d);
  }

  lemma ReaperMinds(e: bool, b: bool, d: Data)
    ensures Minds(Acts(Reaper(e, b)), d)
  {
    var first, last := [Touch(Records, false)], [Touch(Records, true)];
    Keeps(first, d);
    Keeps(last, d);
    BroadcastMinds(e, d);
    BroadcastMinds(b, d);
    MindsJoin(first, Broadcast(e), d);
    MindsJoin(first + Broadcast(e), Broadcast(b), d);
    MindsJoin(first + Broadcast(e) + Broadcast(b), last, d);
    MindsWithin(ConfigMu, first + Broadcast(e) + Broadcast(b) + last, d);
  }

  lemma {:induction false} WrongStays(acts: seq<Act>, d: Data)
    ensures Under(acts, d, Wrong) == Wrong
    decreases |acts|
  {
    if |acts| > 0 { WrongStays(acts[1..], d); }
  }

  lemma AcceptFailsMinds(k: nat, d: Data)
    ensures Under(Acts(AcceptFails(k)), d, Out) == if d == Flags(k) then Wrong else Out
  {
    var body := [Touch(Flags(k), true), Touch(Ports(k), true)];
    UnderWithin(ListenerMu(k), false, body, d, Out);
    assert body[1..] == [Touch(Ports(k), true)] && body[1..][1..] == [];
    assert forall m :: Under(body, d, m) == Under(body[1..], d, HoldNext(body[0], d, m)) == HoldNext(body[1], d, HoldNext(body[0], d, m));
  }

  /** Every path touches every datum under its lock, but for the three that are careless of one. */
  lemma PathMinds(p: Path, d: Data)
    ensures Under(Acts(p), d, Out) == Wrong <==> Careless(p, d)
  {
    match p {
      case Transfer(k) => SharedMinds(ListenerMu(k), Ports(k), d);
      case AcceptFails(k) => AcceptFailsMinds(k, d);
      case PortStatus(k) => SharedMinds(LMu, Flags(k), d);
      case PortClosed(k) => assert Acts(p)[1..] == [];
      case PortClose(k, open) => ClosePortMinds(k, open, d);
      case Redirect(k, ok) => AddPortMinds(k, ok, d);
      case CmdMessage(u, h) => MessageMinds(u, h, d);
      case CmdEof(u, ks) => EofMinds(u, ks, d);
      case CmdClose(u, ks) => CloseCommandMinds(u, ks, d);
      case CmdStatus(u) => TouchMinds(CmdMu(u), Command(u), false, d);
      case Rpc(body, b) => RpcMinds(body, b, d);
      case Reaper(e, b) => ReaperMinds(e, b, d);
      case InitialMessage => SharedMinds(ConfigMu, Records, d);
      case Connections => TouchMinds(ConnMu, Sockets, true, d);
      case InitOrExit(bodies) =>
        if d != Records {
          EachBodyMinds(bodies, d);
        } else if |bodies| > 0 {
          WrongStays(Acts(p)[1..], d);
        }
    }
  }

  function HoldOf(t: Thread, d: Data): Hold {
    if Guard(d) !in t.held then Out else if Guard(d) in t.reading then Shared else Sole
  }

  /** What is left of each thread's path touches the datum under its lock. */
  ghost predicate Minded(ts: seq<Thread>, d: Data) {
    forall i :: 0 <= i < |ts| ==> Under(ts[i].todo, d, HoldOf(ts[i], d)) != Wrong
  }

  lemma HoldSteps(ts: seq<Thread>, i: nat, d: Data)
    requires Excluded(ts) && Can(ts, Go(i))
    ensures var m := HoldNext(ts[i].todo[0], d, HoldOf(ts[i], d)); m != Wrong ==> HoldOf(Do(ts, Go(i))[i], d) == m
  {
    assert !Blocked(ts, i);
  }

  lemma StepMinded(ts: seq<Thread>, s: Step, d: Data)
    requires Minded(ts, d) && Excluded(ts) && Can(ts, s) && (s.Spawn? ==> !Careless(s.p, d))
    ensures Minded(Do(ts, s), d)
  {
    if s.Spawn? {
      PathMinds(s.p, d);
    } else {
      WrongStays(ts[s.i].todo[1..], d);
      HoldSteps(ts, s.i, d);
      hide HoldNext, HoldOf, Excluded;
    }
  }

  lemma {:induction false} RunMinded(steps: seq<Step>, ts: seq<Thread>, d: Data)
    requires Run(steps, ts) && forall i :: 0 <= i < |steps| && steps[i].Spawn? ==> !Careless(steps[i].p, d)
    ensures Minded(ts, d)
    decreases |steps|
  {
    if |steps| > 0 {
      var front, last := steps[..|steps| - 1], steps[|steps| - 1];
      var mid :| Leading([], front, mid) && Leads(mid, last, ts);
      RunMinded(front, mid, d);
      MutualExclusion(front, mid);
      StepMinded(mid, last, d);
    }
  }

  predicate Touches(ts: seq<Thread>, i: nat, d: Data, write: bool) {
    i < |ts| && |ts[i].todo| > 0 && ts[i].todo[0] == Touch(d, write)
  }

  /** Two threads may touch the datum next, one of them to write it. */
  ghost predicate Racing(ts: seq<Thread>, d: Data) {
    exists i: nat, j: nat, w: bool :: i != j && Touches(ts, i, d, true) && Touches(ts, j, d, w)
  }

  /** No data race: in every run of any number of threads in which no path is careless of a datum, it
      is not written by one thread while another is at it. */
  lemma NoRace(steps: seq<Step>, ts: seq<Thread>, d: Data)
    requires Run(steps, ts) && forall i :: 0 <= i < |steps| && steps[i].Spawn? ==> !Careless(steps[i].p, d)
    ensures !Racing(ts, d)
  {
    RunMinded(steps, ts, d);
    MutualExclusion(steps, ts);
    forall i: nat | i < |ts| && |ts[i].todo| > 0 ensures HoldNext(ts[i].todo[0], d, HoldOf(ts[i], d)) != Wrong {
      WrongStays(ts[i].todo[1..], d);
    }
  }

  /** One more thread, which takes its first lock if nobody holds that. */
  lemma Enter(steps: seq<Step>, ts: seq<Thread>, p: Path) returns (steps': seq<Step>, ts': seq<Thread>)
    requires Run(steps, ts) && |Acts(p)| > 1 && Acts(p)[0].Take? && !Acts(p)[0].shared
    requires forall i :: 0 <= i < |ts| ==> Acts(p)[0].l !in ts[i].held
    ensures Run(steps', ts') && |ts'| == |ts| + 1 && ts'[..|ts|] == ts && ts'[|ts|].todo == Acts(p)[1..]
    ensures ts'[|ts|].held == {Acts(p)[0].l} && steps' == steps + [Spawn(p), Go(|ts|)]
  {
    steps', ts' := Extend(steps, ts, Spawn(p));
    steps', ts' := Extend(steps', ts', Go(|ts|));
  }

  /** And every careless path races in some run, with a failing accept loop, a Port.Close or a reaper. */
  lemma CarelessRaces(p: Path, d: Data) returns (steps: seq<Step>, ts: seq<Thread>)
    requires Careless(p, d)
    ensures Run(steps, ts) && Racing(ts, d) && Spawn(p) in steps
  {
    assert Leading([], [], []);
    match p {
      case AcceptFails(k) =>
        steps, ts := Enter([], [], p);
        assert Touches(ts, 0, d, true);
        ghost var was := ts;
        steps, ts := Enter(steps, ts, PortClose(k, false));
        assert ts[0] == was[0];
        assert Touches(ts, 0, d, true) && Touches(ts, 1, d, false);
      case PortClosed(k) =>
        steps, ts := Extend([], [], Spawn(p));
        ghost var was := ts;
        steps, ts := Enter(steps, ts, AcceptFails(k));
        assert ts[0] == was[0];
        assert Touches(ts, 1, d, true) && Touches(ts, 0, d, false);
      case InitOrExit(_) =>
        steps, ts := Extend([], [], Spawn(p));
        ghost var was := ts;
        steps, ts := Enter(steps, ts, Reaper(false, false));
        assert ts[0] == was[0];
        assert Touches(ts, 0, d, true) && Touches(ts, 1, d, false);
    }
  }

  /** The rank of the lock a thread asks for next; 0 if it asks for none. */
  ghost function Asked(t: Thread): nat {
    if |t.todo| > 0 && t.todo[0].Take? then 1 + Rank(t.todo[0].l) else 0
  }

  lemma {:induction false} HighestAsked(ts: seq<Thread>) returns (i: nat)
    requires |ts| > 0
    ensures i < |ts| && forall j :: 0 <= j < |ts| ==> Asked(ts[j]) <= Asked(ts[i])
  {
    i := 0;
    if |ts| > 1 {
      var k := HighestAsked(ts[..|ts| - 1]);
      assert forall j :: 0 <= j < |ts| - 1 ==> ts[..|ts| - 1][j] == ts[j];
      i := if Asked(ts[k]) < Asked(ts[|ts| - 1]) then |ts| - 1 else k;
    }
  }

  /** A waiting thread waits, directly or behind a waiting writer, for one that holds the lock. */
  lemma HolderOf(ts: seq<Thread>, i: nat) returns (h: nat)
    requires i < |ts| && |ts[i].todo| > 0 && Blocked(ts, i)
    requires forall j :: 0 <= j < |ts| && |ts[j].todo| > 0 ==> Blocked(ts, j)
    ensures h < |ts| && ts[i].todo[0].Take? && ts[i].todo[0].l in ts[h].held
  {
    var l := ts[i].todo[0].l;
    if w :| 0 <= w < |ts| && w != i && Wants(ts, w, l, false) {
      assert Blocked(ts, w);
    }
    h :| 0 <= h < |ts| && l in ts[h].held;
  }

  /** Whoever holds a lock has something left to do: to give a lock back, to ask for a higher one,
      or to find that a bind fails. */
  lemma HolderGoesOn(t: Thread, l: Lock)
    requires Exec(t.todo, t.held) in {Held({}), BrokenOff} && l in t.held
    ensures |t.todo| > 0 && (!t.todo[0].Take? || Asked(t) > 1 + Rank(l))
  {
  }

  /** No deadlock: in every reachable state of any number of threads in which no bind has failed,
      unless all are finished, some thread can take its next step. */
  lemma NoDeadlock(steps: seq<Step>, ts: seq<Thread>)
    requires Run(steps, ts) && exists j :: 0 <= j < |ts| && |ts[j].todo| > 0
    requires forall j :: 0 <= j < |ts| ==> !ts[j].lost
    ensures exists i: nat :: i < |ts| && Can(ts, Go(i))
  {
    RunInOrder(steps, ts);
    var j :| 0 <= j < |ts| && |ts[j].todo| > 0;
    if forall k :: 0 <= k < |ts| && |ts[k].todo| > 0 ==> Blocked(ts, k) {
      var i := HighestAsked(ts);
      assert Blocked(ts, j) && Asked(ts[j]) > 0;
      var h := HolderOf(ts, i);
      HolderGoesOn(ts[h], ts[i].todo[0].l);
    } else {
      var i: nat :| i < |ts| && |ts[i].todo| > 0 && !Blocked(ts, i);
      assert Can(ts, Go(i));
    }
  }

  lemma WantsStays(ts: seq<Thread>, s: Step, i: nat, j: nat, shared: bool)
    requires LMuKept(ts) && Can(ts, s) && i < |ts| && ts[i].lost && Wants(ts, j, LMu, shared)
    ensures var ts' := Do(ts, s);
      |ts'| >= |ts| && ts'[i].lost && ts'[j] == ts[j] && Wants(ts', j, LMu, shared) && s != Go(j)
  {
    LostBlocks(ts, i, j, shared);
  }

  /** Once a bind has failed in some run, whatever thread comes to ask for lMu, then or later, the
      one it failed in included, waits for it in every continuation of that run. */
  lemma {:induction false} FailedBindWedges(steps: seq<Step>, ts: seq<Thread>, i: nat, j: nat, shared: bool, more: seq<Step>, ts': seq<Thread>)
    requires Run(steps, ts) && i < |ts| && ts[i].lost && Wants(ts, j, LMu, shared) && Leading(ts, more, ts')
    ensures i < |ts'| && ts'[i].lost && Wants(ts', j, LMu, shared) && ts'[j] == ts[j] && Blocked(ts', j) && LMuKept(ts')
    decreases |more|
  {
    RunInOrder(steps, ts);
    if |more| > 0 {
      var front, last := more[..|more| - 1], more[|more| - 1];
      var mid :| Leading(ts, front, mid) && Leads(mid, last, ts');
      FailedBindWedges(steps, ts, i, j, shared, front, mid);
      WantsStays(mid, last, i, j, shared);
      StepKeepsLMu(mid, last);
    }
    LostBlocks(ts', i, j, shared);
  }

  /** And there is such a run for every path in which a bind fails outside any other lock. */
  lemma BindFailsInARun(k: nat) returns (steps: seq<Step>, ts: seq<Thread>)
    requires k != 0
    ensures Run(steps, ts) && |ts| == 1 && ts[0] == Thread([], {LMu}, {}, true)
  {
    assert Leading([], [], []);
    steps, ts := Extend([], [], Spawn(Redirect(k, false)));
    assert ts == [Thread([Take(LMu, false), Touch(Table, false), BindFails], {}, {}, false)];
    steps, ts := Extend(steps, ts, Go(0));
    assert [Take(LMu, false), Touch(Table, false), BindFails][1..] == [Touch(Table, false), BindFails];
    assert {} + {LMu} == {LMu};
    assert ts == [Thread([Touch(Table, false), BindFails], {LMu}, {}, false)];
    steps, ts := Extend(steps, ts, Go(0));
    assert [Touch(Table, false), BindFails][1..] == [BindFails];
    assert ts == [Thread([BindFails], {LMu}, {}, false)];
    steps, ts := Extend(steps, ts, Go(0));
  }

  lemma Extend(steps: seq<Step>, ts: seq<Thread>, s: Step) returns (steps': seq<Step>, ts': seq<Thread>)
    requires Run(steps, ts) && Can(ts, s)
    ensures steps' == steps + [s] && ts' == Do(ts, s) && Run(steps', ts')
  {
    steps', ts' := steps + [s], Do(ts, s);
    assert steps'[..|steps|] == steps;
    assert Leading([], steps, ts) && Leads(ts, s, ts');
  }
}
