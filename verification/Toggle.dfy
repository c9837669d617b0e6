/** The protocol by which a child asks the proxy for ports, over one socket pair: any number of
    Listen and Close callers in the child, its one reading loop, two FIFO channels, the proxy's
    command loop, and the transfers that hand accepted connections over.

    A request is only a port number. The proxy opens the port if it is not open for this child
    and closes it otherwise; replies carry no request id. */
module Toggle {
  import opened Bytes

  /** Why the child sent a request: for Listen, or for the `k`th caller of Close that found listener
      `l` open. Only the history of the run records it; the proxy never looks. */
  datatype Intent = ToOpen | ToClose(l: nat, k: nat)

  datatype Request = Request(port: uint16, intent: Intent)

  /** `late` records whether the port's acknowledgement had been written when the connection was sent. */
  datatype Reply =
    | Ack(port: uint16)
    | Refusal(port: uint16)
    | Handover(port: uint16, bytes: seq<byte>, late: bool)

  /** The value passed on newSocket. */
  datatype NewSocket = Accepted(chan: nat) | Refused

  /** A caller inside Listen, which holds ucMu throughout, or inside listener.Close before its send:
      past the check of its socket, with the low byte of the number read into its message, with both,
      and with the socket zeroed. */
  datatype Caller =
    | Holding(port: uint16) | Waiting(port: uint16) | Got(port: uint16, ns: NewSocket)
    | Checked(l: nat, k: nat) | Half(l: nat, k: nat, low: byte)
    | Loaded(l: nat, k: nat, port: uint16) | Zeroed(l: nat, k: nat, port: uint16)

  /** A listener object. The history of its closes: how many callers passed the check, and which of
      them had their write fail or their request handled in a session that was open. */
  datatype Listener = Listener(port: uint16, chan: nat, socket: uint16, passed: nat, failed: set<nat>, handled: set<nat>)

  datatype Loop = Reading | Offering(port: uint16, ns: NewSocket) | Ended

  datatype Server = Idle | Took(req: Request) | Added(port: uint16) | Stopped

  datatype Delivery = Delivery(chan: nat, port: uint16, bytes: seq<byte>)

  datatype State = State(
    // the child
    mu: Option<nat>, callers: map<nat, Caller>, listeners: seq<Listener>,
    sockets: map<uint16, nat>, listening: set<uint16>, loop: Loop, chans: nat,
    delivered: seq<Delivery>, dropped: seq<Delivery>,
    // the socket pair
    toServer: seq<Request>, toClient: seq<Reply>,
    // the proxy
    open: set<uint16>, closed: bool, srv: Server, acked: set<uint16>, pending: seq<(uint16, seq<byte>)>,
    // history: some request was not handled as its sender meant it
    confused: bool)

  const INIT := State(None, map[], [], map[], {}, Reading, 0, [], [], [], [], {}, false, Idle, {}, [], false)

  datatype Action =
    | Lock(t: nat, port: uint16)            // Listen: ucMu.Lock
    | Ask(t: nat, ok: bool)                 // Listen: the check, then the write, which may fail
    | Receive(t: nat)                       // Listen: <-newSocket
    | Return(t: nat)                        // Listen: ucMu.Unlock, and the listener it makes
    | CloseCheck(t: nat, l: nat)            // Close: the check of socket
    | CloseLow(t: nat)                      // Close: the first byte of the message, from socket
    | CloseHigh(t: nat)                     // Close: the second, from socket again
    | CloseZero(t: nat)                     // Close: socket zeroed
    | CloseSend(t: nat, ok: bool)           // Close: the write under ucMu
    | LoopRead                              // runListenLoop: one message
    | LoopEnd                               // runListenLoop: the read fails
    | Take                                  // runCmdLoop: one message read
    | Handle(bindOk: bool)                  // runCmdLoop: the decision, up to a successful addPort
    | Answer                                // runCmdLoop: the entry made and the port acknowledged
    | Shut                                  // UnixCmd.Close
    | Eof                                   // runCmdLoop: the read fails
    | Match(port: uint16, bytes: seq<byte>) // a transfer picks one of this child's ports
    | HandOver(i: nat)                      // that transfer's write

  /** uint16(buf[1])<<8 | uint16(buf[0]), and its inverse. */
  function Encode(port: uint16): (b: seq<byte>) { [port % 0x100, port / 0x100] }

  function Decode(b: seq<byte>): (port: uint16)
    requires |b| >= 2
  { (b[1] as int) * 0x100 + b[0] }

  lemma PortRoundTrip(port: uint16, b: seq<byte>)
    ensures Decode(Encode(port)) == port
    ensures |b| == 2 ==> Encode(Decode(b)) == b
  {
  }

  /** What runCmdLoop does with a port number, by the ports it has open. */
  datatype Choice = Ignore | CloseIt | OpenIt

  function Choose(open: set<uint16>, closed: bool, port: uint16): Choice {
    if closed then Ignore else if port in open then CloseIt else OpenIt
  }

  /** The child's tables of ports. */
  datatype Table = Table(sockets: map<uint16, nat>, listening: set<uint16>, chans: nat)

  /** What runListenLoop does to them on an acknowledgement. */
  function OnAck(t: Table, port: uint16): (r: Table) {
    if port in t.sockets then Table(t.sockets - {port}, t.listening - {port}, t.chans)
    else Table(t.sockets[port := t.chans], t.listening + {port}, t.chans + 1)
  }

  /** How the child reads a message that has no connection beside it. */
  datatype Control = Acked(port: uint16) | Denied(text: seq<byte>) | Short

  function ReadControl(data: seq<byte>): Control {
    if |data| == 2 then Acked(Decode(data)) else if |data| > 2 then Denied(data[2..]) else Short
  }

  /** The child reads back what the proxy wrote; a refusal needs an error text, for without one it
      is an acknowledgement. */
  lemma ControlRoundTrip(port: uint16, text: seq<byte>)
    ensures ReadControl(Encode(port)) == Acked(port)
    ensures ReadControl(Encode(port) + text) == if text != [] then Denied(text) else Acked(port)
  {
    assert (Encode(port) + text)[2..] == text;
    assert text == [] ==> Encode(port) + text == Encode(port);
  }

  ghost predicate Can(s: State, a: Action) {
    match a
    case Lock(t, port) => s.mu.None? && t !in s.callers && port != 0
    case Ask(t, _) => t in s.callers && s.callers[t].Holding?
    case Receive(t) => t in s.callers && s.callers[t].Waiting? && s.loop.Offering?
    case Return(t) => t in s.callers && s.callers[t].Got?
    case CloseCheck(t, l) => t !in s.callers && l < |s.listeners| && s.listeners[l].socket != 0
    case CloseLow(t) => t in s.callers && s.callers[t].Checked? && s.callers[t].l < |s.listeners|
    case CloseHigh(t) => t in s.callers && s.callers[t].Half? && s.callers[t].l < |s.listeners|
    case CloseZero(t) => t in s.callers && s.callers[t].Loaded? && s.callers[t].l < |s.listeners|
    case CloseSend(t, _) => s.mu.None? && t in s.callers && s.callers[t].Zeroed? && s.callers[t].l < |s.listeners|
    case LoopRead => s.loop.Reading? && |s.toClient| > 0
    case LoopEnd => s.loop.Reading?
    case Take => s.srv.Idle? && |s.toServer| > 0
    case Handle(_) => s.srv.Took?
    case Answer => s.srv.Added?
    case Shut => !s.srv.Added?
    case Eof => s.srv.Idle?
    case Match(port, _) => port in s.open || s.srv == Added(port)
    case HandOver(i) => i < |s.pending|
  }

  ghost function Do(s: State, a: Action): State
    requires Can(s, a)
  {
    match a
    case Lock(t, port) => s.(mu := Some(t), callers := s.callers[t := Holding(port)])
    case Ask(t, ok) =>
      var port := s.callers[t].port;
      if port in s.listening || !ok then s.(mu := None, callers := s.callers - {t})
      else s.(callers := s.callers[t := Waiting(port)], toServer := s.toServer + [Request(port, ToOpen)])
    case Receive(t) => s.(callers := s.callers[t := Got(s.callers[t].port, s.loop.ns)], loop := Reading)
    case Return(t) =>
      var c := s.callers[t];
      s.(mu := None, callers := s.callers - {t},
         listeners := if c.ns.Refused? then s.listeners
                      else s.listeners + [Listener(c.port, c.ns.chan, c.port, 0, {}, {})])
    case CloseCheck(t, l) =>
      var k := s.listeners[l].passed;
      s.(callers := s.callers[t := Checked(l, k)], listeners := s.listeners[l := s.listeners[l].(passed := k + 1)])
    case CloseLow(t) =>
      var c := s.callers[t];
      s.(callers := s.callers[t := Half(c.l, c.k, s.listeners[c.l].socket % 0x100)])
    case CloseHigh(t) =>
      var c := s.callers[t];
      s.(callers := s.callers[t := Loaded(c.l, c.k, Decode([c.low, s.listeners[c.l].socket / 0x100]))])
    case CloseZero(t) =>
      var c := s.callers[t];
      s.(callers := s.callers[t := Zeroed(c.l, c.k, c.port)], listeners := s.listeners[c.l := s.listeners[c.l].(socket := 0)])
    case CloseSend(t, ok) =>
      var c := s.callers[t];
      var li := s.listeners[c.l];
      if ok then s.(callers := s.callers - {t}, toServer := s.toServer + [Request(c.port, ToClose(c.l, c.k))])
      else s.(callers := s.callers - {t}, listeners := s.listeners[c.l := li.(failed := li.failed + {c.k})])
    case LoopRead => DoLoopRead(s.(toClient := s.toClient[1..]), s.toClient[0])
    case LoopEnd => s.(loop := Ended)
    case Take => s.(srv := Took(s.toServer[0]), toServer := s.toServer[1..])
    case Handle(bindOk) => DoHandle(s, s.srv.req, bindOk)
    case Answer =>
      var port := s.srv.port;
      s.(srv := Idle, open := s.open + {port}, acked := s.acked + {port}, toClient := s.toClient + [Ack(port)])
    case Shut => s.(closed := true, open := {})
    case Eof => s.(closed := true, open := {}, srv := Stopped)
    case Match(port, bytes) => s.(pending := s.pending + [(port, bytes)])
    case HandOver(i) =>
      var (port, bytes) := s.pending[i];
      s.(pending := s.pending[..i] + s.pending[i + 1..],
         toClient := if s.closed then s.toClient else s.toClient + [Handover(port, bytes, port in s.acked)])
  }

  /** The child's loop on one message. */
  ghost function DoLoopRead(s: State, m: Reply): State {
    match m
    case Ack(port) =>
      var t := OnAck(Table(s.sockets, s.listening, s.chans), port);
      s.(sockets := t.sockets, listening := t.listening, chans := t.chans,
         loop := if port in s.sockets then Reading else Offering(port, Accepted(s.chans)))
    case Refusal(port) => s.(loop := Offering(port, Refused))
    case Handover(port, bytes, _) =>
      if port in s.sockets then s.(delivered := s.delivered + [Delivery(s.sockets[port], port, bytes)])
      else s.(dropped := s.dropped + [Delivery(0, port, bytes)])
  }

  /** A request is handled as its sender meant it: one of Listen opens its port, and one of Close
      closes the port of its own listener. */
  ghost predicate AsMeant(s: State, req: Request) {
    match req.intent
    case ToOpen => Choose(s.open, s.closed, req.port) == OpenIt
    case ToClose(l, _) =>
      Choose(s.open, s.closed, req.port) == CloseIt && l < |s.listeners| && req.port == s.listeners[l].port
  }

  /** The proxy's loop on one message. */
  ghost function DoHandle(s: State, req: Request, bindOk: bool): State {
    match Choose(s.open, s.closed, req.port)
    case Ignore => s.(srv := Idle)
    case CloseIt => Spent(s.(srv := Idle, open := s.open - {req.port}), req, AsMeant(s, req))
    case OpenIt =>
      if req.port == 0 || !bindOk
      then Spent(s.(srv := Idle, toClient := s.toClient + [Refusal(req.port)]), req, AsMeant(s, req))
      else Spent(s.(srv := Added(req.port)), req, AsMeant(s, req))
  }

  /** The history of a request that has been handled. */
  ghost function Spent(s: State, req: Request, asMeant: bool): State {
    var s' := s.(confused := s.confused || !asMeant);
    if req.intent.ToClose? && req.intent.l < |s.listeners| then
      var li := s.listeners[req.intent.l];
      s'.(listeners := s.listeners[req.intent.l := li.(handled := li.handled + {req.intent.k})])
    else s'
  }

  // ---------- the invariant ----------

  ghost predicate Waits(s: State) {
    s.mu.Some? && s.mu.value in s.callers && s.callers[s.mu.value].Waiting?
  }

  function Opens(q: seq<Request>): nat {
    if |q| == 0 then 0 else Opens(q[..|q| - 1]) + if q[|q| - 1].intent.ToOpen? then 1 else 0
  }

  function Answers(q: seq<Reply>): nat {
    if |q| == 0 then 0 else Answers(q[..|q| - 1]) + if q[|q| - 1].Handover? then 0 else 1
  }

  /** How many open requests are on their way round. */
  ghost function Tokens(s: State): nat {
    Opens(s.toServer) + Answers(s.toClient)
    + (if s.srv.Added? || (s.srv.Took? && s.srv.req.intent.ToOpen?) then 1 else 0)
    + (if s.loop.Offering? then 1 else 0)
  }

  predicate IsCloser(c: Caller) {
    c.Checked? || c.Half? || c.Loaded? || c.Zeroed?
  }

  /** One request at a time, and only for the caller that waits. */
  ghost predicate OneToken(s: State) {
    && (s.mu.Some? ==> s.mu.value in s.callers && !IsCloser(s.callers[s.mu.value]))
    && (forall t :: t in s.callers && !IsCloser(s.callers[t]) ==> s.mu == Some(t))
    && Tokens(s) <= (if Waits(s) then 1 else 0)
    && (Waits(s) ==>
          var port := s.callers[s.mu.value].port;
          && port != 0
          && (forall i :: 0 <= i < |s.toServer| && s.toServer[i].intent.ToOpen? ==> s.toServer[i].port == port)
          && (forall i :: 0 <= i < |s.toClient| && !s.toClient[i].Handover? ==> s.toClient[i].port == port)
          && (s.srv.Added? ==> s.srv.port == port)
          && (s.srv.Took? && s.srv.req.intent.ToOpen? ==> s.srv.req.port == port)
          && (s.loop.Offering? ==> s.loop.port == port)
          && (!s.loop.Offering? || s.loop.ns.Refused? ==> port !in s.listening))
    && (forall t :: t in s.callers && s.callers[t].Holding? ==> s.callers[t].port != 0)
  }

  /** The ports on the two sides. What was acknowledged is listened on or about to be. */
  ghost predicate PortsAgree(s: State) {
    && s.sockets.Keys == s.listening && 0 !in s.open
    && (forall p :: p in s.sockets ==> s.sockets[p] < s.chans)
    && (forall p, q :: p in s.sockets && q in s.sockets && p != q ==> s.sockets[p] != s.sockets[q])
    && (s.closed ==> s.open == {} && !s.srv.Added?)
    && (forall p :: p in s.open ==> p in s.listening || Ack(p) in s.toClient)
    && (forall p :: p in s.acked <==> p in s.listening || Ack(p) in s.toClient)
    && (forall p :: Ack(p) in s.toClient && !s.closed ==> p in s.open)
  }

  /** A connection on its way to the child will find a channel exactly if it was sent late. */
  ghost predicate HandoversOk(s: State) {
    forall i :: 0 <= i < |s.toClient| && s.toClient[i].Handover? ==>
      (s.toClient[i].late <==> s.toClient[i].port in s.listening || Ack(s.toClient[i].port) in s.toClient[..i])
  }

  /** A port has been given to the child and no listener made of it yet. */
  ghost predicate Given(s: State, port: uint16, chan: nat) {
    && port in s.sockets && s.sockets[port] == chan && port != 0
    && (!s.closed ==> port in s.open)
    && (forall i :: 0 <= i < |s.listeners| ==> s.listeners[i].port != port)
  }

  /** Every listener has a port and a channel of its own, and closes once. */
  ghost predicate ListenersOwn(s: State) {
    && (forall i :: 0 <= i < |s.listeners| ==> ListenerOk(s, s.listeners[i]))
    && (forall i, j :: 0 <= i < j < |s.listeners| ==> s.listeners[i].port != s.listeners[j].port)
    && (forall t :: t in s.callers && s.callers[t].Got? && s.callers[t].ns.Accepted? ==>
          Given(s, s.callers[t].port, s.callers[t].ns.chan))
    && (s.loop.Offering? && s.loop.ns.Accepted? ==> Given(s, s.loop.port, s.loop.ns.chan))
  }

  /** At most one close of a listener has been handled, and its port is open until then. */
  ghost predicate ListenerOk(s: State, l: Listener) {
    && l.port in s.sockets && s.sockets[l.port] == l.chan && l.port != 0
    && (l.socket == 0 || l.socket == l.port) && (l.passed == 0 ==> l.socket == l.port)
    && (!s.closed ==> (l.port in s.open <==> l.handled == {}))
    && (forall a :: a in l.handled || a in l.failed ==> a < l.passed)
    && (l.handled != {} ==> l.socket == 0)
    && (forall a, b :: a in l.handled && b in l.handled ==> a == b)
  }

  /** Every close on its way is in one place: with its caller, in the channel, or in the proxy's
      hands. */
  ghost predicate ClosesApart(s: State) {
    && (forall t :: t in s.callers && IsCloser(s.callers[t]) ==> CloserOk(s, s.callers[t]))
    && (forall t, u :: t in s.callers && u in s.callers && t != u && IsCloser(s.callers[t]) && IsCloser(s.callers[u]) ==>
          Of(s.callers[t]) != Of(s.callers[u]))
    && (forall i :: 0 <= i < |s.toServer| && s.toServer[i].intent.ToClose? ==> CloseOk(s, s.toServer[i]))
    && (forall i, j :: 0 <= i < j < |s.toServer| && s.toServer[i].intent.ToClose? ==>
          s.toServer[i].intent != s.toServer[j].intent)
    && (forall t, i :: t in s.callers && IsCloser(s.callers[t]) && 0 <= i < |s.toServer| ==>
          s.toServer[i].intent != Of(s.callers[t]))
    && (s.srv.Took? && s.srv.req.intent.ToClose? ==>
          && CloseOk(s, s.srv.req)
          && (forall i :: 0 <= i < |s.toServer| ==> s.toServer[i].intent != s.srv.req.intent)
          && (forall t :: t in s.callers && IsCloser(s.callers[t]) ==> Of(s.callers[t]) != s.srv.req.intent))
  }

  /** Which close a caller is about. */
  function Of(c: Caller): Intent
    requires IsCloser(c)
  {
    ToClose(c.l, c.k)
  }

  /** The `k`th close of a listener has neither failed nor been handled. */
  predicate Pending(l: Listener, k: nat) {
    k < l.passed && k !in l.failed && k !in l.handled
  }

  /** What a caller may have read from the listener's socket: each byte 0 only if another caller has
      zeroed it. */
  predicate LowByte(l: Listener, low: byte) {
    (low == 0 || low == l.port % 0x100) && (l.passed == 1 ==> low == l.port % 0x100 && l.socket == l.port)
  }

  predicate Loadable(l: Listener, port: uint16) {
    && (port % 0x100 == 0 || port % 0x100 == l.port % 0x100) && (port / 0x100 == 0 || port / 0x100 == l.port / 0x100)
    && (l.passed == 1 ==> port == l.port)
  }

  ghost predicate CloserOk(s: State, c: Caller)
    requires IsCloser(c)
  {
    && c.l < |s.listeners| && Pending(s.listeners[c.l], c.k) && (c.Zeroed? ==> s.listeners[c.l].socket == 0)
    && match c
       case Checked(l, _) => Loadable(s.listeners[l], s.listeners[l].socket)
       case Half(l, _, low) => LowByte(s.listeners[l], low)
       case Loaded(l, _, port) => Loadable(s.listeners[l], port)
       case Zeroed(l, _, port) => Loadable(s.listeners[l], port)
  }

  ghost predicate CloseOk(s: State, req: Request) {
    && req.intent.ToClose? && req.intent.l < |s.listeners| && s.listeners[req.intent.l].socket == 0
    && Pending(s.listeners[req.intent.l], req.intent.k) && Loadable(s.listeners[req.intent.l], req.port)
  }

  /** No close is lost while the session is open. */
  ghost predicate NoneLost(s: State) {
    !s.closed ==> forall l, k :: 0 <= l < |s.listeners| && Pending(s.listeners[l], k) ==> OnItsWay(s, ToClose(l, k))
  }

  ghost predicate OnItsWay(s: State, i: Intent) {
    || (exists t :: t in s.callers && IsCloser(s.callers[t]) && Of(s.callers[t]) == i)
    || (exists j :: 0 <= j < |s.toServer| && s.toServer[j].intent == i)
    || (s.srv.Took? && s.srv.req.intent == i)
  }

  ghost predicate Inv(s: State) {
    !s.confused && OneToken(s) && PortsAgree(s) && HandoversOk(s) && ListenersOwn(s) && ClosesApart(s) && NoneLost(s)
  }

  lemma OpensOf(q: seq<Request>, i: nat)
    requires i < |q| && q[i].intent.ToOpen?
    ensures Opens(q) > 0
  {
    if i < |q| - 1 { OpensOf(q[..|q| - 1], i); }
  }

  lemma OpensTail(q: seq<Request>)
    requires |q| > 0
    ensures Opens(q) == Opens(q[1..]) + if q[0].intent.ToOpen? then 1 else 0
  {
    if |q| > 1 {
      assert q[1..][..|q| - 2] == q[..|q| - 1][1..];
      OpensTail(q[..|q| - 1]);
    }
  }

  lemma AnswersOf(q: seq<Reply>, i: nat)
    requires i < |q| && !q[i].Handover?
    ensures Answers(q) > 0
  {
    if i < |q| - 1 { AnswersOf(q[..|q| - 1], i); }
  }

  lemma AnswersTail(q: seq<Reply>)
    requires |q| > 0
    ensures Answers(q) == Answers(q[1..]) + if q[0].Handover? then 0 else 1
  {
    if |q| > 1 {
      assert q[1..][..|q| - 2] == q[..|q| - 1][1..];
      AnswersTail(q[..|q| - 1]);
    }
  }

  /** With no open request on its way round, nothing in either channel is part of one. */
  lemma NoTokens(s: State)
    ensures Opens(s.toServer) == 0 ==> forall i :: 0 <= i < |s.toServer| ==> !s.toServer[i].intent.ToOpen?
    ensures Answers(s.toClient) == 0 ==> forall i :: 0 <= i < |s.toClient| ==> s.toClient[i].Handover?
  {
    forall i | 0 <= i < |s.toServer| && s.toServer[i].intent.ToOpen? ensures Opens(s.toServer) > 0 {
      OpensOf(s.toServer, i);
    }
    forall i | 0 <= i < |s.toClient| && !s.toClient[i].Handover? ensures Answers(s.toClient) > 0 {
      AnswersOf(s.toClient, i);
    }
  }

  /** While an open request has not been answered, its port is closed on both sides. */
  lemma TokenPortClosed(s: State)
    requires Inv(s) && (s.srv.Added? || (s.srv.Took? && s.srv.req.intent.ToOpen?))
    ensures Waits(s) && s.callers[s.mu.value].port !in s.open && s.callers[s.mu.value].port !in s.listening
    ensures forall p :: Ack(p) !in s.toClient
  {
    NoTokens(s);
  }

  /** Exactly which requests in the proxy's hands are handled as they are meant: those to open, and
      the first close of a listener to be handled, if it carries the listener's port. */
  lemma MeantWhen(s: State)
    requires Inv(s) && s.srv.Took? && !s.closed
    ensures var req := s.srv.req;
      AsMeant(s, req) <==>
        req.intent.ToOpen? || (req.port == s.listeners[req.intent.l].port && s.listeners[req.intent.l].handled == {})
  {
    if s.srv.req.intent.ToOpen? {
      TokenPortClosed(s);
    } else {
      assert ListenerOk(s, s.listeners[s.srv.req.intent.l]);
    }
  }

  /** A close in the proxy's hands is handled as meant. */
  ghost predicate ClosesOwn(s: State) {
    && s.srv.Took? && s.srv.req.intent.ToClose? && !s.closed && s.srv.req.port in s.open
    && s.srv.req.intent.l < |s.listeners| && s.srv.req.port == s.listeners[s.srv.req.intent.l].port
  }

  /** Such a request is the first of its listener, whose port is open. */
  lemma TakenCloseOpen(s: State)
    requires Inv(s) && ClosesOwn(s)
    ensures s.srv.req.port in s.listening && Ack(s.srv.req.port) !in s.toClient
    ensures s.listeners[s.srv.req.intent.l].handled == {}
  {
    assert ListenerOk(s, s.listeners[s.srv.req.intent.l]);
    NoTokens(s);
  }

  // ---------- every step keeps it ----------

  /** What the proxy's loop does with a request, apart from the listeners' history. */
  lemma HandleShape(s: State, bindOk: bool)
    requires Can(s, Handle(bindOk))
    ensures var s', req := Do(s, Handle(bindOk)), s.srv.req;
      && s'.toServer == s.toServer && s'.callers == s.callers && s'.mu == s.mu && s'.loop == s.loop && s'.closed == s.closed
      && s'.sockets == s.sockets && s'.listening == s.listening
      && s'.delivered == s.delivered && s'.dropped == s.dropped && s'.pending == s.pending
      && match Choose(s.open, s.closed, req.port)
         case OpenIt =>
           if req.port == 0 || !bindOk then s'.srv == Idle && s'.toClient == s.toClient + [Refusal(req.port)]
           else s'.srv == Added(req.port) && s'.toClient == s.toClient
         case _ => s'.srv == Idle && s'.toClient == s.toClient
  {
    var req, b := s.srv.req, AsMeant(s, s.srv.req);
    SpentShape(s.(srv := Idle, open := s.open - {req.port}), req, b);
    SpentShape(s.(srv := Idle, toClient := s.toClient + [Refusal(req.port)]), req, b);
    SpentShape(s.(srv := Added(req.port)), req, b);
    hide Spent, AsMeant;
  }

  lemma SpentShape(s: State, req: Request, asMeant: bool)
    ensures var s' := Spent(s, req, asMeant); s' == s.(confused := s'.confused, listeners := s'.listeners)
  {
  }

  /** Steps that touch neither the listeners nor what was given for one. */
  lemma OwnFramed(s: State, s': State)
    requires ListenersOwn(s)
    requires s'.listeners == s.listeners && s'.sockets == s.sockets && s'.open == s.open && s'.closed == s.closed
    requires s'.loop == s.loop || !s'.loop.Offering?
    requires forall t :: t in s'.callers && s'.callers[t].Got? ==> t in s.callers && s'.callers[t] == s.callers[t]
    ensures ListenersOwn(s')
  {
    assert forall i :: 0 <= i < |s.listeners| ==> ListenerOk(s, s.listeners[i]) && ListenerOk(s', s.listeners[i]);
  }

  /** Steps that neither start a close nor move one. */
  lemma ClosesFramed(s: State, s': State)
    requires ClosesApart(s) && NoneLost(s) && s'.listeners == s.listeners && (s.closed ==> s'.closed)
    requires forall t :: t in s'.callers && IsCloser(s'.callers[t]) ==> t in s.callers && s'.callers[t] == s.callers[t]
    requires forall t :: t in s.callers && IsCloser(s.callers[t]) ==> t in s'.callers && s'.callers[t] == s.callers[t]
    requires s'.toServer == s.toServer
      || (|s'.toServer| == |s.toServer| + 1 && s'.toServer[..|s.toServer|] == s.toServer && s'.toServer[|s.toServer|].intent.ToOpen?)
    requires s'.srv == s.srv || (!s'.srv.Took? && (s'.closed || !s.srv.Took? || s.srv.req.intent.ToOpen?))
    ensures ClosesApart(s') && NoneLost(s')
  {
    forall i | 0 <= i < |s'.toServer| && s'.toServer[i].intent.ToClose?
      ensures i < |s.toServer| && s'.toServer[i] == s.toServer[i] && CloseOk(s', s'.toServer[i])
    {
      assert s'.toServer[i] == s.toServer[i];
      assert CloseOk(s, s.toServer[i]);
    }
    forall t | t in s'.callers && IsCloser(s'.callers[t]) ensures CloserOk(s', s'.callers[t]) { assert CloserOk(s, s.callers[t]); }
    if !s'.closed {
      forall l, k | 0 <= l < |s.listeners| && Pending(s.listeners[l], k) ensures OnItsWay(s', ToClose(l, k)) {
        StillOnItsWay(s, s', ToClose(l, k));
      }
    }
  }

  lemma StillOnItsWay(s: State, s': State, i: Intent)
    requires OnItsWay(s, i) && i.ToClose?
    requires forall t :: t in s.callers && IsCloser(s.callers[t]) ==>
      t in s'.callers && IsCloser(s'.callers[t]) && Of(s'.callers[t]) == Of(s.callers[t])
    requires |s.toServer| <= |s'.toServer| && s'.toServer[..|s.toServer|] == s.toServer
    requires s.srv.Took? && s.srv.req.intent == i ==> s'.srv == s.srv
    ensures OnItsWay(s', i)
  {
    if t :| t in s.callers && IsCloser(s.callers[t]) && Of(s.callers[t]) == i {
      assert Of(s'.callers[t]) == i;
    } else if j :| 0 <= j < |s.toServer| && s.toServer[j].intent == i {
      assert s'.toServer[j] == s'.toServer[..|s.toServer|][j];
    }
  }

  /** Messages other than handovers may join the queue. */
  lemma HandoversFramed(s: State, s': State)
    requires HandoversOk(s) && s'.listening == s.listening
    requires s'.toClient == s.toClient
      || (|s'.toClient| == |s.toClient| + 1 && s'.toClient[..|s.toClient|] == s.toClient && !s'.toClient[|s.toClient|].Handover?)
    ensures HandoversOk(s')
  {
    forall i | 0 <= i < |s'.toClient| && s'.toClient[i].Handover?
      ensures i < |s.toClient| && s'.toClient[i] == s.toClient[i] && s'.toClient[..i] == s.toClient[..i]
    {
      assert s'.toClient[i] == s'.toClient[..|s.toClient|][i];
    }
  }

  /** Steps that leave the tables and the open ports alone. */
  lemma PortsFramed(s: State, s': State)
    requires PortsAgree(s) && s'.sockets == s.sockets && s'.listening == s.listening && s'.chans == s.chans
    requires s'.open == s.open && s'.closed == s.closed && s'.acked == s.acked && (s'.closed ==> !s'.srv.Added?)
    requires forall p :: Ack(p) in s.toClient <==> Ack(p) in s'.toClient
    ensures PortsAgree(s')
  {
  }

  lemma ClosedIdle(s: State)
    requires PortsAgree(s)
    ensures s.closed ==> !s.srv.Added?
  {
  }

  lemma AskKeepsToken(s: State, t: nat, ok: bool)
    requires Inv(s) && Can(s, Ask(t, ok))
    ensures OneToken(Do(s, Ask(t, ok)))
  {
    hide PortsAgree, HandoversOk, ListenersOwn, ClosesApart, NoneLost, Opens, Answers;
    NoTokens(s);
    Appended(s.toServer, Request(s.callers[t].port, ToOpen), s.toClient, Ack(0));
  }

  lemma AskKeeps(s: State, t: nat, ok: bool)
    requires Inv(s) && Can(s, Ask(t, ok))
    ensures Inv(Do(s, Ask(t, ok)))
  {
    hide OneToken, PortsAgree, HandoversOk, ListenersOwn, ClosesApart, NoneLost;
    AskKeepsToken(s, t, ok);
    ClosedIdle(s);
    PortsFramed(s, Do(s, Ask(t, ok)));
    HandoversFramed(s, Do(s, Ask(t, ok)));
    OwnFramed(s, Do(s, Ask(t, ok)));
    ClosesFramed(s, Do(s, Ask(t, ok)));
  }

  lemma ReturnKeepsPorts(s: State, t: nat)
    requires Inv(s) && Can(s, Return(t))
    ensures OneToken(Do(s, Return(t))) && PortsAgree(Do(s, Return(t)))
  {
    hide HandoversOk, ListenersOwn, ClosesApart, NoneLost;
  }

  lemma ReturnKeepsApart(s: State, t: nat)
    requires Inv(s) && Can(s, Return(t))
    ensures ClosesApart(Do(s, Return(t)))
  {
    hide OneToken, PortsAgree, HandoversOk, ListenersOwn, NoneLost;
    var s' := Do(s, Return(t));
    assert s'.toServer == s.toServer && s'.srv == s.srv;
    forall u | u in s'.callers && IsCloser(s'.callers[u]) ensures CloserOk(s', s'.callers[u]) { assert CloserOk(s, s.callers[u]); }
    forall i | 0 <= i < |s.toServer| && s.toServer[i].intent.ToClose? ensures CloseOk(s', s.toServer[i]) { assert CloseOk(s, s.toServer[i]); }
    if s.srv.Took? && s.srv.req.intent.ToClose? { assert CloseOk(s', s.srv.req); }
  }

  lemma ReturnLosesNone(s: State, t: nat)
    requires NoneLost(s) && Can(s, Return(t))
    ensures NoneLost(Do(s, Return(t)))
  {
    var s' := Do(s, Return(t));
    hide OnItsWay;
    if !s.closed {
      forall l, k | 0 <= l < |s'.listeners| && Pending(s'.listeners[l], k) ensures OnItsWay(s', ToClose(l, k)) {
        assert l < |s.listeners| && Pending(s.listeners[l], k);
        StillOnItsWay(s, s', ToClose(l, k));
      }
    }
  }

  lemma ReturnKeepsListeners(s: State, t: nat)
    requires Inv(s) && Can(s, Return(t))
    ensures ListenersOwn(Do(s, Return(t)))
  {
    hide PortsAgree, HandoversOk, ClosesApart, NoneLost;
    var s' := Do(s, Return(t));
    forall i | 0 <= i < |s'.listeners| ensures ListenerOk(s', s'.listeners[i]) {
      if i < |s.listeners| { assert ListenerOk(s, s.listeners[i]); }
    }
  }

  lemma ReturnKeeps(s: State, t: nat)
    requires Inv(s) && Can(s, Return(t))
    ensures Inv(Do(s, Return(t)))
  {
    hide OneToken, PortsAgree, HandoversOk, ListenersOwn, ClosesApart, NoneLost;
    ReturnKeepsPorts(s, t);
    ReturnKeepsListeners(s, t);
    ReturnKeepsApart(s, t);
    ReturnLosesNone(s, t);
    HandoversFramed(s, Do(s, Return(t)));
  }

  /** A change of one listener's close history keeps what is said of all of them. */
  lemma HistoryKeepsListeners(s: State, s': State, l: nat)
    requires ListenersOwn(s) && l < |s.listeners| && |s'.listeners| == |s.listeners|
    requires s'.listeners == s.listeners[l := s'.listeners[l]] && ListenerOk(s', s'.listeners[l])
    requires s'.listeners[l].port == s.listeners[l].port
    requires s'.sockets == s.sockets && s'.open == s.open && s'.closed == s.closed && s'.loop == s.loop
    requires forall t :: t in s'.callers && s'.callers[t].Got? ==> t in s.callers && s'.callers[t] == s.callers[t]
    ensures ListenersOwn(s')
  {
    forall i | 0 <= i < |s'.listeners| ensures ListenerOk(s', s'.listeners[i]) {
      assert ListenerOk(s, s.listeners[i]);
    }
  }

  lemma CloseCheckKeepsApart(s: State, t: nat, l: nat)
    requires Inv(s) && Can(s, CloseCheck(t, l))
    ensures ClosesApart(Do(s, CloseCheck(t, l)))
  {
    hide OneToken, PortsAgree, HandoversOk, NoneLost;
    var s' := Do(s, CloseCheck(t, l));
    assert ListenerOk(s, s.listeners[l]);
    hide ListenersOwn;
    forall u | u in s'.callers && IsCloser(s'.callers[u]) ensures CloserOk(s', s'.callers[u]) {
      if u != t { assert CloserOk(s, s.callers[u]); }
    }
    forall i | 0 <= i < |s.toServer| && s.toServer[i].intent.ToClose? ensures CloseOk(s', s.toServer[i]) { assert CloseOk(s, s.toServer[i]); }
  }

  lemma CloseCheckLosesNone(s: State, t: nat, l: nat)
    requires NoneLost(s) && Can(s, CloseCheck(t, l))
    ensures NoneLost(Do(s, CloseCheck(t, l)))
  {
    var s' := Do(s, CloseCheck(t, l));
    if !s.closed {
      forall m, k | 0 <= m < |s'.listeners| && Pending(s'.listeners[m], k) ensures OnItsWay(s', ToClose(m, k)) {
        if m == l && k == s.listeners[l].passed { assert Of(s'.callers[t]) == ToClose(m, k); } else { StillOnItsWay(s, s', ToClose(m, k)); }
      }
    }
  }

  lemma CloseCheckKeeps(s: State, t: nat, l: nat)
    requires Inv(s) && Can(s, CloseCheck(t, l))
    ensures Inv(Do(s, CloseCheck(t, l)))
  {
    hide ClosesApart, NoneLost;
    var s' := Do(s, CloseCheck(t, l));
    CloseCheckKeepsApart(s, t, l);
    CloseCheckLosesNone(s, t, l);
    HandoversFramed(s, s');
    hide HandoversOk;
    assert ListenerOk(s, s.listeners[l]);
    HistoryKeepsListeners(s, s', l);
  }

  /** A close goes on with its caller; the listener's socket may be zeroed by it. */
  ghost predicate Moves(s: State, s': State, t: nat) {
    && t in s.callers && IsCloser(s.callers[t]) && CloserOk(s, s.callers[t])
    && t in s'.callers && s'.callers == s.callers[t := s'.callers[t]] && IsCloser(s'.callers[t]) && Of(s'.callers[t]) == Of(s.callers[t])
    && s' == s.(callers := s'.callers, listeners := s'.listeners)
    && (s'.listeners == s.listeners || s'.listeners == s.listeners[s.callers[t].l := s.listeners[s.callers[t].l].(socket := 0)])
    && !s'.callers[t].Checked? && |s'.listeners| == |s.listeners|
    && (s'.listeners == s.listeners || !s'.callers[t].Half?)
    && CloserOk(s.(listeners := s'.listeners), s'.callers[t])
  }

  lemma MovesKeepsApart(s: State, s': State, t: nat)
    requires ClosesApart(s) && Moves(s, s', t)
    ensures ClosesApart(s')
  {
    forall u | u in s'.callers && IsCloser(s'.callers[u]) ensures CloserOk(s', s'.callers[u]) {
      assert CloserOk(s, s.callers[u]);
      if u != t { assert Of(s.callers[u]) != Of(s.callers[t]); }
    }
    forall i | 0 <= i < |s.toServer| && s.toServer[i].intent.ToClose? ensures CloseOk(s', s.toServer[i]) { assert CloseOk(s, s.toServer[i]); }
    if s.srv.Took? && s.srv.req.intent.ToClose? { assert CloseOk(s', s.srv.req); }
  }

  lemma MovesLosesNone(s: State, s': State, t: nat)
    requires NoneLost(s) && Moves(s, s', t)
    ensures NoneLost(s')
  {
    hide OnItsWay;
    if !s.closed {
      forall l, k | 0 <= l < |s'.listeners| && Pending(s'.listeners[l], k) ensures OnItsWay(s', ToClose(l, k)) {
        assert Pending(s.listeners[l], k);
        StillOnItsWay(s, s', ToClose(l, k));
      }
    }
  }

  lemma MovesKeepsToken(s: State, s': State, t: nat)
    requires OneToken(s) && Moves(s, s', t)
    ensures OneToken(s')
  {
  }

  lemma MovesKeepsListeners(s: State, s': State, t: nat)
    requires ListenersOwn(s) && Moves(s, s', t)
    ensures ListenersOwn(s')
  {
    assert ListenerOk(s, s.listeners[s.callers[t].l]);
    HistoryKeepsListeners(s, s', s.callers[t].l);
  }

  lemma MovesKeeps(s: State, s': State, t: nat)
    requires Inv(s) && Moves(s, s', t)
    ensures Inv(s')
  {
    ClosedIdle(s);
    assert s' == s.(callers := s'.callers, listeners := s'.listeners);
    hide OneToken, PortsAgree, HandoversOk, ListenersOwn, ClosesApart, NoneLost, Moves;
    HandoversFramed(s, s');
    PortsFramed(s, s');
    MovesKeepsToken(s, s', t);
    MovesKeepsListeners(s, s', t);
    MovesKeepsApart(s, s', t);
    MovesLosesNone(s, s', t);
  }

  /** A caller has read a byte of the socket. */
  lemma ReadKeeps(s: State, t: nat, c: Caller)
    requires Inv(s) && t in s.callers && (s.callers[t].Checked? || s.callers[t].Half?) && CloserOk(s, s.callers[t])
    requires (c.Half? || c.Loaded?) && Of(c) == Of(s.callers[t]) && CloserOk(s, c)
    ensures Inv(s.(callers := s.callers[t := c]))
  {
    hide Inv;
    MovesKeeps(s, s.(callers := s.callers[t := c]), t);
  }

  lemma CloseLowKeeps(s: State, t: nat)
    requires Inv(s) && Can(s, CloseLow(t))
    ensures Inv(Do(s, CloseLow(t)))
  {
    CloserFits(s, t);
    assert ListenerOk(s, s.listeners[s.callers[t].l]);
    hide Inv, OneToken, PortsAgree, HandoversOk, ListenersOwn, ClosesApart, NoneLost;
    var c := s.callers[t];
    BytesFit(s.listeners[c.l], c);
    ReadKeeps(s, t, Half(c.l, c.k, s.listeners[c.l].socket % 0x100));
  }

  lemma CloseHighKeeps(s: State, t: nat)
    requires Inv(s) && Can(s, CloseHigh(t))
    ensures Inv(Do(s, CloseHigh(t)))
  {
    CloserFits(s, t);
    assert ListenerOk(s, s.listeners[s.callers[t].l]);
    hide Inv, OneToken, PortsAgree, HandoversOk, ListenersOwn, ClosesApart, NoneLost;
    var c := s.callers[t];
    BytesFit(s.listeners[c.l], c);
    ReadKeeps(s, t, Loaded(c.l, c.k, Decode([c.low, s.listeners[c.l].socket / 0x100])));
  }

  /** What the two reads of the socket make of the number. */
  lemma BytesFit(l: Listener, c: Caller)
    requires l.socket == 0 || l.socket == l.port
    requires c.Checked? ==> Loadable(l, l.socket)
    requires c.Half? ==> LowByte(l, c.low)
    ensures c.Checked? ==> LowByte(l, l.socket % 0x100)
    ensures c.Half? ==> Loadable(l, Decode([c.low, l.socket / 0x100]))
  {
    if c.Half? {
      var port := Decode([c.low, l.socket / 0x100]);
      assert port % 0x100 == c.low && port / 0x100 == l.socket / 0x100;
    }
  }

  lemma CloserFits(s: State, t: nat)
    requires ClosesApart(s) && t in s.callers && IsCloser(s.callers[t])
    ensures CloserOk(s, s.callers[t])
  {
  }

  lemma ZeroKeeps(s: State, t: nat, c: Caller, l: Listener)
    requires Inv(s) && t in s.callers && s.callers[t].Loaded? && CloserOk(s, s.callers[t])
    requires c == Zeroed(s.callers[t].l, s.callers[t].k, s.callers[t].port) && l == s.listeners[c.l].(socket := 0)
    ensures Inv(s.(callers := s.callers[t := c], listeners := s.listeners[c.l := l]))
  {
    hide Inv;
    MovesKeeps(s, s.(callers := s.callers[t := c], listeners := s.listeners[c.l := l]), t);
  }

  lemma CloseZeroKeeps(s: State, t: nat)
    requires Inv(s) && Can(s, CloseZero(t))
    ensures Inv(Do(s, CloseZero(t)))
  {
    CloserFits(s, t);
    hide Inv, OneToken, PortsAgree, HandoversOk, ListenersOwn, ClosesApart, NoneLost;
    var c := s.callers[t];
    ZeroKeeps(s, t, Zeroed(c.l, c.k, c.port), s.listeners[c.l].(socket := 0));
  }

  lemma CloseSendKeepsApart(s: State, t: nat, ok: bool)
    requires Inv(s) && Can(s, CloseSend(t, ok))
    ensures ClosesApart(Do(s, CloseSend(t, ok)))
  {
    hide OneToken, PortsAgree, HandoversOk, ListenersOwn, NoneLost;
    var s', c := Do(s, CloseSend(t, ok)), s.callers[t];
    forall u | u in s'.callers && IsCloser(s'.callers[u]) ensures CloserOk(s', s'.callers[u]) && Of(s'.callers[u]) != Of(c) {
      assert u != t && CloserOk(s, s.callers[u]);
    }
    forall i | 0 <= i < |s.toServer| && s.toServer[i].intent.ToClose?
      ensures s'.toServer[i] == s.toServer[i] && s.toServer[i].intent != Of(c) && CloseOk(s', s.toServer[i])
    {
      assert CloseOk(s, s.toServer[i]);
    }
    assert CloserOk(s, c);
    if ok { assert CloseOk(s', s'.toServer[|s.toServer|]); }
    if s.srv.Took? && s.srv.req.intent.ToClose? { assert CloseOk(s', s.srv.req); }
  }

  lemma CloseSendLosesNone(s: State, t: nat, ok: bool)
    requires Inv(s) && Can(s, CloseSend(t, ok))
    ensures NoneLost(Do(s, CloseSend(t, ok)))
  {
    hide OneToken, PortsAgree, HandoversOk, ListenersOwn, ClosesApart;
    var s', c := Do(s, CloseSend(t, ok)), s.callers[t];
    if !s.closed {
      forall l, k | 0 <= l < |s'.listeners| && Pending(s'.listeners[l], k) ensures OnItsWay(s', ToClose(l, k)) {
        assert Pending(s.listeners[l], k) && OnItsWay(s, ToClose(l, k));
        if ToClose(l, k) == Of(c) {
          assert ok && s'.toServer[|s.toServer|].intent == Of(c);
        } else if u :| u in s.callers && IsCloser(s.callers[u]) && Of(s.callers[u]) == ToClose(l, k) {
          assert Of(s'.callers[u]) == ToClose(l, k);
        } else if j :| 0 <= j < |s.toServer| && s.toServer[j].intent == ToClose(l, k) {
          assert s'.toServer[j] == s.toServer[j];
        }
      }
    }
  }

  lemma CloseSendKeeps(s: State, t: nat, ok: bool)
    requires Inv(s) && Can(s, CloseSend(t, ok))
    ensures Inv(Do(s, CloseSend(t, ok)))
  {
    hide ClosesApart, NoneLost;
    var s' := Do(s, CloseSend(t, ok));
    CloserFits(s, t);
    HandoversFramed(s, s');
    hide HandoversOk;
    CloseSendKeepsApart(s, t, ok);
    CloseSendLosesNone(s, t, ok);
    assert ListenerOk(s, s.listeners[s.callers[t].l]);
    HistoryKeepsListeners(s, s', s.callers[t].l);
    if ok {
      assert s'.toServer[..|s.toServer|] == s.toServer;
    }
  }

  /** A reply to a request finds its caller waiting, and nothing else of the kind behind it. */
  lemma AnswerArrives(s: State)
    requires Inv(s) && Can(s, LoopRead) && !s.toClient[0].Handover?
    ensures Waits(s) && s.callers[s.mu.value].port == s.toClient[0].port
    ensures s.toClient[0].port !in s.listening && s.toClient[0].port !in s.sockets && s.toClient[0].port != 0
    ensures Opens(s.toServer) == Answers(s.toClient[1..]) == 0
    ensures !s.srv.Added? && !(s.srv.Took? && s.srv.req.intent.ToOpen?)
    ensures forall i :: 1 <= i < |s.toClient| ==> s.toClient[i].Handover?
  {
    AnswersTail(s.toClient);
    NoTokens(s.(toClient := s.toClient[1..]));
    forall i | 1 <= i < |s.toClient| ensures s.toClient[i].Handover? {
      assert s.toClient[1..][i - 1] == s.toClient[i];
    }
  }

  lemma LoopReadKeepsToken(s: State)
    requires Inv(s) && Can(s, LoopRead)
    ensures OneToken(Do(s, LoopRead))
  {
    AnswersTail(s.toClient);
    NoTokens(s);
    if !s.toClient[0].Handover? { AnswerArrives(s); }
  }

  /** The child enters a port into its tables. */
  lemma EntryKeepsPorts(s: State, s': State, port: uint16)
    requires PortsAgree(s) && port !in s.sockets && Ack(port) in s.toClient
    requires s' == s.(sockets := s.sockets[port := s.chans], listening := s.listening + {port}, chans := s.chans + 1,
                      toClient := s'.toClient, loop := s'.loop)
    requires forall p :: Ack(p) in s.toClient <==> p == port || Ack(p) in s'.toClient
    ensures PortsAgree(s')
  {
  }

  lemma AckTail(q: seq<Reply>)
    requires |q| > 0
    ensures forall p :: Ack(p) in q <==> q[0] == Ack(p) || Ack(p) in q[1..]
  {
    assert q == [q[0]] + q[1..];
  }

  /** What the loop does with an acknowledgement of a new port. */
  lemma AckRead(s: State)
    requires Can(s, LoopRead) && s.toClient[0].Ack? && s.toClient[0].port !in s.sockets
    ensures var port := s.toClient[0].port;
      Do(s, LoopRead) == s.(sockets := s.sockets[port := s.chans], listening := s.listening + {port}, chans := s.chans + 1,
                            toClient := s.toClient[1..], loop := Offering(port, Accepted(s.chans)))
  {
  }

  /** And with any other message. */
  lemma OtherRead(s: State)
    requires Can(s, LoopRead) && !s.toClient[0].Ack?
    ensures var s' := Do(s, LoopRead);
      s' == s.(toClient := s.toClient[1..], loop := s'.loop, delivered := s'.delivered, dropped := s'.dropped)
  {
  }

  lemma LoopReadKeepsPorts(s: State)
    requires Inv(s) && Can(s, LoopRead)
    ensures PortsAgree(Do(s, LoopRead))
  {
    assert PortsAgree(s);
    AckTail(s.toClient);
    if s.toClient[0].Ack? {
      AnswerArrives(s);
      AckRead(s);
      hide Inv, PortsAgree, OneToken, HandoversOk, ListenersOwn, ClosesApart, NoneLost, Do;
      EntryKeepsPorts(s, Do(s, LoopRead), s.toClient[0].port);
    } else {
      ClosedIdle(s);
      OtherRead(s);
      hide Inv, PortsAgree, OneToken, HandoversOk, ListenersOwn, ClosesApart, NoneLost, Do;
      PortsFramed(s, Do(s, LoopRead));
    }
  }

  /** The first message gone, an acknowledgement that was ahead of a handover is still ahead of it,
      or its port is in the table now. */
  lemma LoopReadKeepsHandovers(s: State)
    requires Inv(s) && Can(s, LoopRead)
    ensures HandoversOk(Do(s, LoopRead))
  {
    assert HandoversOk(s);
    if s.toClient[0].Ack? { AnswerArrives(s); }
    hide Inv, OneToken, PortsAgree, ListenersOwn, ClosesApart, NoneLost;
    var m, s' := s.toClient[0], Do(s, LoopRead);
    MessageGone(s, s'.(listening := s.listening), m);
    if m.Ack? { ListeningOn(s, s', m.port); }
  }

  lemma MessageGone(s: State, s': State, m: Reply)
    requires HandoversOk(s) && |s.toClient| > 0 && m == s.toClient[0] && s'.toClient == s.toClient[1..] && s'.listening == s.listening
    ensures forall i :: 0 <= i < |s'.toClient| && s'.toClient[i].Handover? ==>
      (s'.toClient[i].late <==>
        s'.toClient[i].port in s.listening || m == Ack(s'.toClient[i].port) || Ack(s'.toClient[i].port) in s'.toClient[..i])
  {
    forall i | 0 <= i < |s'.toClient| && s'.toClient[i].Handover?
      ensures s.toClient[i + 1] == s'.toClient[i] && s.toClient[..i + 1] == [m] + s'.toClient[..i]
    {
    }
  }

  lemma ListeningOn(s: State, s': State, port: uint16)
    requires forall i :: 0 <= i < |s'.toClient| && s'.toClient[i].Handover? ==>
      (s'.toClient[i].late <==>
        s'.toClient[i].port in s.listening || Ack(port) == Ack(s'.toClient[i].port) || Ack(s'.toClient[i].port) in s'.toClient[..i])
    requires s'.listening == s.listening + {port}
    ensures HandoversOk(s')
  {
  }

  /** A port is entered, with a channel of its own, and offered. */
  lemma EntryKeepsListeners(s: State, s': State, port: uint16)
    requires ListenersOwn(s) && port !in s.sockets && port != 0 && (!s.closed ==> port in s.open)
    requires s'.sockets == s.sockets[port := s.chans] && s'.loop == Offering(port, Accepted(s.chans))
    requires s'.listeners == s.listeners && s'.callers == s.callers && s'.open == s.open && s'.closed == s.closed
    ensures ListenersOwn(s')
  {
    forall i | 0 <= i < |s.listeners| ensures ListenerOk(s', s.listeners[i]) { assert ListenerOk(s, s.listeners[i]); }
  }

  lemma LoopReadKeepsListeners(s: State)
    requires Inv(s) && Can(s, LoopRead)
    ensures ListenersOwn(Do(s, LoopRead))
  {
    var m, s' := s.toClient[0], Do(s, LoopRead);
    if m.Ack? {
      AnswerArrives(s);
      assert Ack(m.port) in s.toClient;
      assert !s.closed ==> m.port in s.open;
      hide Inv, PortsAgree, OneToken, HandoversOk, ListenersOwn, ClosesApart, NoneLost;
      EntryKeepsListeners(s, s', m.port);
    } else {
      hide PortsAgree, OneToken, HandoversOk, ListenersOwn, ClosesApart, NoneLost;
      OwnFramed(s, s'.(loop := if m.Refusal? then Reading else s'.loop));
      if m.Refusal? { RefusalKeepsListeners(s'.(loop := Reading), s'); }
    }
  }

  lemma RefusalKeepsListeners(s: State, s': State)
    requires ListenersOwn(s) && s' == s.(loop := s'.loop) && s'.loop.Offering? && s'.loop.ns.Refused?
    ensures ListenersOwn(s')
  {
    forall i | 0 <= i < |s.listeners| ensures ListenerOk(s', s.listeners[i]) { assert ListenerOk(s, s.listeners[i]); }
  }

  lemma LoopReadKeepsCloses(s: State)
    requires Inv(s) && Can(s, LoopRead)
    ensures ClosesApart(Do(s, LoopRead)) && NoneLost(Do(s, LoopRead))
  {
    hide OneToken, PortsAgree, HandoversOk, ListenersOwn, ClosesApart, NoneLost;
    ClosesFramed(s, Do(s, LoopRead));
  }

  lemma TakeKeepsToken(s: State)
    requires Inv(s) && Can(s, Take)
    ensures OneToken(Do(s, Take)) && PortsAgree(Do(s, Take))
  {
    hide HandoversOk, ListenersOwn, ClosesApart, NoneLost;
    OpensTail(s.toServer);
  }

  lemma TakeKeepsCloses(s: State)
    requires Inv(s) && Can(s, Take)
    ensures ClosesApart(Do(s, Take)) && NoneLost(Do(s, Take))
  {
    hide OneToken, PortsAgree, HandoversOk, ListenersOwn;
    var s', req := Do(s, Take), s.toServer[0];
    forall t | t in s.callers && IsCloser(s.callers[t]) ensures CloserOk(s', s.callers[t]) { assert CloserOk(s, s.callers[t]); }
    forall i | 0 <= i < |s'.toServer| && s'.toServer[i].intent.ToClose? ensures CloseOk(s', s'.toServer[i]) {
      assert CloseOk(s, s.toServer[i + 1]);
    }
    if req.intent.ToClose? { assert CloseOk(s', req); }
    if !s.closed {
      forall l, k | 0 <= l < |s.listeners| && Pending(s.listeners[l], k) ensures OnItsWay(s', ToClose(l, k)) {
        assert OnItsWay(s, ToClose(l, k));
        if j :| 0 <= j < |s.toServer| && s.toServer[j].intent == ToClose(l, k) {
          assert j == 0 || s'.toServer[j - 1].intent == ToClose(l, k);
        }
      }
    }
  }

  lemma TakeKeeps(s: State)
    requires Inv(s) && Can(s, Take)
    ensures Inv(Do(s, Take))
  {
    hide OneToken, PortsAgree, HandoversOk, ListenersOwn, ClosesApart, NoneLost;
    TakeKeepsToken(s);
    TakeKeepsCloses(s);
    HandoversFramed(s, Do(s, Take));
    OwnFramed(s, Do(s, Take));
  }

  lemma HandleOpenKeepsToken(s: State, bindOk: bool)
    requires Inv(s) && Can(s, Handle(bindOk)) && s.srv.req.intent.ToOpen?
    ensures OneToken(Do(s, Handle(bindOk)))
  {
    hide PortsAgree, HandoversOk, ListenersOwn, ClosesApart, NoneLost;
    var s' := Do(s, Handle(bindOk));
    NoTokens(s);
    TokenPortClosed(s);
    if |s'.toClient| > |s.toClient| {
      assert s'.toClient[..|s.toClient|] == s.toClient;
    }
  }

  lemma HandleCloseKeepsToken(s: State, bindOk: bool)
    requires Inv(s) && Can(s, Handle(bindOk)) && s.srv.req.intent.ToClose? && (s.closed || s.srv.req.port in s.open)
    ensures OneToken(Do(s, Handle(bindOk)))
  {
    hide PortsAgree, HandoversOk, ListenersOwn, ClosesApart, NoneLost;
  }

  lemma HandleOpenKeepsPorts(s: State, bindOk: bool)
    requires Inv(s) && Can(s, Handle(bindOk)) && (s.srv.req.intent.ToOpen? || s.closed)
    ensures PortsAgree(Do(s, Handle(bindOk)))
  {
    if s.srv.req.intent.ToOpen? { TokenPortClosed(s); }
    hide OneToken, PortsAgree, HandoversOk, ListenersOwn, ClosesApart, NoneLost;
    PortsFramed(s, Do(s, Handle(bindOk)));
  }

  lemma HandleCloseKeepsPorts(s: State, bindOk: bool)
    requires Inv(s) && Can(s, Handle(bindOk)) && ClosesOwn(s)
    ensures PortsAgree(Do(s, Handle(bindOk)))
  {
    TakenCloseOpen(s);
    hide OneToken, HandoversOk, ListenersOwn, ClosesApart, NoneLost;
    var s' := Do(s, Handle(bindOk));
    assert s'.toClient == s.toClient && s'.open == s.open - {s.srv.req.port};
  }

  lemma HandleOpenKeepsListeners(s: State, bindOk: bool)
    requires Inv(s) && Can(s, Handle(bindOk)) && s.srv.req.intent.ToOpen?
    ensures ListenersOwn(Do(s, Handle(bindOk)))
  {
    TokenPortClosed(s);
    var s' := Do(s, Handle(bindOk));
    assert s'.listeners == s.listeners && s'.callers == s.callers && s'.sockets == s.sockets && s'.loop == s.loop;
    assert s'.open == s.open && s'.closed == s.closed;
    OwnFramed(s, s');
  }

  lemma HandleCloseKeepsListeners(s: State, bindOk: bool)
    requires Inv(s) && Can(s, Handle(bindOk)) && ClosesOwn(s)
    ensures ListenersOwn(Do(s, Handle(bindOk)))
  {
    TakenCloseOpen(s);
    assert CloseOk(s, s.srv.req);
    hide OneToken, PortsAgree, HandoversOk, ClosesApart, NoneLost;
    PortClosedKeepsListeners(s, Do(s, Handle(bindOk)), s.srv.req.intent.l, s.srv.req.intent.k);
  }

  /** A port closed, and its listener's close handled. */
  lemma PortClosedKeepsListeners(s: State, s': State, l: nat, k: nat)
    requires ListenersOwn(s) && l < |s.listeners| && s.listeners[l].handled == {} && Pending(s.listeners[l], k)
    requires s.listeners[l].socket == 0 && !s.closed
    requires s' == s.(srv := s'.srv, open := s.open - {s.listeners[l].port},
                      listeners := s.listeners[l := s.listeners[l].(handled := s.listeners[l].handled + {k})])
    ensures ListenersOwn(s')
  {
    forall i | 0 <= i < |s'.listeners| ensures ListenerOk(s', s'.listeners[i]) {
      assert ListenerOk(s, s.listeners[i]);
    }
  }

  lemma HandleCloseKeepsCloses(s: State, bindOk: bool)
    requires Inv(s) && Can(s, Handle(bindOk)) && ClosesOwn(s)
    ensures ClosesApart(Do(s, Handle(bindOk))) && NoneLost(Do(s, Handle(bindOk)))
  {
    hide OneToken, PortsAgree, HandoversOk, ListenersOwn;
    var s', i := Do(s, Handle(bindOk)), s.srv.req.intent;
    forall t | t in s'.callers && IsCloser(s'.callers[t]) ensures CloserOk(s', s'.callers[t]) { assert CloserOk(s, s.callers[t]); }
    forall j | 0 <= j < |s.toServer| && s.toServer[j].intent.ToClose? ensures CloseOk(s', s.toServer[j]) { assert CloseOk(s, s.toServer[j]); }
    forall l, k | 0 <= l < |s'.listeners| && Pending(s'.listeners[l], k) ensures OnItsWay(s', ToClose(l, k)) {
      assert Pending(s.listeners[l], k) && ToClose(l, k) != i;
      StillOnItsWay(s, s', ToClose(l, k));
    }
  }

  /** A request that is handled as it is meant keeps the invariant. */
  lemma HandleKeeps(s: State, bindOk: bool)
    requires Inv(s) && Can(s, Handle(bindOk)) && !Do(s, Handle(bindOk)).confused
    ensures Inv(Do(s, Handle(bindOk)))
  {
    hide OneToken, PortsAgree, HandoversOk, ListenersOwn, ClosesApart, NoneLost;
    if s.srv.req.intent.ToOpen? { HandleOpenKeepsToken(s, bindOk); } else { HandleCloseKeepsToken(s, bindOk); }
    HandoversFramed(s, Do(s, Handle(bindOk)));
    if s.srv.req.intent.ToOpen? || s.closed {
      HandleOpenKeepsPorts(s, bindOk);
      if s.srv.req.intent.ToOpen? { HandleOpenKeepsListeners(s, bindOk); } else { OwnFramed(s, Do(s, Handle(bindOk))); }
      ClosesFramed(s, Do(s, Handle(bindOk)));
    } else {
      HandleCloseKeepsPorts(s, bindOk);
      HandleCloseKeepsListeners(s, bindOk);
      HandleCloseKeepsCloses(s, bindOk);
    }
  }

  lemma AnswerKeepsPorts(s: State)
    requires Inv(s) && Can(s, Answer)
    ensures PortsAgree(Do(s, Answer))
  {
    TokenPortClosed(s);
    assert s.srv.port != 0 && forall p :: Ack(p) !in s.toClient;
    hide OneToken, HandoversOk, ListenersOwn, ClosesApart, NoneLost;
    var s' := Do(s, Answer);
    assert forall p :: Ack(p) in s'.toClient <==> p == s.srv.port;
  }

  lemma AnswerKeepsToken(s: State)
    requires Inv(s) && Can(s, Answer)
    ensures OneToken(Do(s, Answer))
  {
    hide PortsAgree, HandoversOk, ListenersOwn, ClosesApart, NoneLost;
    NoTokens(s);
    var s' := Do(s, Answer);
    assert s'.toClient[..|s.toClient|] == s.toClient;
  }

  /** A port is opened that no listener has. */
  lemma PortOpenedKeepsListeners(s: State, s': State, port: uint16)
    requires ListenersOwn(s) && port !in s.sockets && s'.open == s.open + {port}
    requires s'.sockets == s.sockets && s'.loop == s.loop && s'.callers == s.callers && s'.listeners == s.listeners
    requires s'.closed == s.closed
    ensures ListenersOwn(s')
  {
    forall i | 0 <= i < |s.listeners| ensures ListenerOk(s', s.listeners[i]) { assert ListenerOk(s, s.listeners[i]); }
  }

  lemma AnswerKeepsListeners(s: State)
    requires Inv(s) && Can(s, Answer)
    ensures ListenersOwn(Do(s, Answer))
  {
    TokenPortClosed(s);
    assert s.srv.port !in s.sockets;
    hide OneToken, PortsAgree, HandoversOk, ListenersOwn, ClosesApart, NoneLost;
    PortOpenedKeepsListeners(s, Do(s, Answer), s.srv.port);
  }

  lemma AnswerKeeps(s: State)
    requires Inv(s) && Can(s, Answer)
    ensures Inv(Do(s, Answer))
  {
    hide OneToken, PortsAgree, HandoversOk, ListenersOwn, ClosesApart, NoneLost;
    AnswerKeepsPorts(s);
    AnswerKeepsToken(s);
    AnswerKeepsListeners(s);
    HandoversFramed(s, Do(s, Answer));
    ClosesFramed(s, Do(s, Answer));
  }

  lemma HandOverKeepsPorts(s: State, i: nat)
    requires Inv(s) && Can(s, HandOver(i))
    ensures OneToken(Do(s, HandOver(i))) && PortsAgree(Do(s, HandOver(i)))
  {
    hide HandoversOk, ListenersOwn, ClosesApart, NoneLost;
    var s' := Do(s, HandOver(i));
    if !s.closed {
      assert s'.toClient[..|s.toClient|] == s.toClient;
    }
  }

  lemma HandOverKeepsHandovers(s: State, i: nat)
    requires Inv(s) && Can(s, HandOver(i))
    ensures HandoversOk(Do(s, HandOver(i)))
  {
    var s' := Do(s, HandOver(i));
    if !s.closed {
      assert forall p :: p in s.acked <==> p in s.listening || Ack(p) in s.toClient;
      hide OneToken, PortsAgree, ListenersOwn, ClosesApart, NoneLost;
      assert s'.toClient[..|s.toClient|] == s.toClient;
      forall j | 0 <= j < |s.toClient| ensures s'.toClient[j] == s.toClient[j] && s'.toClient[..j] == s.toClient[..j] {
      }
    }
  }

  lemma HandOverKeeps(s: State, i: nat)
    requires Inv(s) && Can(s, HandOver(i))
    ensures Inv(Do(s, HandOver(i)))
  {
    hide OneToken, PortsAgree, HandoversOk, ListenersOwn, ClosesApart, NoneLost;
    HandOverKeepsPorts(s, i);
    HandOverKeepsHandovers(s, i);
    OwnFramed(s, Do(s, HandOver(i)));
    ClosesFramed(s, Do(s, HandOver(i)));
  }

  lemma LockKeepsToken(s: State, t: nat, port: uint16)
    requires Inv(s) && Can(s, Lock(t, port))
    ensures OneToken(Do(s, Lock(t, port))) && PortsAgree(Do(s, Lock(t, port)))
  {
    hide HandoversOk, ListenersOwn, ClosesApart, NoneLost;
  }

  lemma LockKeeps(s: State, t: nat, port: uint16)
    requires Inv(s) && Can(s, Lock(t, port))
    ensures Inv(Do(s, Lock(t, port)))
  {
    hide OneToken, PortsAgree, HandoversOk, ListenersOwn, ClosesApart, NoneLost;
    LockKeepsToken(s, t, port);
    HandoversFramed(s, Do(s, Lock(t, port)));
    OwnFramed(s, Do(s, Lock(t, port)));
    ClosesFramed(s, Do(s, Lock(t, port)));
  }

  lemma ReceiveKeepsPorts(s: State, t: nat)
    requires Inv(s) && Can(s, Receive(t))
    ensures OneToken(Do(s, Receive(t))) && PortsAgree(Do(s, Receive(t)))
  {
    hide HandoversOk, ListenersOwn, ClosesApart, NoneLost;
  }

  lemma ReceiveKeepsListeners(s: State, t: nat)
    requires Inv(s) && Can(s, Receive(t))
    ensures ListenersOwn(Do(s, Receive(t)))
  {
    hide PortsAgree, HandoversOk, ClosesApart, NoneLost;
    assert forall i :: 0 <= i < |s.listeners| ==> ListenerOk(s, s.listeners[i]);
  }

  lemma ReceiveKeeps(s: State, t: nat)
    requires Inv(s) && Can(s, Receive(t))
    ensures Inv(Do(s, Receive(t)))
  {
    hide OneToken, PortsAgree, HandoversOk, ListenersOwn, ClosesApart, NoneLost;
    ReceiveKeepsPorts(s, t);
    ReceiveKeepsListeners(s, t);
    HandoversFramed(s, Do(s, Receive(t)));
    ClosesFramed(s, Do(s, Receive(t)));
  }

  lemma LoopEndKeepsToken(s: State)
    requires Inv(s) && Can(s, LoopEnd)
    ensures OneToken(Do(s, LoopEnd)) && PortsAgree(Do(s, LoopEnd))
  {
    hide HandoversOk, ListenersOwn, ClosesApart, NoneLost;
  }

  lemma LoopEndKeeps(s: State)
    requires Inv(s) && Can(s, LoopEnd)
    ensures Inv(Do(s, LoopEnd))
  {
    hide OneToken, PortsAgree, HandoversOk, ListenersOwn, ClosesApart, NoneLost;
    LoopEndKeepsToken(s);
    HandoversFramed(s, Do(s, LoopEnd));
    OwnFramed(s, Do(s, LoopEnd));
    ClosesFramed(s, Do(s, LoopEnd));
  }

  /** The session closed, no port is open and nothing is said of the listeners' any more. */
  lemma ClosedKeepsListeners(s: State, s': State)
    requires ListenersOwn(s) && s'.closed && s'.listeners == s.listeners && s'.sockets == s.sockets
    requires s'.loop == s.loop && s'.callers == s.callers
    ensures ListenersOwn(s')
  {
    forall i | 0 <= i < |s.listeners| ensures ListenerOk(s', s.listeners[i]) { assert ListenerOk(s, s.listeners[i]); }
  }

  lemma ShutKeepsToken(s: State)
    requires Inv(s) && Can(s, Shut)
    ensures OneToken(Do(s, Shut)) && PortsAgree(Do(s, Shut))
  {
    hide HandoversOk, ListenersOwn, ClosesApart, NoneLost;
  }

  lemma ShutKeeps(s: State)
    requires Inv(s) && Can(s, Shut)
    ensures Inv(Do(s, Shut))
  {
    hide OneToken, PortsAgree, HandoversOk, ListenersOwn, ClosesApart, NoneLost;
    ShutKeepsToken(s);
    HandoversFramed(s, Do(s, Shut));
    ClosedKeepsListeners(s, Do(s, Shut));
    ClosesFramed(s, Do(s, Shut));
  }

  lemma EofKeepsToken(s: State)
    requires Inv(s) && Can(s, Eof)
    ensures OneToken(Do(s, Eof)) && PortsAgree(Do(s, Eof))
  {
    hide HandoversOk, ListenersOwn, ClosesApart, NoneLost;
  }

  lemma EofKeeps(s: State)
    requires Inv(s) && Can(s, Eof)
    ensures Inv(Do(s, Eof))
  {
    hide OneToken, PortsAgree, HandoversOk, ListenersOwn, ClosesApart, NoneLost;
    EofKeepsToken(s);
    HandoversFramed(s, Do(s, Eof));
    ClosedKeepsListeners(s, Do(s, Eof));
    ClosesFramed(s, Do(s, Eof));
  }

  lemma MatchKeepsPorts(s: State, port: uint16, bytes: seq<byte>)
    requires Inv(s) && Can(s, Match(port, bytes))
    ensures OneToken(Do(s, Match(port, bytes))) && PortsAgree(Do(s, Match(port, bytes)))
  {
    hide HandoversOk, ListenersOwn, ClosesApart, NoneLost;
  }

  lemma MatchKeeps(s: State, port: uint16, bytes: seq<byte>)
    requires Inv(s) && Can(s, Match(port, bytes))
    ensures Inv(Do(s, Match(port, bytes)))
  {
    hide OneToken, PortsAgree, HandoversOk, ListenersOwn, ClosesApart, NoneLost;
    MatchKeepsPorts(s, port, bytes);
    HandoversFramed(s, Do(s, Match(port, bytes)));
    OwnFramed(s, Do(s, Match(port, bytes)));
    ClosesFramed(s, Do(s, Match(port, bytes)));
  }

  lemma LoopReadKeeps(s: State)
    requires Inv(s) && Can(s, LoopRead)
    ensures Inv(Do(s, LoopRead))
  {
    hide OneToken, PortsAgree, HandoversOk, ListenersOwn, ClosesApart, NoneLost;
    LoopReadKeepsToken(s);
    LoopReadKeepsPorts(s);
    LoopReadKeepsHandovers(s);
    LoopReadKeepsListeners(s);
    LoopReadKeepsCloses(s);
  }

  /** Every step of every party keeps the invariant, as long as requests are handled as meant. */
  lemma StepKeeps(s: State, a: Action)
    requires Inv(s) && Can(s, a) && !Do(s, a).confused
    ensures Inv(Do(s, a))
  {
    hide Inv;
    match a {
      case Lock(t, port) => LockKeeps(s, t, port);
      case Ask(t, ok) => AskKeeps(s, t, ok);
      case Receive(t) => ReceiveKeeps(s, t);
      case Return(t) => ReturnKeeps(s, t);
      case CloseCheck(t, l) => CloseCheckKeeps(s, t, l);
      case CloseLow(t) => CloseLowKeeps(s, t);
      case CloseHigh(t) => CloseHighKeeps(s, t);
      case CloseZero(t) => CloseZeroKeeps(s, t);
      case CloseSend(t, ok) => CloseSendKeeps(s, t, ok);
      case LoopRead => LoopReadKeeps(s);
      case LoopEnd => LoopEndKeeps(s);
      case Take => TakeKeeps(s);
      case Handle(bindOk) => HandleKeeps(s, bindOk);
      case Answer => AnswerKeeps(s);
      case Shut => ShutKeeps(s);
      case Eof => EofKeeps(s);
      case Match(port, bytes) => MatchKeeps(s, port, bytes);
      case HandOver(i) => HandOverKeeps(s, i);
    }
  }

  // ---------- whole runs ----------

  /** The actions lead from `from` to `s`, each possible when it is taken. */
  ghost predicate Path(from: State, acts: seq<Action>, s: State)
    decreases |acts|
  {
    if |acts| == 0 then s == from
    else
      var front, last := acts[..|acts| - 1], acts[|acts| - 1];
      exists mid :: Path(from, front, mid) && Leads(mid, last, s)
  }

  ghost predicate Leads(s: State, a: Action, s': State) {
    Can(s, a) && Do(s, a) == s'
  }

  /** A run starts with nothing open and nobody calling. */
  ghost predicate Run(acts: seq<Action>, s: State) {
    Path(INIT, acts, s)
  }

  lemma StepGrows(s: State, a: Action)
    requires Inv(s) && Can(s, a)
    ensures s.listening <= Do(s, a).listening
    ensures forall p :: p in s.sockets ==> p in Do(s, a).sockets && Do(s, a).sockets[p] == s.sockets[p]
  {
    if a.LoopRead? {
      if s.toClient[0].Ack? { AnswerArrives(s); }
    } else {
      OthersLeaveTables(s, a);
    }
  }

  /** Only the reading loop changes the child's tables. */
  lemma OthersLeaveTables(s: State, a: Action)
    requires Can(s, a) && !a.LoopRead?
    ensures Do(s, a).listening == s.listening && Do(s, a).sockets == s.sockets
  {
    if a.Handle? {
      HandleShape(s, a.bindOk);
      hide Do;
    }
  }

  lemma {:induction false} PathKeeps(from: State, acts: seq<Action>, s: State)
    requires Path(from, acts, s) && Inv(from) && !s.confused
    ensures Inv(s)
    ensures from.listening <= s.listening
    ensures forall p :: p in from.sockets ==> p in s.sockets && s.sockets[p] == from.sockets[p]
    decreases |acts|
  {
    hide Inv, Can, Do;
    if |acts| > 0 {
      var front, a := acts[..|acts| - 1], acts[|acts| - 1];
      var mid :| Path(from, front, mid) && Leads(mid, a, s);
      HistoryGrows(mid, a);
      PathKeeps(from, front, mid);
      StepKeeps(mid, a);
      StepGrows(mid, a);
    }
  }

  lemma RunKeeps(acts: seq<Action>, s: State)
    requires Run(acts, s) && !s.confused
    ensures Inv(s)
  {
    PathKeeps(INIT, acts, s);
  }

  /** No listener's check of its socket was passed by two callers of Close. */
  ghost predicate Once(s: State) {
    forall l :: 0 <= l < |s.listeners| ==> s.listeners[l].passed <= 1
  }

  lemma HistoryGrows(s: State, a: Action)
    requires Can(s, a)
    ensures s.confused ==> Do(s, a).confused
    ensures Once(Do(s, a)) ==> Once(s)
  {
    PassesGrow(s, a);
  }

  lemma PassesGrow(s: State, a: Action)
    requires Can(s, a)
    ensures var s' := Do(s, a);
      |s'.listeners| >= |s.listeners| && forall l :: 0 <= l < |s.listeners| ==> s'.listeners[l].passed >= s.listeners[l].passed
  {
    if a.Handle? { HandleKeepsPasses(s, a); }
  }

  lemma HandleKeepsPasses(s: State, a: Action)
    requires Can(s, a) && a.Handle?
    ensures var s' := Do(s, a);
      |s'.listeners| == |s.listeners| && forall l :: 0 <= l < |s.listeners| ==> s'.listeners[l].passed == s.listeners[l].passed
  {
  }

  lemma {:induction false} OnceNeverConfused(acts: seq<Action>, s: State)
    requires Run(acts, s) && Once(s)
    ensures !s.confused
    decreases |acts|
  {
    if |acts| > 0 {
      var front, a := acts[..|acts| - 1], acts[|acts| - 1];
      var mid :| Path(INIT, front, mid) && Leads(mid, a, s);
      hide Inv, Can, Once, Do;
      HistoryGrows(mid, a);
      OnceNeverConfused(front, mid);
      RunKeeps(front, mid);
      OnceStep(mid, a);
    }
  }

  lemma OnceStep(s: State, a: Action)
    requires Inv(s) && Can(s, a) && Once(s)
    ensures !Do(s, a).confused
  {
    if a.Handle? && !s.closed {
      MeantWhen(s);
      if s.srv.req.intent.ToClose? { OnceMeant(s); }
    }
  }

  lemma OnceMeant(s: State)
    requires Inv(s) && Once(s) && s.srv.Took? && s.srv.req.intent.ToClose? && !s.closed
    ensures s.srv.req.port == s.listeners[s.srv.req.intent.l].port && s.listeners[s.srv.req.intent.l].handled == {}
  {
    var li := s.listeners[s.srv.req.intent.l];
    assert CloseOk(s, s.srv.req) && ListenerOk(s, li);
    assert li.passed == 1;
  }

  /** In every run in which no listener is closed by two callers at once, whatever the proxy's loop
      takes from the channel it handles as its sender meant it: a request of Listen opens and a
      request of listener.Close closes. */
  lemma NeverConfused(acts: seq<Action>, s: State)
    requires Run(acts, s) && Once(s)
    ensures !s.confused
    ensures s.srv.Took? && !s.closed ==> AsMeant(s, s.srv.req)
  {
    OnceNeverConfused(acts, s);
    RunKeeps(acts, s);
    if s.srv.Took? && !s.closed {
      MeantWhen(s);
      if s.srv.req.intent.ToClose? { OnceMeant(s); }
    }
  }

  /** Where callers of Close do race, exactly the first of a listener's closes to be handled closes
      its port, if it carries that; every other is taken for a request to open, or closes another's.
      So it is until the first such request; a request of Listen is never taken for a close. */
  lemma MeantExactly(acts: seq<Action>, s: State)
    requires Run(acts, s) && !s.confused && s.srv.Took? && !s.closed
    ensures var req := s.srv.req;
      && (req.intent.ToClose? ==> req.intent.l < |s.listeners|)
      && (AsMeant(s, req) <==>
            req.intent.ToOpen? || (req.port == s.listeners[req.intent.l].port && s.listeners[req.intent.l].handled == {}))
  {
    RunKeeps(acts, s);
    MeantWhen(s);
  }

  /** An open session with no close under way, none of which failed to be sent. */
  ghost predicate Settled(s: State) {
    && !s.closed && s.toServer == [] && !s.srv.Took?
    && (forall t :: t in s.callers ==> !IsCloser(s.callers[t]))
    && (forall l :: 0 <= l < |s.listeners| ==> s.listeners[l].failed == {})
  }

  /** In every run that has settled, all requests were handled as they were meant if and only if no
      two callers of Close passed the check of one listener. */
  lemma ConfusedExactly(acts: seq<Action>, s: State)
    requires Run(acts, s) && Settled(s)
    ensures !s.confused <==> Once(s)
  {
    if Once(s) { OnceNeverConfused(acts, s); }
    if !s.confused {
      RunKeeps(acts, s);
      forall l | 0 <= l < |s.listeners| ensures s.listeners[l].passed <= 1 {
        assert ListenerOk(s, s.listeners[l]);
        assert !OnItsWay(s, ToClose(l, 0)) && !OnItsWay(s, ToClose(l, 1));
        assert !Pending(s.listeners[l], 0) && !Pending(s.listeners[l], 1);
      }
    }
  }

  /** The branch of the child's loop that closes a channel is never taken. */
  lemma AckAlwaysNew(acts: seq<Action>, s: State)
    requires Run(acts, s) && !s.confused && s.loop.Reading? && |s.toClient| > 0 && s.toClient[0].Ack?
    ensures s.toClient[0].port !in s.sockets && Do(s, LoopRead).loop == Offering(s.toClient[0].port, Accepted(s.chans))
  {
    RunKeeps(acts, s);
    AnswerArrives(s);
  }

  /** Replies find their request without an id: the loop offers a value only while one Listen
      waits, for that Listen's port, and the listener it returns has the channel stored for its
      own port. The loop writes listeningSockets only while that Listen holds ucMu. */
  lemma RepliesMatch(acts: seq<Action>, s: State)
    requires Run(acts, s) && !s.confused
    ensures Tokens(s) <= 1 && (Tokens(s) == 1 ==> Waits(s))
    ensures s.loop.Offering? ==> Waits(s) && s.callers[s.mu.value].port == s.loop.port
    ensures s.loop.Reading? && |s.toClient| > 0 && !s.toClient[0].Handover? ==>
      Waits(s) && s.callers[s.mu.value].port == s.toClient[0].port
    ensures forall i :: 0 <= i < |s.listeners| ==>
      s.listeners[i].port in s.sockets && s.sockets[s.listeners[i].port] == s.listeners[i].chan
    ensures forall i, j :: 0 <= i < j < |s.listeners| ==>
      s.listeners[i].port != s.listeners[j].port && s.listeners[i].chan != s.listeners[j].chan
  {
    RunKeeps(acts, s);
    if s.loop.Reading? && |s.toClient| > 0 && !s.toClient[0].Handover? { AnswerArrives(s); }
    forall i, j | 0 <= i < j < |s.listeners| ensures s.listeners[i].chan != s.listeners[j].chan {
      assert ListenerOk(s, s.listeners[i]) && ListenerOk(s, s.listeners[j]);
    }
  }

  /** While Listen waits, its request or the answer to it is on its way. */
  ghost predicate Attended(s: State) {
    !s.closed && !s.loop.Ended? && Waits(s) ==> Tokens(s) == 1
  }

  lemma Appended(q: seq<Request>, x: Request, r: seq<Reply>, y: Reply)
    ensures Opens(q + [x]) == Opens(q) + if x.intent.ToOpen? then 1 else 0
    ensures Answers(r + [y]) == Answers(r) + if y.Handover? then 0 else 1
  {
    assert (q + [x])[..|q|] == q && (r + [y])[..|r|] == r;
  }

  lemma AskAttended(s: State, t: nat, ok: bool)
    requires Inv(s) && Can(s, Ask(t, ok))
    ensures Attended(Do(s, Ask(t, ok)))
  {
    hide PortsAgree, HandoversOk, ListenersOwn, ClosesApart, NoneLost, Opens, Answers;
    Appended(s.toServer, Request(s.callers[t].port, ToOpen), s.toClient, Ack(0));
  }

  lemma TakeAttended(s: State)
    requires Attended(s) && Can(s, Take)
    ensures Attended(Do(s, Take))
  {
    OpensTail(s.toServer);
    hide Opens, Answers;
  }

  lemma HandleAttended(s: State, bindOk: bool)
    requires Inv(s) && Attended(s) && Can(s, Handle(bindOk)) && !Do(s, Handle(bindOk)).confused
    ensures Attended(Do(s, Handle(bindOk)))
  {
    hide OneToken, PortsAgree, HandoversOk, ListenersOwn, ClosesApart, NoneLost, Opens, Answers, Spent, AsMeant;
    HandleShape(s, bindOk);
    if !s.closed { HandledAsMeant(s, bindOk); }
    hide Inv, Do, DoHandle, Choose;
    Appended([], s.srv.req, s.toClient, Refusal(s.srv.req.port));
  }

  lemma HandledAsMeant(s: State, bindOk: bool)
    requires Inv(s) && Can(s, Handle(bindOk)) && !s.closed && !Do(s, Handle(bindOk)).confused
    ensures Choose(s.open, s.closed, s.srv.req.port) == if s.srv.req.intent.ToOpen? then OpenIt else CloseIt
  {
    hide OneToken, PortsAgree, HandoversOk, ListenersOwn, ClosesApart, NoneLost;
  }

  lemma AnswerAttended(s: State)
    requires Attended(s) && Can(s, Answer)
    ensures Attended(Do(s, Answer))
  {
    Appended([], Request(0, ToOpen), s.toClient, Ack(s.srv.port));
    hide Opens, Answers;
  }

  lemma LoopReadAttended(s: State)
    requires Inv(s) && Attended(s) && Can(s, LoopRead)
    ensures Attended(Do(s, LoopRead))
  {
    AnswersTail(s.toClient);
    if s.toClient[0].Ack? { AnswerArrives(s); }
    hide OneToken, PortsAgree, HandoversOk, ListenersOwn, ClosesApart, NoneLost, Opens, Answers;
  }

  /** Exactly one caller is inside Listen while ucMu is held, and none otherwise. */
  lemma HolderListens(s: State)
    requires Inv(s)
    ensures s.mu.Some? ==> s.mu.value in s.callers && !IsCloser(s.callers[s.mu.value])
    ensures forall t :: t in s.callers && !IsCloser(s.callers[t]) ==> s.mu == Some(t)
  {
    hide PortsAgree, HandoversOk, ListenersOwn, ClosesApart, NoneLost, Opens, Answers;
  }

  lemma CloseSendAttended(s: State, t: nat, ok: bool)
    requires Attended(s) && Can(s, CloseSend(t, ok))
    ensures Attended(Do(s, CloseSend(t, ok)))
  {
    hide Opens, Answers;
    Appended(s.toServer, Request(s.callers[t].port, ToClose(s.callers[t].l, s.callers[t].k)), [], Ack(0));
  }

  lemma HandOverAttended(s: State, i: nat)
    requires Attended(s) && Can(s, HandOver(i))
    ensures Attended(Do(s, HandOver(i)))
  {
    hide Opens, Answers;
    var (port, bytes) := s.pending[i];
    Appended([], Request(0, ToOpen), s.toClient, Handover(port, bytes, port in s.acked));
  }

  /** What the other parties do. */
  lemma OthersAttended(s: State, a: Action)
    requires Inv(s) && Attended(s) && Can(s, a)
    requires !a.Ask? && !a.Take? && !a.Handle? && !a.Answer? && !a.LoopRead? && !a.CloseSend? && !a.HandOver?
    ensures Attended(Do(s, a))
  {
    hide OneToken, PortsAgree, HandoversOk, ListenersOwn, ClosesApart, NoneLost, Opens, Answers, DoLoopRead, DoHandle;
    HolderListens(s);
    hide Inv;
  }

  lemma StepAttended(s: State, a: Action)
    requires Inv(s) && Attended(s) && Can(s, a) && !Do(s, a).confused
    ensures Attended(Do(s, a))
  {
    hide Inv, Attended, Do, Can;
    match a {
      case Ask(t, ok) => AskAttended(s, t, ok);
      case Take => TakeAttended(s);
      case Handle(bindOk) => HandleAttended(s, bindOk);
      case Answer => AnswerAttended(s);
      case LoopRead => LoopReadAttended(s);
      case CloseSend(t, ok) => CloseSendAttended(s, t, ok);
      case HandOver(i) => HandOverAttended(s, i);
      case _ => OthersAttended(s, a);
    }
  }

  /** In every run a Listen that waits is attended to, until the session ends: exactly one of its
      request and the answer to it is on its way, whether the port is bound or not. */
  lemma {:induction false} ListenAttended(acts: seq<Action>, s: State)
    requires Run(acts, s) && !s.confused
    ensures Attended(s)
    decreases |acts|
  {
    if |acts| > 0 {
      var front, a := acts[..|acts| - 1], acts[|acts| - 1];
      var mid :| Path(INIT, front, mid) && Leads(mid, a, s);
      hide Inv, Attended, Do, Can;
      HistoryGrows(mid, a);
      ListenAttended(front, mid);
      RunKeeps(front, mid);
      StepAttended(mid, a);
    }
  }

  // ---------- the end of the session ----------

  /** Nothing is open in a session that has ended, and nothing about to be. */
  ghost predicate Over(s: State) {
    s.closed && s.open == {} && !s.srv.Added?
  }

  lemma OverStays(s: State, a: Action)
    requires Over(s) && Can(s, a)
    ensures Over(Do(s, a))
    ensures forall port :: Ack(port) in Do(s, a).toClient ==> Ack(port) in s.toClient
  {
    if a.Handle? { HandleShape(s, a.bindOk); }
  }

  /** Once UnixCmd.Close was called or the child is gone, all the child's ports are closed for good:
      none is opened or acknowledged in any continuation. */
  lemma {:induction false} EndIsFinal(s: State, a: Action, more: seq<Action>, s': State)
    requires Can(s, a) && (a == Shut || a == Eof) && Path(Do(s, a), more, s')
    ensures Over(s') && forall port :: Ack(port) in s'.toClient ==> Ack(port) in s.toClient
    decreases |more|
  {
    if |more| > 0 {
      var front, last := more[..|more| - 1], more[|more| - 1];
      var mid :| Path(Do(s, a), front, mid) && Leads(mid, last, s');
      EndIsFinal(s, a, front, mid);
      OverStays(mid, last);
    }
  }

  // ---------- connections ----------

  /** Connections, each with its port and the bytes read of it. */
  type Bag = multiset<(uint16, seq<byte>)>

  /** Those that transfers picked. */
  function Matched(acts: seq<Action>): Bag {
    if |acts| == 0 then multiset{} else Matched(acts[..|acts| - 1]) + MatchedBy(acts[|acts| - 1])
  }

  function MatchedBy(a: Action): Bag {
    if a.Match? then multiset{(a.port, a.bytes)} else multiset{}
  }

  /** Those on their way to the child. */
  function Sent(q: seq<Reply>): Bag {
    if |q| == 0 then multiset{} else Sent(q[..|q| - 1]) + SentBy(q[|q| - 1])
  }

  function SentBy(m: Reply): Bag {
    if m.Handover? then multiset{(m.port, m.bytes)} else multiset{}
  }

  /** Those that have come. */
  function Come(q: seq<Delivery>): Bag {
    if |q| == 0 then multiset{} else Come(q[..|q| - 1]) + multiset{(q[|q| - 1].port, q[|q| - 1].bytes)}
  }

  ghost function Accounted(s: State): Bag {
    multiset(s.pending) + Sent(s.toClient) + Come(s.delivered) + Come(s.dropped)
  }

  lemma SentAppended(q: seq<Reply>, m: Reply)
    ensures Sent(q + [m]) == Sent(q) + SentBy(m)
  {
    assert (q + [m])[..|q|] == q;
  }

  lemma {:induction false} SentTail(q: seq<Reply>)
    requires |q| > 0
    ensures Sent(q) == SentBy(q[0]) + Sent(q[1..])
    decreases |q|
  {
    if |q| == 1 {
      assert q[..0] == [] && q[1..] == [];
    } else {
      var front, last := q[..|q| - 1], q[|q| - 1];
      SentTail(front);
      hide Sent;
      assert q == front + [last] && q[1..] == front[1..] + [last];
      SentAppended(front, last);
      SentAppended(front[1..], last);
      Reassociate(SentBy(q[0]), Sent(front[1..]), SentBy(last));
    }
  }

  lemma Reassociate(a: Bag, b: Bag, c: Bag)
    ensures (a + b) + c == a + (b + c)
  {
  }

  /** `x` may be with any of the four. */
  lemma Regrouped(p: Bag, s: Bag, d: Bag, r: Bag, x: Bag)
    ensures (p + x) + s + d + r == p + (s + x) + d + r == p + (x + s) + d + r == p + s + (d + x) + r == p + s + d + (r + x) == (p + s + d + r) + x
    ensures ((p + x) + s + d + r) - x == p + s + d + r
  {
  }

  lemma ComeAppended(q: seq<Delivery>, d: Delivery)
    ensures Come(q + [d]) == Come(q) + multiset{(d.port, d.bytes)}
  {
    assert (q + [d])[..|q|] == q;
  }

  lemma Unpicked(q: seq<(uint16, seq<byte>)>, i: nat)
    requires i < |q|
    ensures multiset(q) == multiset(q[..i] + q[i + 1..]) + multiset{q[i]}
  {
    assert q == q[..i] + [q[i]] + q[i + 1..];
  }

  lemma HandOverAccounts(s: State, i: nat)
    requires Can(s, HandOver(i))
    ensures Accounted(Do(s, HandOver(i))) == if s.closed then Accounted(s) - multiset{s.pending[i]} else Accounted(s)
  {
    hide Sent, Come;
    var (port, bytes) := s.pending[i];
    Unpicked(s.pending, i);
    SentAppended(s.toClient, Handover(port, bytes, port in s.acked));
    var s' := Do(s, HandOver(i));
    Regrouped(multiset(s'.pending), Sent(s.toClient), Come(s.delivered), Come(s.dropped), multiset{s.pending[i]});
  }

  /** What the child's loop does with a connection: it comes, at one of two places. */
  lemma HandoverRead(s: State)
    requires Can(s, LoopRead) && s.toClient[0].Handover?
    ensures var s', m := Do(s, LoopRead), s.toClient[0];
      && s'.pending == s.pending && s'.toClient == s.toClient[1..]
      && (|| (s'.delivered == s.delivered && s'.dropped == s.dropped + [Delivery(0, m.port, m.bytes)])
          || (m.port in s.sockets && s'.delivered == s.delivered + [Delivery(s.sockets[m.port], m.port, m.bytes)] && s'.dropped == s.dropped))
  {
  }

  lemma AnswerRead(s: State)
    requires Can(s, LoopRead) && !s.toClient[0].Handover?
    ensures var s' := Do(s, LoopRead);
      s'.pending == s.pending && s'.toClient == s.toClient[1..] && s'.delivered == s.delivered && s'.dropped == s.dropped
  {
  }

  lemma LoopReadAccounts(s: State)
    requires Can(s, LoopRead)
    ensures Accounted(Do(s, LoopRead)) == Accounted(s)
  {
    hide Sent, Come;
    var m := s.toClient[0];
    SentTail(s.toClient);
    Regrouped(multiset(s.pending), Sent(s.toClient[1..]), Come(s.delivered), Come(s.dropped), SentBy(m));
    if m.Handover? {
      HandoverRead(s);
      hide Do;
      ComeAppended(s.delivered, Delivery(if m.port in s.sockets then s.sockets[m.port] else 0, m.port, m.bytes));
      ComeAppended(s.dropped, Delivery(0, m.port, m.bytes));
    } else {
      AnswerRead(s);
      hide Do;
    }
  }

  /** Answers apart, the other steps leave the messages to the child and what has come as they are. */
  lemma OthersLeave(s: State, a: Action) returns (m: Reply)
    requires Can(s, a) && !a.HandOver? && !a.LoopRead?
    ensures var s' := Do(s, a);
      && s'.delivered == s.delivered && s'.dropped == s.dropped
      && s'.pending == (if a.Match? then s.pending + [(a.port, a.bytes)] else s.pending)
      && !m.Handover? && (s'.toClient == s.toClient || s'.toClient == s.toClient + [m])
  {
    m := if a.Handle? then Refusal(s.srv.req.port) else if a.Answer? then Ack(s.srv.port) else Ack(0);
    if a.Handle? {
      HandleShape(s, a.bindOk);
      hide Do;
    }
  }

  lemma OthersAccount(s: State, a: Action)
    requires Can(s, a) && !a.HandOver? && !a.LoopRead?
    ensures Accounted(Do(s, a)) == Accounted(s) + MatchedBy(a)
  {
    hide Sent, Come;
    var m := OthersLeave(s, a);
    hide Do, Can;
    SentAppended(s.toClient, m);
    assert SentBy(m) == multiset{};
    Regrouped(multiset(s.pending), Sent(s.toClient), Come(s.delivered), Come(s.dropped), MatchedBy(a));
  }

  lemma StepAccounts(s: State, a: Action)
    requires Can(s, a)
    ensures Accounted(Do(s, a)) <= Accounted(s) + MatchedBy(a)
    ensures !Do(s, a).closed ==> Accounted(Do(s, a)) == Accounted(s) + MatchedBy(a)
  {
    StaysClosed(s, a);
    hide Accounted, Do, Can;
    if a.HandOver? {
      HandOverAccounts(s, a.i);
    } else if a.LoopRead? {
      LoopReadAccounts(s);
    } else {
      OthersAccount(s, a);
    }
  }

  /** In every run of an open session each connection that was picked for the child is in one place:
      with its transfer, on its way, delivered, or dropped; with its own port and bytes, and once.
      After the session has ended some may have been lost, and still none is there twice. */
  lemma {:induction false} ConnectionsAccounted(acts: seq<Action>, s: State)
    requires Run(acts, s)
    ensures Accounted(s) <= Matched(acts)
    ensures !s.closed ==> Accounted(s) == Matched(acts)
    decreases |acts|
  {
    if |acts| > 0 {
      var front, a := acts[..|acts| - 1], acts[|acts| - 1];
      var mid :| Path(INIT, front, mid) && Leads(mid, a, s);
      ConnectionsAccounted(front, mid);
      StepAccounts(mid, a);
      StaysClosed(mid, a);
      hide Accounted, Do, Can;
      assert Matched(acts) == Matched(front) + MatchedBy(a);
    }
  }

  lemma StaysClosed(s: State, a: Action)
    requires Can(s, a)
    ensures s.closed ==> Do(s, a).closed
  {
  }

  /** The two sides' views of the ports. */
  lemma PortsInStep(acts: seq<Action>, s: State)
    requires Run(acts, s) && !s.confused
    ensures s.sockets.Keys == s.listening
    ensures forall p :: p in s.open ==> p in s.listening || Ack(p) in s.toClient
    ensures !s.closed ==> forall i :: 0 <= i < |s.listeners| && s.listeners[i].socket != 0 ==> s.listeners[i].port in s.open
  {
    RunKeeps(acts, s);
    forall i | 0 <= i < |s.listeners| && s.listeners[i].socket != 0 && !s.closed ensures s.listeners[i].port in s.open {
      assert ListenerOk(s, s.listeners[i]);
    }
  }

  /** A connection handed over is queued exactly if it was sent after its port was acknowledged:
      then with the bytes sent beside it, on the channel stored for its port; otherwise the child
      has no channel for it and closes it. */
  lemma HandoverQueuedExactly(acts: seq<Action>, s: State)
    requires Run(acts, s) && !s.confused && s.loop.Reading? && |s.toClient| > 0 && s.toClient[0].Handover?
    ensures var m, s' := s.toClient[0], Do(s, LoopRead);
      && (m.late <==> m.port in s.sockets)
      && (m.late ==>
            && s'.delivered == s.delivered + [Delivery(s.sockets[m.port], m.port, m.bytes)] && s'.dropped == s.dropped
            && forall i :: 0 <= i < |s.listeners| ==> (s.listeners[i].port == m.port <==> s.listeners[i].chan == s.sockets[m.port]))
      && (!m.late ==> s'.delivered == s.delivered && s'.dropped == s.dropped + [Delivery(0, m.port, m.bytes)])
  {
    RunKeeps(acts, s);
    var m := s.toClient[0];
    assert m.late <==> m.port in s.listening;
    forall i | m.late && 0 <= i < |s.listeners|
      ensures s.listeners[i].port == m.port <==> s.listeners[i].chan == s.sockets[m.port]
    {
      assert ListenerOk(s, s.listeners[i]);
    }
  }

  /** What the child has accepted it keeps: no run takes a port out of its table. So once a port
      has been listened on, Listen refuses it for the rest of the session, even after its
      listener was closed. */
  lemma ListenOnce(acts: seq<Action>, s: State, more: seq<Action>, s': State, l: nat, t: nat, ok: bool)
    requires Run(acts, s) && l < |s.listeners| && Path(s, more, s') && !s'.confused
    requires Can(s', Ask(t, ok)) && s'.callers[t].port == s.listeners[l].port
    ensures Do(s', Ask(t, ok)) == s'.(mu := None, callers := s'.callers - {t})
    ensures s.listeners[l].port in s'.sockets && s'.sockets[s.listeners[l].port] == s.listeners[l].chan
  {
    PathHistory(s, more, s');
    RunKeeps(acts, s);
    assert ListenerOk(s, s.listeners[l]);
    PathKeeps(s, more, s');
  }

  lemma {:induction false} PathHistory(from: State, acts: seq<Action>, s: State)
    requires Path(from, acts, s)
    ensures from.confused ==> s.confused
    decreases |acts|
  {
    if |acts| > 0 {
      var front, a := acts[..|acts| - 1], acts[|acts| - 1];
      var mid :| Path(from, front, mid) && Leads(mid, a, s);
      PathHistory(from, front, mid);
      HistoryGrows(mid, a);
    }
  }

  // ---------- two runs ----------

  lemma Extend(acts: seq<Action>, s: State, a: Action) returns (acts': seq<Action>, s': State)
    requires Run(acts, s) && Can(s, a)
    ensures acts' == acts + [a] && s' == Do(s, a) && Run(acts', s')
  {
    acts', s' := acts + [a], Do(s, a);
    assert acts'[..|acts|] == acts;
    assert Path(INIT, acts, s) && Leads(s, a, s');
  }

  /** A request to open that has been granted and not yet acknowledged. */
  lemma GrantedRun(port: uint16) returns (acts: seq<Action>, s: State)
    requires port != 0
    ensures Run(acts, s) && s == INIT.(mu := Some(0), callers := map[0 := Waiting(port)], srv := Added(port))
  {
    hide Run;
    acts, s := [], INIT;
    assert Run(acts, s) by { RunOfNothing(); }
    acts, s := Extend(acts, s, Lock(0, port));
    acts, s := Extend(acts, s, Ask(0, true));
    acts, s := Extend(acts, s, Take);
    acts, s := Extend(acts, s, Handle(true));
  }

  lemma RunOfNothing()
    ensures Run([], INIT)
  {
  }

  /** A listener that Listen returned. */
  lemma ListeningRun(port: uint16) returns (acts: seq<Action>, s: State)
    requires port != 0
    ensures Run(acts, s)
    ensures s == INIT.(listeners := [Listener(port, 0, port, 0, {}, {})], sockets := map[port := 0], listening := {port},
                       chans := 1, open := {port}, acked := {port})
  {
    hide Run;
    acts, s := GrantedRun(port);
    acts, s := Extend(acts, s, Answer);
    acts, s := Extend(acts, s, LoopRead);
    acts, s := Extend(acts, s, Receive(0));
    acts, s := Extend(acts, s, Return(0));
  }

  /** For every port there is a run in which a connection is lost: it is picked for the child and
      sent between the port's registration and its acknowledgement. */
  lemma EarlyHandoverDropped(port: uint16, bytes: seq<byte>) returns (acts: seq<Action>, s: State)
    requires port != 0
    ensures Run(acts, s) && Once(s) && s.srv == Added(port) && s.delivered == [] && s.dropped == [Delivery(0, port, bytes)]
  {
    hide Run;
    acts, s := GrantedRun(port);
    acts, s := Extend(acts, s, Match(port, bytes));
    acts, s := Extend(acts, s, HandOver(0));
    acts, s := Extend(acts, s, LoopRead);
  }

  /** For every port there is a run in which a listener is closed by two callers at once and its
      port, closed by the first, is opened again by the second and acknowledged. */
  lemma SecondCloseReopens(port: uint16) returns (acts: seq<Action>, s: State)
    requires port != 0
    ensures Run(acts, s) && s.confused && !s.closed && s.open == {port} && s.toClient == [Ack(port)]
    ensures |s.listeners| == 1 && s.listeners[0].handled == {0, 1} && s.callers == map[]
  {
    acts, s := OneHandledRun(port);
    hide Run;
    acts, s := Extend(acts, s, Take);
    acts, s := Extend(acts, s, Handle(true));
    acts, s := Extend(acts, s, Answer);
  }

  lemma OneHandledRun(port: uint16) returns (acts: seq<Action>, s: State)
    requires port != 0
    ensures Run(acts, s)
    ensures s == INIT.(listeners := [Listener(port, 0, 0, 2, {}, {0})], sockets := map[port := 0], listening := {port},
                       chans := 1, acked := {port}, toServer := [Request(port, ToClose(0, 1))])
  {
    hide Run;
    acts, s := BothSentRun(port);
    acts, s := Extend(acts, s, Take);
    acts, s := Extend(acts, s, Handle(true));
    assert {port} - {port} == {} && {} + {0 as nat} == {0};
  }

  lemma BothSentRun(port: uint16) returns (acts: seq<Action>, s: State)
    requires port != 0
    ensures Run(acts, s)
    ensures s == INIT.(listeners := [Listener(port, 0, 0, 2, {}, {})], sockets := map[port := 0], listening := {port},
                       chans := 1, open := {port}, acked := {port},
                       toServer := [Request(port, ToClose(0, 0)), Request(port, ToClose(0, 1))])
  {
    hide Run;
    acts, s := ListeningRun(port);
    acts, s := Extend(acts, s, CloseCheck(1, 0));
    acts, s := Extend(acts, s, CloseCheck(2, 0));
    assert Decode([port % 0x100, port / 0x100]) == port;
    acts, s := Extend(acts, s, CloseLow(1));
    acts, s := Extend(acts, s, CloseLow(2));
    acts, s := Extend(acts, s, CloseHigh(1));
    acts, s := Extend(acts, s, CloseHigh(2));
    acts, s := Extend(acts, s, CloseZero(1));
    acts, s := Extend(acts, s, CloseZero(2));
    acts, s := Extend(acts, s, CloseSend(1, true));
    acts, s := Extend(acts, s, CloseSend(2, true));
  }

  /** And for every port above 255 that is no multiple of 256, a run in which two callers close its
      listener, one of them reads the low byte before the socket is zeroed and the high byte after
      it, and its message closes the port of another listener. */
  lemma TornCloseHitsAnother(port: uint16) returns (acts: seq<Action>, s: State)
    requires port > 0xff && port % 0x100 != 0
    ensures Run(acts, s) && s.confused && s.open == {port} && |s.listeners| == 2
    ensures s.listeners[1].port == port % 0x100 && s.listeners[1].passed == 0 && !s.closed
  {
    acts, s := TornRun(port, port % 0x100);
    hide Run;
    acts, s := Extend(acts, s, CloseSend(2, true));
    acts, s := Extend(acts, s, Take);
    acts, s := Extend(acts, s, Handle(true));
    assert {port, port % 0x100} - {port % 0x100} == {port};
  }

  lemma TwoListeningRun(port: uint16, other: uint16) returns (acts: seq<Action>, s: State)
    requires port != 0 && other != 0 && port != other
    ensures Run(acts, s)
    ensures s == INIT.(listeners := [Listener(port, 0, port, 0, {}, {}), Listener(other, 1, other, 0, {}, {})],
                       sockets := map[port := 0, other := 1], listening := {port, other}, chans := 2,
                       open := {port, other}, acked := {port, other})
  {
    acts, s := SecondGrantedRun(port, other);
    hide Run;
    acts, s := Extend(acts, s, Answer);
    acts, s := Extend(acts, s, LoopRead);
    acts, s := Extend(acts, s, Receive(0));
    acts, s := Extend(acts, s, Return(0));
  }

  lemma SecondGrantedRun(port: uint16, other: uint16) returns (acts: seq<Action>, s: State)
    requires port != 0 && other != 0 && port != other
    ensures Run(acts, s)
    ensures s == INIT.(listeners := [Listener(port, 0, port, 0, {}, {})], sockets := map[port := 0], listening := {port},
                       chans := 1, open := {port}, acked := {port},
                       mu := Some(0), callers := map[0 := Waiting(other)], srv := Added(other))
  {
    acts, s := ListeningRun(port);
    hide Run;
    acts, s := Extend(acts, s, Lock(0, other));
    acts, s := Extend(acts, s, Ask(0, true));
    acts, s := Extend(acts, s, Take);
    acts, s := Extend(acts, s, Handle(true));
  }

  lemma TornRun(port: uint16, other: uint16) returns (acts: seq<Action>, s: State)
    requires port > 0xff && other == port % 0x100 != 0
    ensures Run(acts, s)
    ensures s == INIT.(listeners := [Listener(port, 0, 0, 2, {}, {}), Listener(other, 1, other, 0, {}, {})],
                       sockets := map[port := 0, other := 1], listening := {port, other}, chans := 2,
                       open := {port, other}, acked := {port, other},
                       callers := map[1 := Zeroed(0, 0, port), 2 := Zeroed(0, 1, other)])
  {
    hide Run;
    acts, s := BothHalfRun(port, other);
    assert Decode([port % 0x100, port / 0x100]) == port && Decode([other as byte, 0]) == other;
    acts, s := Extend(acts, s, CloseHigh(1));
    acts, s := Extend(acts, s, CloseZero(1));
    acts, s := Extend(acts, s, CloseHigh(2));
    acts, s := Extend(acts, s, CloseZero(2));
  }

  lemma BothHalfRun(port: uint16, other: uint16) returns (acts: seq<Action>, s: State)
    requires port > 0xff && other == port % 0x100 != 0
    ensures Run(acts, s)
    ensures s == INIT.(listeners := [Listener(port, 0, port, 2, {}, {}), Listener(other, 1, other, 0, {}, {})],
                       sockets := map[port := 0, other := 1], listening := {port, other}, chans := 2,
                       open := {port, other}, acked := {port, other}, callers := map[1 := Half(0, 0, other), 2 := Half(0, 1, other)])
  {
    hide Run;
    acts, s := TwoListeningRun(port, other);
    acts, s := Extend(acts, s, CloseCheck(1, 0));
    acts, s := Extend(acts, s, CloseCheck(2, 0));
    acts, s := Extend(acts, s, CloseLow(1));
    acts, s := Extend(acts, s, CloseLow(2));
  }
}
