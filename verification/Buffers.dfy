/** One pool and all who use its buffers at the same time, step by step: any number of transfers in
    the proxy, or the reading loop and any number of connections in a child. Methods elsewhere take
    a buffer, fill it and give it back as if they were alone; here their steps are interleaved. */
module Buffers {
  import opened Bytes

  /** What a holder does with its buffer: receive into it, or wipe the part up to `upto`, of which
      `done` bytes are wiped. */
  datatype Phase = Filling | Wiping(upto: nat, done: nat)

  /** `mine` are the bytes that this holder itself has put into the buffer, from its start on. */
  datatype Holder = Holder(buf: nat, mine: seq<byte>, phase: Phase)

  /** Buffers are numbered; `mem` has what every one ever made contains. */
  datatype State = State(size: nat, mem: map<nat, seq<byte>>, pool: set<nat>, holders: map<nat, Holder>)

  datatype Action =
    | Get(t: nat, b: nat)              // pool.Get: one of the pool's, or a new one
    | Fill(t: nat, bytes: seq<byte>)   // buf[0] = tlsByte[0], or a read
    | Clear(t: nat, whole: bool)       // the wiping starts, after the bytes have been passed on
    | Wipe(t: nat)                     // buf[n] = 0
    | Put(t: nat)                      // pool.Put
    | Again(t: nat)                    // the child's loop keeps its buffer for the next message
    | Hand(t: nat, u: nat)             // the child's loop gives it to a connection
    | Drop(t: nat)                     // it is never given back

  ghost predicate Init(s: State) {
    s.mem == map[] && s.pool == {} && s.holders == map[]
  }

  ghost predicate Can(s: State, a: Action) {
    match a
    case Get(t, b) => t !in s.holders && (b in s.pool || b !in s.mem)
    case Fill(t, bytes) =>
      t in s.holders && s.holders[t].phase.Filling? && |s.holders[t].mine| + |bytes| <= s.size
    case Clear(t, _) => t in s.holders && s.holders[t].phase.Filling?
    case Wipe(t) => t in s.holders && s.holders[t].phase.Wiping? && s.holders[t].phase.done < s.holders[t].phase.upto
    case Put(t) => t in s.holders && Wiped(s.holders[t])
    case Again(t) => t in s.holders && Wiped(s.holders[t])
    case Hand(t, u) => t in s.holders && u !in s.holders && s.holders[t].phase.Filling?
    case Drop(t) => t in s.holders
  }

  predicate Wiped(h: Holder) {
    h.phase.Wiping? && h.phase.done == h.phase.upto
  }

  function Zeros(n: nat): seq<byte> { seq(n, _ => 0) }

  /** `bytes` written into buffer `b` from `k` on. */
  ghost function Write(s: State, b: nat, k: nat, bytes: seq<byte>): map<nat, seq<byte>> {
    if b in s.mem && k + |bytes| <= |s.mem[b]|
    then s.mem[b := s.mem[b][..k] + bytes + s.mem[b][k + |bytes|..]]
    else s.mem
  }

  ghost function Do(s: State, a: Action): State
    requires Can(s, a)
  {
    match a
    case Get(t, b) =>
      s.(pool := s.pool - {b}, mem := if b in s.mem then s.mem else s.mem[b := Zeros(s.size)],
         holders := s.holders[t := Holder(b, [], Filling)])
    case Fill(t, bytes) =>
      var h := s.holders[t];
      s.(mem := Write(s, h.buf, |h.mine|, bytes),
         holders := s.holders[t := h.(mine := h.mine + bytes)])
    case Clear(t, whole) =>
      var h := s.holders[t];
      s.(holders := s.holders[t := h.(phase := Wiping(if whole then s.size else |h.mine|, 0))])
    case Wipe(t) =>
      var h := s.holders[t];
      s.(mem := Write(s, h.buf, h.phase.done, [0]),
         holders := s.holders[t := h.(phase := Wiping(h.phase.upto, h.phase.done + 1))])
    case Put(t) => s.(pool := s.pool + {s.holders[t].buf}, holders := s.holders - {t})
    case Again(t) => s.(holders := s.holders[t := Holder(s.holders[t].buf, [], Filling)])
    case Hand(t, u) => s.(holders := (s.holders - {t})[u := s.holders[t]])
    case Drop(t) => s.(holders := s.holders - {t})
  }

  /** Each holder's buffer is its own, and what the holder itself has done to it explains all that
      is in it. */
  ghost predicate HolderOk(s: State, h: Holder) {
    && h.buf in s.mem && h.buf !in s.pool && |s.mem[h.buf]| == s.size
    && match h.phase
       case Filling => |h.mine| <= s.size && s.mem[h.buf] == h.mine + Zeros(s.size - |h.mine|)
       case Wiping(upto, done) =>
         done <= upto <= s.size && AllZero(s.mem[h.buf][..done]) && AllZero(s.mem[h.buf][upto..])
  }

  ghost predicate Inv(s: State) {
    && (forall b :: b in s.pool ==> b in s.mem && |s.mem[b]| == s.size && AllZero(s.mem[b]))
    && (forall t :: t in s.holders ==> HolderOk(s, s.holders[t]))
    && (forall t, u :: t in s.holders && u in s.holders && t != u ==> s.holders[t].buf != s.holders[u].buf)
  }

  lemma HolderStays(s: State, s': State, h: Holder)
    requires HolderOk(s, h) && s'.size == s.size && h.buf in s'.mem && s'.mem[h.buf] == s.mem[h.buf] && h.buf !in s'.pool
    ensures HolderOk(s', h)
  {
  }

  lemma GetKeeps(s: State, t: nat, b: nat)
    requires Inv(s) && Can(s, Get(t, b))
    ensures Inv(Do(s, Get(t, b)))
  {
    var s' := Do(s, Get(t, b));
    assert s'.mem[b] == Zeros(s.size) by {
      assert |s'.mem[b]| == s.size && AllZero(s'.mem[b]);
    }
    assert [] + Zeros(s.size) == Zeros(s.size);
    assert HolderOk(s', s'.holders[t]);
    forall u | u in s.holders ensures HolderOk(s', s.holders[u]) && s.holders[u].buf != b { HolderStays(s, s', s.holders[u]); }
  }

  lemma FillKeeps(s: State, t: nat, bytes: seq<byte>)
    requires Inv(s) && Can(s, Fill(t, bytes))
    ensures Inv(Do(s, Fill(t, bytes)))
  {
    var s' := Do(s, Fill(t, bytes));
    var h := s.holders[t];
    assert s'.mem[h.buf] == (h.mine + bytes) + Zeros(s.size - |h.mine + bytes|);
    forall u | u in s.holders && u != t ensures HolderOk(s', s.holders[u]) { HolderStays(s, s', s.holders[u]); }
  }

  /** What is wiped is what the name reader returned, or the bytes of the message: either the bytes
      received or the whole buffer. So it covers all that was received. */
  lemma ClearKeeps(s: State, t: nat, whole: bool)
    requires Inv(s) && Can(s, Clear(t, whole))
    ensures Inv(Do(s, Clear(t, whole)))
  {
    var h := s.holders[t];
    var upto := if whole then s.size else |h.mine|;
    assert s.mem[h.buf][upto..] == Zeros(s.size - upto);
    forall u | u in s.holders && u != t ensures HolderOk(Do(s, Clear(t, whole)), s.holders[u]) {
      HolderStays(s, Do(s, Clear(t, whole)), s.holders[u]);
    }
  }

  lemma WipeKeeps(s: State, t: nat)
    requires Inv(s) && Can(s, Wipe(t))
    ensures Inv(Do(s, Wipe(t)))
  {
    var s' := Do(s, Wipe(t));
    var h := s.holders[t];
    var m, m' := s.mem[h.buf], s'.mem[h.buf];
    assert forall i :: 0 <= i < h.phase.done ==> m'[i] == m[..h.phase.done][i];
    assert m'[h.phase.upto..] == m[h.phase.upto..];
    assert HolderOk(s', s'.holders[t]);
    forall u | u in s.holders && u != t ensures HolderOk(s', s.holders[u]) { HolderStays(s, s', s.holders[u]); }
  }

  lemma WipedZero(s: State, t: nat)
    requires Inv(s) && t in s.holders && Wiped(s.holders[t])
    ensures AllZero(s.mem[s.holders[t].buf]) && s.mem[s.holders[t].buf] == [] + Zeros(s.size)
  {
    var h := s.holders[t];
    var m := s.mem[h.buf];
    forall i | 0 <= i < |m| ensures m[i] == 0 {
      if i < h.phase.upto { assert m[i] == m[..h.phase.upto][i]; } else { assert m[i] == m[h.phase.upto..][i - h.phase.upto]; }
    }
  }

  /** Every step of every holder keeps the owners apart and the pool zero. */
  lemma StepKeeps(s: State, a: Action)
    requires Inv(s) && Can(s, a)
    ensures Inv(Do(s, a)) && Do(s, a).size == s.size
  {
    hide AllZero;
    match a {
      case Get(t, b) => GetKeeps(s, t, b);
      case Fill(t, bytes) => FillKeeps(s, t, bytes);
      case Clear(t, whole) => ClearKeeps(s, t, whole);
      case Wipe(t) => WipeKeeps(s, t);
      case Put(t) => WipedZero(s, t);
      case Again(t) => WipedZero(s, t);
      case Hand(_, _) =>
      case Drop(_) =>
    }
  }

  // ---------- whole runs ----------

  ghost predicate Path(from: State, acts: seq<Action>, s: State)
    decreases |acts|
  {
    if |acts| == 0 then s == from
    else
      var front, last := acts[..|acts| - 1], acts[|acts| - 1];
      exists mid :: Path(from, front, mid) && Leads(mid, last, s)
  }

  ghost predicate Leads(s: State, a: Action, s': State) {
    Can(s, a) && Do(s, a) == s'
  }

  lemma {:induction false} PathKeeps(from: State, acts: seq<Action>, s: State)
    requires Path(from, acts, s) && Inv(from)
    ensures Inv(s) && s.size == from.size
    decreases |acts|
  {
    hide Inv, Do;
    if |acts| > 0 {
      var front, last := acts[..|acts| - 1], acts[|acts| - 1];
      var mid :| Path(from, front, mid) && Leads(mid, last, s);
      PathKeeps(from, front, mid);
      StepKeeps(mid, last);
    }
  }

  /** In every interleaving each buffer is the pool's or one holder's, or nobody's for good; those
      in the pool are zero. */
  lemma OneOwner(start: State, acts: seq<Action>, s: State)
    requires Init(start) && Path(start, acts, s)
    ensures forall t, u :: t in s.holders && u in s.holders && s.holders[t].buf == s.holders[u].buf ==> t == u
    ensures forall t :: t in s.holders ==> s.holders[t].buf !in s.pool
    ensures forall b :: b in s.pool ==> b in s.mem && s.mem[b] == Zeros(s.size)
  {
    PathKeeps(start, acts, s);
    forall t | t in s.holders ensures s.holders[t].buf !in s.pool { assert HolderOk(s, s.holders[t]); }
  }

  /** How many buffers were dropped. */
  function Drops(acts: seq<Action>): nat {
    if |acts| == 0 then 0 else Drops(acts[..|acts| - 1]) + if acts[|acts| - 1].Drop? then 1 else 0
  }

  lemma OneMore(before: set<nat>, x: nat, after: set<nat>)
    requires x !in before && after == before + {x}
    ensures |after| == |before| + 1
  {
  }

  lemma GetCounts(s: State, t: nat, b: nat)
    requires Can(s, Get(t, b)) && (b in s.pool ==> b in s.mem)
    ensures var s' := Do(s, Get(t, b)); |s'.mem.Keys| - |s'.pool| == |s.mem.Keys| - |s.pool| + 1 && |s'.holders.Keys| == |s.holders.Keys| + 1
  {
    var s' := Do(s, Get(t, b));
    hide Do, Can;
    GetSets(s, t, b);
    OneMore(s.holders.Keys, t, s'.holders.Keys);
    if b in s.pool {
      OneMore(s'.pool, b, s.pool);
    } else {
      OneMore(s.mem.Keys, b, s'.mem.Keys);
    }
  }

  lemma GetSets(s: State, t: nat, b: nat)
    requires Can(s, Get(t, b)) && (b in s.pool ==> b in s.mem)
    ensures var s' := Do(s, Get(t, b));
      && t !in s.holders.Keys && s'.holders.Keys == s.holders.Keys + {t}
      && if b in s.pool then s'.mem.Keys == s.mem.Keys && b !in s'.pool && s.pool == s'.pool + {b}
         else b !in s.mem.Keys && s'.mem.Keys == s.mem.Keys + {b} && s'.pool == s.pool
  {
  }

  lemma PutCounts(s: State, t: nat)
    requires Inv(s) && Can(s, Put(t))
    ensures var s' := Do(s, Put(t)); s'.mem == s.mem && |s'.pool| == |s.pool| + 1 && |s'.holders.Keys| == |s.holders.Keys| - 1
  {
    assert HolderOk(s, s.holders[t]);
    hide HolderOk;
    assert s.holders.Keys == Do(s, Put(t)).holders.Keys + {t};
  }

  lemma OthersCount(s: State, a: Action)
    requires Can(s, a) && !a.Get? && !a.Put?
    ensures var s' := Do(s, a);
      s'.mem.Keys == s.mem.Keys && s'.pool == s.pool && |s'.holders.Keys| == |s.holders.Keys| - if a.Drop? then 1 else 0
  {
    var s' := Do(s, a);
    if a.Hand? {
      assert s.holders.Keys == s'.holders.Keys - {a.u} + {a.t};
    } else if a.Drop? {
      assert s.holders.Keys == s'.holders.Keys + {a.t};
    } else {
      assert s'.holders.Keys == s.holders.Keys;
    }
  }

  lemma StepCounts(s: State, a: Action)
    requires Inv(s) && Can(s, a)
    ensures var s' := Do(s, a);
      |s'.mem.Keys| - |s'.pool| - |s'.holders.Keys| == |s.mem.Keys| - |s.pool| - |s.holders.Keys| + if a.Drop? then 1 else 0
  {
    assert a.Get? && a.b in s.pool ==> a.b in s.mem;
    hide Inv, Do;
    match a {
      case Get(t, b) => GetCounts(s, t, b);
      case Put(t) => PutCounts(s, t);
      case _ => OthersCount(s, a);
    }
  }

  /** In every interleaving every buffer ever made is in the pool, with a holder, or was dropped. */
  lemma {:induction false} EachAccounted(start: State, acts: seq<Action>, s: State)
    requires Init(start) && Path(start, acts, s)
    ensures |s.mem.Keys| == |s.pool| + |s.holders.Keys| + Drops(acts)
    decreases |acts|
  {
    if |acts| > 0 {
      var front, last := acts[..|acts| - 1], acts[|acts| - 1];
      var mid :| Path(start, front, mid) && Leads(mid, last, s);
      EachAccounted(start, front, mid);
      PathKeeps(start, front, mid);
      hide Inv, Do;
      StepCounts(mid, last);
    }
  }

  /** In every interleaving a holder finds in its buffer exactly what it put there itself, and zeros
      beyond: whatever it reads of it, it reads as if it were alone. Nobody else's step changes it. */
  lemma AsIfAlone(start: State, acts: seq<Action>, s: State, t: nat)
    requires Init(start) && Path(start, acts, s) && t in s.holders && s.holders[t].phase.Filling?
    ensures var h := s.holders[t];
      h.buf in s.mem && |h.mine| <= s.size && s.mem[h.buf] == h.mine + Zeros(s.size - |h.mine|)
    ensures forall a, s' :: Leads(s, a, s') && t in s'.holders && s'.holders[t] == s.holders[t] ==>
      s'.mem[s.holders[t].buf] == s.mem[s.holders[t].buf]
  {
    PathKeeps(start, acts, s);
    assert HolderOk(s, s.holders[t]);
    forall a, s' | Leads(s, a, s') && t in s'.holders && s'.holders[t] == s.holders[t]
      ensures s'.mem[s.holders[t].buf] == s.mem[s.holders[t].buf]
    {
      StepKeeps(s, a);
      assert HolderOk(s', s.holders[t]);
    }
  }
}
