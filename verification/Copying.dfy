/** The counter of redirect.go: every transfer adds two and starts two copiers, and each copier
    takes one off when it is finished. The counter is an unsigned 64-bit number. */
module Copying {

  const WORD: nat := 0x1_0000_0000_0000_0000

  /** `owed` are the copiers counted and not yet started, `running` those started and not yet
      finished, over all transfers. */
  datatype State = State(copying: nat, owed: nat, running: nat)

  datatype Action =
    | Count   // atomic.AddUint64(&a.copying, 2)
    | Launch  // go copyConn
    | Finish  // atomic.AddUint64(c, ^uint64(0))

  const INIT := State(0, 0, 0)

  predicate Can(s: State, a: Action) {
    match a
    case Count => true
    case Launch => s.owed > 0
    case Finish => s.running > 0
  }

  function Do(s: State, a: Action): State
    requires Can(s, a)
  {
    match a
    case Count => s.(copying := (s.copying + 2) % WORD, owed := s.owed + 2)
    case Launch => s.(owed := s.owed - 1, running := s.running + 1)
    case Finish => s.(copying := (s.copying + (WORD - 1)) % WORD, running := s.running - 1)
  }

  /** addrService.Active */
  predicate Active(s: State) { s.copying > 0 }

  ghost predicate Run(acts: seq<Action>, s: State)
    decreases |acts|
  {
    if |acts| == 0 then s == INIT
    else
      var front, last := acts[..|acts| - 1], acts[|acts| - 1];
      exists mid :: Run(front, mid) && Leads(mid, last, s)
  }

  ghost predicate Leads(s: State, a: Action, s': State) {
    Can(s, a) && Do(s, a) == s'
  }

  /** How often an action was taken. */
  function Times(acts: seq<Action>, a: Action): nat {
    if |acts| == 0 then 0
    else Times(acts[..|acts| - 1], a) + if acts[|acts| - 1] == a then 1 else 0
  }

  /** Adding two and adding 2^64 - 1, in 64 bits. */
  lemma Wraps(c: nat, x: nat)
    requires c == x % WORD
    ensures (c + 2) % WORD == (x + 2) % WORD
    ensures x > 0 ==> (c + (WORD - 1)) % WORD == (x - 1) % WORD
  {
    if x > 0 { assert x - 1 + WORD == WORD * (x / WORD) + c + (WORD - 1); }
  }

  lemma CounterStep(mid: State, a: Action, s: State)
    requires Leads(mid, a, s) && mid.copying == (mid.owed + mid.running) % WORD
    ensures s.copying == (s.owed + s.running) % WORD
  {
    Wraps(mid.copying, mid.owed + mid.running);
  }

  lemma {:induction false} Tallied(acts: seq<Action>, s: State)
    requires Run(acts, s)
    ensures s.owed + s.running == 2 * Times(acts, Count) - Times(acts, Finish)
    ensures s.running == Times(acts, Launch) - Times(acts, Finish)
    decreases |acts|
  {
    if |acts| > 0 {
      var front, last := acts[..|acts| - 1], acts[|acts| - 1];
      var mid :| Run(front, mid) && Leads(mid, last, s);
      Tallied(front, mid);
    }
  }

  lemma {:induction false} CounterFollows(acts: seq<Action>, s: State)
    requires Run(acts, s)
    ensures s.copying == (s.owed + s.running) % WORD
    decreases |acts|
  {
    hide Leads;
    if |acts| > 0 {
      var front, last := acts[..|acts| - 1], acts[|acts| - 1];
      var mid :| Run(front, mid) && Leads(mid, last, s);
      CounterFollows(front, mid);
      CounterStep(mid, last, s);
    }
  }

  /** In every interleaving the counter is the number of copiers counted and not finished, in 64
      bits; that number never falls below zero, and Active says exactly whether it is zero as long
      as there are fewer than 2^64 copiers at once. */
  lemma CounterExact(acts: seq<Action>, s: State)
    requires Run(acts, s)
    ensures var unfinished := 2 * Times(acts, Count) - Times(acts, Finish);
      && unfinished == s.owed + s.running >= s.running == Times(acts, Launch) - Times(acts, Finish)
      && s.copying == unfinished % WORD
      && (unfinished < WORD ==> (Active(s) <==> unfinished > 0))
  {
    hide Run, Times;
    Tallied(acts, s);
    CounterFollows(acts, s);
  }
}
