/** The table-driven finite state machine of a widget (fsm.go).  States are
    dense indices into the sigil and state-function tables; transitions are
    an append-only list resolved by first match in insertion order.  State
    functions are opaque tokens here: only which table slot holds which
    kind of function matters. */
module Fsm {
  import Results
  import opened Events

  /** One rendered appearance of a widget (opaque). */
  datatype Sigil = Sigil(token: nat)

  /** A state function, by origin: the three closures the round-robin
      constructor installs, or one supplied by a widget writer. */
  datatype StateFunc = EntryFunc | ExitFunc | ActiveFunc | CustomFunc(token: nat)

  datatype Transition = Transition(src: int, rc: RetCode, dst: int)

  datatype Machine = Machine(current: int, entry: int, exit: int,
                             sigils: seq<Sigil>, funcs: seq<StateFunc>,
                             transitions: seq<Transition>)

  datatype FsmError = NoMatchingTransition | DestinationOutOfRange

  /** The state NextState reports, with its error if it failed. */
  datatype Step = Step(state: int, err: Results.Option<FsmError>)

  /** A freshly allocated machine: every field at its zero value. */
  const Blank := Machine(0, 0, 0, [], [], [])

  /** Appends a state; its id is the number of states before the call. */
  function AddState(m: Machine, f: StateFunc, glyph: Sigil): (r: (Machine, int))
    ensures r.1 == |m.sigils|
    ensures r.0.sigils == m.sigils + [glyph] && r.0.funcs == m.funcs + [f]
    ensures |m.sigils| == |m.funcs| ==> r.0.sigils[r.1] == glyph && r.0.funcs[r.1] == f
    ensures (r.0.current, r.0.entry, r.0.exit, r.0.transitions) == (m.current, m.entry, m.exit, m.transitions)
  {
    (m.(funcs := m.funcs + [f], sigils := m.sigils + [glyph]), |m.sigils|)
  }

  /** Appends a transition without checking that its states exist. */
  function AddTransition(m: Machine, src: int, rc: RetCode, dst: int): (r: Machine)
    ensures r.transitions == m.transitions + [Transition(src, rc, dst)]
    ensures (r.current, r.entry, r.exit, r.sigils, r.funcs) == (m.current, m.entry, m.exit, m.sigils, m.funcs)
  {
    m.(transitions := m.transitions + [Transition(src, rc, dst)])
  }

  predicate Matches(t: Transition, src: int, rc: RetCode) {
    t.src == src && t.rc == rc
  }

  /** The index of the first transition matching (src, rc), if any. */
  function FirstMatch(ts: seq<Transition>, src: int, rc: RetCode): (r: Results.Option<nat>)
    ensures r.Some? ==> r.value < |ts| && Matches(ts[r.value], src, rc)
    ensures r.Some? ==> forall j :: 0 <= j < r.value ==> !Matches(ts[j], src, rc)
    ensures r.None? ==> forall j :: 0 <= j < |ts| ==> !Matches(ts[j], src, rc)
  {
    if |ts| == 0 then Results.None
    else if Matches(ts[0], src, rc) then Results.Some(0)
    else
      match FirstMatch(ts[1..], src, rc)
      case None => Results.None
      case Some(i) => Results.Some(i + 1)
  }

  /** The destination of the first transition matching (src, rc). */
  function Lookup(ts: seq<Transition>, src: int, rc: RetCode): (r: Results.Option<int>)
    ensures r.None? <==> forall j :: 0 <= j < |ts| ==> !Matches(ts[j], src, rc)
    ensures r.Some? ==> exists i :: 0 <= i < |ts| && Matches(ts[i], src, rc) && ts[i].dst == r.value
                                    && forall j :: 0 <= j < i ==> !Matches(ts[j], src, rc)
  {
    match FirstMatch(ts, src, rc)
    case None => Results.None
    case Some(i) => Results.Some(ts[i].dst)
  }

  /** The state the machine moves to on rc.  The machine itself is not
      changed; on failure the current state is reported with the error. */
  function NextState(m: Machine, rc: RetCode): (r: Step)
    ensures r.err.Some? ==> r.state == m.current
    ensures r.err == Results.Some(NoMatchingTransition) <==>
              forall j :: 0 <= j < |m.transitions| ==> !Matches(m.transitions[j], m.current, rc)
    ensures r.err == Results.Some(DestinationOutOfRange) <==>
              exists d :: Lookup(m.transitions, m.current, rc) == Results.Some(d) && !(0 <= d < |m.funcs|)
    ensures r.err.None? ==> Lookup(m.transitions, m.current, rc) == Results.Some(r.state)
                            && 0 <= r.state < |m.funcs|
  {
    match Lookup(m.transitions, m.current, rc)
    case None => Step(m.current, Results.Some(NoMatchingTransition))
    case Some(d) =>
      if d < 0 || d >= |m.funcs| then Step(m.current, Results.Some(DestinationOutOfRange))
      else Step(d, Results.None)
  }

  /** Appending to a table never changes the lookup of a pair that already
      has a match; otherwise the new entry decides it. */
  lemma LookupAppend(ts: seq<Transition>, t: Transition, src: int, rc: RetCode)
    ensures Lookup(ts + [t], src, rc) ==
      if Lookup(ts, src, rc).Some? then Lookup(ts, src, rc)
      else if Matches(t, src, rc) then Results.Some(t.dst)
      else Results.None
  {
    LookupConcat(ts, [t], src, rc);
    assert [t][1..] == [];
  }

  /** First match wins: a transition added after an existing match for the
      current state and rc, even a valid duplicate, changes nothing. */
  lemma FirstMatchWins(m: Machine, rc: RetCode, src: int, rc': RetCode, dst: int)
    requires Lookup(m.transitions, m.current, rc).Some?
    ensures NextState(AddTransition(m, src, rc', dst), rc) == NextState(m, rc)
  {
    LookupAppend(m.transitions, Transition(src, rc', dst), m.current, rc);
  }

  /** An out-of-range first match is reported even when a later duplicate is
      valid. */
  lemma BrokenFirstMatchNotRepaired()
    ensures var m := AddTransition(AddTransition(Blank.(funcs := [EntryFunc]), 0, Ok, 7), 0, Ok, 0);
            NextState(m, Ok) == Step(0, Results.Some(DestinationOutOfRange))
  {
    var m0 := Blank.(funcs := [EntryFunc]);
    var m1 := AddTransition(m0, 0, Ok, 7);
    FirstMatchWins(m1, Ok, 0, Ok, 0);
  }

  /** Sets the current state of a machine; a missing machine is left alone. */
  function SetState(m: Results.Option<Machine>, s: int): (r: Results.Option<Machine>)
    ensures r.None? <==> m.None?
    ensures r.Some? ==> r.value.current == s && r.value.(current := m.value.current) == m.value
  {
    match m
    case None => Results.None
    case Some(mm) => Results.Some(mm.(current := s))
  }

  /** The current state, or -1 for a missing machine. */
  function State(m: Results.Option<Machine>): (s: int)
    ensures m.Some? ==> s == m.value.current
    ensures m.None? ==> s == -1
  {
    match m
    case None => -1
    case Some(mm) => mm.current
  }

  lemma StateAfterSetState(m: Results.Option<Machine>, s: int)
    requires m.Some?
    ensures State(SetState(m, s)) == s
  {
  }

  // ---------------------------------------------------------------------
  // The round-robin machine

  /** No two transitions share a source state and return code. */
  predicate NoDuplicates(ts: seq<Transition>) {
    forall i, j :: 0 <= i < j < |ts| ==> !(ts[i].src == ts[j].src && ts[i].rc == ts[j].rc)
  }

  lemma NoDuplicatesAppend(ts: seq<Transition>, t: Transition)
    requires NoDuplicates(ts)
    requires Lookup(ts, t.src, t.rc).None?
    ensures NoDuplicates(ts + [t])
  {
    var ts' := ts + [t];
    forall i, j | 0 <= i < j < |ts'|
      ensures !(ts'[i].src == ts'[j].src && ts'[i].rc == ts'[j].rc)
    {
      if j == |ts| {
        assert !Matches(ts[i], t.src, t.rc);
      }
    }
  }

  /** The round-robin table with n active states: entry (0) goes to the first
      active state on Ok and to exit (1) on Fail; active state 2 + k goes to
      exit on Fail, stays on Repeat and Nop, and advances on Ok, wrapping from
      the last active state to the first; exit has no transitions. */
  function RoundRobinDst(n: nat, src: int, rc: RetCode): Results.Option<int> {
    if src == 0 then
      (if rc == Ok then Results.Some(2) else if rc == Fail then Results.Some(1) else Results.None)
    else if 2 <= src < 2 + n then
      match rc
      case Fail => Results.Some(1)
      case Repeat => Results.Some(src)
      case Nop => Results.Some(src)
      case Ok => if src < n + 1 then Results.Some(src + 1) else Results.Some(2)
    else Results.None
  }

  /** The table while the constructor's loop runs: s active states exist and
      the last of them has no Ok transition yet. */
  function PartialDst(s: nat, src: int, rc: RetCode): Results.Option<int> {
    if src == 0 then
      (if rc == Ok then Results.Some(2) else if rc == Fail then Results.Some(1) else Results.None)
    else if 2 <= src < 2 + s then
      match rc
      case Fail => Results.Some(1)
      case Repeat => Results.Some(src)
      case Nop => Results.Some(src)
      case Ok => if src < s + 1 then Results.Some(src + 1) else Results.None
    else Results.None
  }

  /** A machine whose table behaves as the round-robin table for n active
      states, with one state-table slot per state. */
  ghost predicate RoundRobin(m: Machine, n: nat) {
    && |m.funcs| == n + 2 && |m.sigils| == n + 2
    && forall src, rc :: Lookup(m.transitions, src, rc) == RoundRobinDst(n, src, rc)
  }

  /** The transitions the constructor appends for active state s + 2 once
      state s + 1 exists: the Ok link into it, then its own Fail, Repeat
      and Nop transitions. */
  function Block(s: nat): seq<Transition> {
    [Transition(s + 1, Ok, s + 2), Transition(s + 2, Fail, 1),
     Transition(s + 2, Repeat, s + 2), Transition(s + 2, Nop, s + 2)]
  }

  /** The table after the constructor has created s >= 1 active states,
      before it closes the cycle. */
  function Prefix(s: nat): (ts: seq<Transition>)
    requires s >= 1
    ensures |ts| == 4 * s + 1
  {
    if s == 1 then
      [Transition(0, Ok, 2), Transition(0, Fail, 1), Transition(2, Fail, 1),
       Transition(2, Repeat, 2), Transition(2, Nop, 2)]
    else Prefix(s - 1) + Block(s - 1)
  }

  /** A match in the first part is the first match of the concatenation. */
  lemma FirstMatchConcatLeft(ts: seq<Transition>, us: seq<Transition>, src: int, rc: RetCode)
    requires FirstMatch(ts, src, rc).Some?
    ensures FirstMatch(ts + us, src, rc) == FirstMatch(ts, src, rc)
  {
    var all := ts + us;
    var i := FirstMatch(ts, src, rc).value;
    assert all[i] == ts[i];
    assert forall j :: 0 <= j < i ==> all[j] == ts[j];
  }

  /** Without a match in the first part, the second part's first match is
      found after it. */
  lemma FirstMatchConcatRight(ts: seq<Transition>, us: seq<Transition>, src: int, rc: RetCode)
    requires FirstMatch(ts, src, rc).None? && FirstMatch(us, src, rc).Some?
    ensures FirstMatch(ts + us, src, rc).Some?
    ensures FirstMatch(ts + us, src, rc).value == |ts| + FirstMatch(us, src, rc).value
  {
    var all := ts + us;
    var i := FirstMatch(us, src, rc).value;
    assert all[|ts| + i] == us[i];
    assert Matches(all[|ts| + i], src, rc);
    assert forall j :: 0 <= j < |ts| + i ==> !Matches(all[j], src, rc) by {
      forall j | 0 <= j < |ts| + i ensures !Matches(all[j], src, rc) {
        if j < |ts| { assert all[j] == ts[j]; } else { assert all[j] == us[j - |ts|]; }
      }
    }
    var k := FirstMatch(all, src, rc);
    assert k.Some?;
    assert k.value <= |ts| + i;
  }

  /** Without a match in either part there is none in the concatenation. */
  lemma FirstMatchConcatNone(ts: seq<Transition>, us: seq<Transition>, src: int, rc: RetCode)
    requires FirstMatch(ts, src, rc).None? && FirstMatch(us, src, rc).None?
    ensures FirstMatch(ts + us, src, rc).None?
  {
    var all := ts + us;
    forall j | 0 <= j < |all| ensures !Matches(all[j], src, rc) {
      if j < |ts| { assert all[j] == ts[j]; } else { assert all[j] == us[j - |ts|]; }
    }
  }

  /** Lookup in a concatenation: the first part decides when it can. */
  lemma LookupConcat(ts: seq<Transition>, us: seq<Transition>, src: int, rc: RetCode)
    ensures Lookup(ts + us, src, rc) ==
      if Lookup(ts, src, rc).Some? then Lookup(ts, src, rc) else Lookup(us, src, rc)
  {
    var all := ts + us;
    if FirstMatch(ts, src, rc).Some? {
      FirstMatchConcatLeft(ts, us, src, rc);
      assert all[FirstMatch(ts, src, rc).value] == ts[FirstMatch(ts, src, rc).value];
    } else if FirstMatch(us, src, rc).Some? {
      FirstMatchConcatRight(ts, us, src, rc);
      assert all[|ts| + FirstMatch(us, src, rc).value] == us[FirstMatch(us, src, rc).value];
    } else {
      FirstMatchConcatNone(ts, us, src, rc);
    }
  }

  lemma NoDuplicatesConcat(ts: seq<Transition>, us: seq<Transition>)
    requires NoDuplicates(ts) && NoDuplicates(us)
    requires forall i, j :: 0 <= i < |ts| && 0 <= j < |us| ==> !(ts[i].src == us[j].src && ts[i].rc == us[j].rc)
    ensures NoDuplicates(ts + us)
  {
    var all := ts + us;
    forall i, j | 0 <= i < j < |all|
      ensures !(all[i].src == all[j].src && all[i].rc == all[j].rc)
    {
      if j >= |ts| {
        assert all[j] == us[j - |ts|];
        if i >= |ts| { assert all[i] == us[i - |ts|]; }
      }
    }
  }

  /** The lookup table of one block. */
  lemma BlockLookup(s: nat, src: int, rc: RetCode)
    ensures Lookup(Block(s), src, rc) ==
      if src == s + 1 && rc == Ok then Results.Some(s + 2)
      else if src == s + 2 && rc == Fail then Results.Some(1)
      else if src == s + 2 && rc != Ok then Results.Some(s + 2)
      else Results.None
  {
    var b := Block(s);
    var r := Lookup(b, src, rc);
    if r.Some? {
      var i :| 0 <= i < |b| && Matches(b[i], src, rc) && b[i].dst == r.value
               && forall j :: 0 <= j < i ==> !Matches(b[j], src, rc);
      if i > 0 {
        assert !Matches(b[0], src, rc);
      }
    } else {
      assert !Matches(b[0], src, rc) && !Matches(b[1], src, rc);
      assert !Matches(b[2], src, rc) && !Matches(b[3], src, rc);
    }
  }

  /** The table after the first active state. */
  lemma PrefixOneTable(src: int, rc: RetCode)
    ensures Lookup(Prefix(1), src, rc) == PartialDst(1, src, rc)
  {
    var p := Prefix(1);
    assert p[1..][1..][1..][1..][1..] == [];
  }

  lemma PrefixStepLookup(s: nat, src: int, rc: RetCode)
    requires s >= 1
    requires forall src, rc :: Lookup(Prefix(s), src, rc) == PartialDst(s, src, rc)
    ensures Lookup(Prefix(s + 1), src, rc) == PartialDst(s + 1, src, rc)
  {
    LookupConcat(Prefix(s), Block(s), src, rc);
    BlockLookup(s, src, rc);
  }

  lemma PrefixStepDistinct(s: nat)
    requires s >= 1
    requires forall src, rc :: Lookup(Prefix(s), src, rc) == PartialDst(s, src, rc)
    requires NoDuplicates(Prefix(s))
    ensures NoDuplicates(Prefix(s + 1))
  {
    var p, b := Prefix(s), Block(s);
    assert NoDuplicates(b);
    forall i, j | 0 <= i < |p| && 0 <= j < |b|
      ensures !(p[i].src == b[j].src && p[i].rc == b[j].rc)
    {
      assert Lookup(p, b[j].src, b[j].rc).None?;
    }
    NoDuplicatesConcat(p, b);
  }

  /** While the constructor runs, its table is the partial round-robin table
      and has no two transitions for the same pair. */
  lemma {:induction false} PrefixTable(s: nat)
    requires s >= 1
    ensures forall src, rc :: Lookup(Prefix(s), src, rc) == PartialDst(s, src, rc)
    ensures NoDuplicates(Prefix(s))
  {
    if s == 1 {
      forall src, rc ensures Lookup(Prefix(1), src, rc) == PartialDst(1, src, rc) {
        PrefixOneTable(src, rc);
      }
    } else {
      PrefixTable(s - 1);
      forall src, rc ensures Lookup(Prefix(s), src, rc) == PartialDst(s, src, rc) {
        PrefixStepLookup(s - 1, src, rc);
      }
      PrefixStepDistinct(s - 1);
    }
  }

  /** Closing the cycle turns the partial table into the round-robin one. */
  lemma RoundRobinTable(n: nat)
    requires n >= 1
    ensures forall src, rc :: Lookup(Prefix(n) + [Transition(n + 1, Ok, 2)], src, rc) == RoundRobinDst(n, src, rc)
    ensures NoDuplicates(Prefix(n) + [Transition(n + 1, Ok, 2)])
  {
    PrefixTable(n);
    var p, t := Prefix(n), Transition(n + 1, Ok, 2);
    forall src, rc ensures Lookup(p + [t], src, rc) == RoundRobinDst(n, src, rc) {
      LookupAppend(p, t, src, rc);
    }
    NoDuplicatesAppend(p, t);
  }

  /** One turn of the constructor's loop: an active state with the given
      sigil, reached from prev on Ok, left for exitState on Fail, and kept
      on Repeat and Nop. */
  function AddActive(m: Machine, prev: int, exitState: int, glyph: Sigil): (r: (Machine, int))
    ensures r.1 == |m.sigils|
    ensures r.0.sigils == m.sigils + [glyph] && r.0.funcs == m.funcs + [ActiveFunc]
    ensures r.0.transitions == m.transitions +
      [Transition(prev, Ok, r.1), Transition(r.1, Fail, exitState),
       Transition(r.1, Repeat, r.1), Transition(r.1, Nop, r.1)]
    ensures (r.0.current, r.0.entry, r.0.exit) == (m.current, m.entry, m.exit)
  {
    var added := AddState(m, ActiveFunc, glyph);
    var st := added.1;
    var m1 := AddTransition(added.0, prev, Ok, st);
    var m2 := AddTransition(m1, st, Fail, exitState);
    var m3 := AddTransition(m2, st, Repeat, st);
    (AddTransition(m3, st, Nop, st), st)
  }

  /** Builds the round-robin machine for the given active-state sigils.
      With no sigils the tables are empty, entry and current are -1, and
      exit keeps its zero value 0. */
  method NewFSM(active: seq<Sigil>) returns (m: Machine)
    ensures |active| == 0 ==> m == Machine(-1, -1, 0, [], [], [])
    ensures |active| > 0 ==> RoundRobin(m, |active|)
    ensures |active| > 0 ==> m.entry == 0 && m.exit == 1 && m.current == 0
    ensures |active| > 0 ==> m.sigils == [active[0], active[0]] + active
    ensures |active| > 0 ==> m.funcs[0] == EntryFunc && m.funcs[1] == ExitFunc
                             && forall k :: 2 <= k < |m.funcs| ==> m.funcs[k] == ActiveFunc
    ensures |active| > 0 ==> |m.transitions| == 4 * |active| + 2 && NoDuplicates(m.transitions)
  {
    var entryState, exitState := -1, 0;
    m := Blank;
    var n := |active|;
    if n > 0 {
      var glyph := active[0];
      var first;
      var added := AddState(m, EntryFunc, glyph);
      m, entryState := added.0, added.1;
      added := AddState(m, ExitFunc, glyph);
      m, exitState := added.0, added.1;
      added := AddState(m, ActiveFunc, glyph);
      m, first := added.0, added.1;
      var activeState := first;
      m := AddTransition(m, entryState, Ok, activeState);
      m := AddTransition(m, entryState, Fail, exitState);
      m := AddTransition(m, activeState, Fail, exitState);
      m := AddTransition(m, activeState, Repeat, activeState);
      m := AddTransition(m, activeState, Nop, activeState);
      var s := 1;
      while s < n
        invariant 1 <= s <= n
        invariant entryState == 0 && exitState == 1 && first == 2 && activeState == s + 1
        invariant m.sigils == [glyph, glyph] + active[..s]
        invariant |m.funcs| == s + 2 && m.funcs[0] == EntryFunc && m.funcs[1] == ExitFunc
        invariant forall k :: 2 <= k < |m.funcs| ==> m.funcs[k] == ActiveFunc
        invariant m.transitions == Prefix(s)
        invariant (m.current, m.entry, m.exit) == (0, 0, 0)
      {
        var added := AddActive(m, activeState, exitState, active[s]);
        var st;
        m, st := added.0, added.1;
        assert active[..s + 1] == active[..s] + [active[s]];
        assert m.transitions == Prefix(s) + Block(s);
        activeState := st;
        s := s + 1;
      }
      assert active[..s] == active;
      m := AddTransition(m, activeState, Ok, first);
      RoundRobinTable(n);
    }
    m := m.(entry := entryState, exit := exitState, current := entryState);
  }

  // ---------------------------------------------------------------------
  // Driving a machine

  /** Feeds return codes to the machine, moving to each state NextState
      reports; a failed step leaves the current state as it was. */
  function Run(m: Machine, rcs: seq<RetCode>): (r: Machine)
    ensures r.(current := m.current) == m
    decreases |rcs|
  {
    if |rcs| == 0 then m
    else Run(m.(current := NextState(m, rcs[0]).state), rcs[1..])
  }

  lemma {:induction false} RunAppend(m: Machine, a: seq<RetCode>, b: seq<RetCode>)
    ensures Run(m, a + b) == Run(Run(m, a), b)
    decreases |a|
  {
    if |a| == 0 {
      assert a + b == b;
    } else {
      var m' := m.(current := NextState(m, a[0]).state);
      assert (a + b)[0] == a[0] && (a + b)[1..] == a[1..] + b;
      assert Run(m, a + b) == Run(m', a[1..] + b);
      assert Run(m, a) == Run(m', a[1..]);
      RunAppend(m', a[1..], b);
    }
  }

  function Oks(j: nat): (r: seq<RetCode>)
    ensures |r| == j && forall i :: 0 <= i < j ==> r[i] == Ok
  {
    seq(j, _ => Ok)
  }

  /** In a round-robin machine every transition lands on an existing state,
      so a step fails exactly when the table has no entry. */
  lemma RoundRobinStep(m: Machine, n: nat, rc: RetCode)
    requires RoundRobin(m, n) && n >= 1
    ensures NextState(m, rc) ==
      match RoundRobinDst(n, m.current, rc)
      case None => Step(m.current, Results.Some(NoMatchingTransition))
      case Some(d) => Step(d, Results.None)
  {
    assert Lookup(m.transitions, m.current, rc) == RoundRobinDst(n, m.current, rc);
  }

  /** Ok from active state 2 + k leads to active state 2 + ((k + 1) mod n). */
  lemma RoundRobinOkIsModular(n: nat, k: nat)
    requires k < n
    ensures RoundRobinDst(n, 2 + k, Ok) == Results.Some(2 + (k + 1) % n)
  {
    if k + 1 < n {
      assert (k + 1) % n == k + 1;
    } else {
      assert (k + 1) % n == 0;
    }
  }

  lemma {:induction false} AdvanceWithoutWrap(m: Machine, n: nat, k: nat, j: nat)
    requires RoundRobin(m, n) && n >= 1 && m.current == 2 + k && k + j < n
    ensures Run(m, Oks(j)).current == 2 + k + j
    decreases j
  {
    if j > 0 {
      RoundRobinStep(m, n, Ok);
      assert Oks(j) == [Ok] + Oks(j - 1);
      var m' := m.(current := 2 + k + 1);
      assert Run(m, Oks(j)) == Run(m', Oks(j - 1));
      AdvanceWithoutWrap(m', n, k + 1, j - 1);
    }
  }

  /** n Ok results bring any active state of an n-state round robin back to
      itself, passing through every other active state once. */
  lemma ActiveCycle(m: Machine, n: nat, k: nat)
    requires RoundRobin(m, n) && k < n && m.current == 2 + k
    ensures Run(m, Oks(n)).current == 2 + k
  {
    var up := n - 1 - k;
    assert Oks(n) == Oks(up) + ([Ok] + Oks(k));
    RunAppend(m, Oks(up), [Ok] + Oks(k));
    AdvanceWithoutWrap(m, n, k, up);
    var last := Run(m, Oks(up));
    assert last.current == n + 1;
    RoundRobinStep(last, n, Ok);
    var wrapped := last.(current := 2);
    assert Run(last, [Ok] + Oks(k)) == Run(wrapped, Oks(k));
    AdvanceWithoutWrap(wrapped, n, 0, k);
  }

  /** Fail leads to the exit state from entry and from every active state,
      and the exit state has no transitions at all. */
  lemma FailLeadsToExit(m: Machine, n: nat, rc: RetCode)
    requires RoundRobin(m, n) && n >= 1 && (m.current == 0 || 2 <= m.current < n + 2)
    ensures NextState(m, Fail) == Step(1, Results.None)
    ensures NextState(m.(current := 1), rc) == Step(1, Results.Some(NoMatchingTransition))
  {
    RoundRobinStep(m, n, Fail);
    RoundRobinStep(m.(current := 1), n, rc);
  }

  /** From entry, Ok enters the first active state; Repeat and Nop have no
      entry. */
  lemma EntryTransitions(m: Machine, n: nat)
    requires RoundRobin(m, n) && n >= 1 && m.current == 0
    ensures NextState(m, Ok) == Step(2, Results.None)
    ensures NextState(m, Repeat) == Step(0, Results.Some(NoMatchingTransition))
    ensures NextState(m, Nop) == Step(0, Results.Some(NoMatchingTransition))
  {
    RoundRobinStep(m, n, Ok);
    RoundRobinStep(m, n, Repeat);
    RoundRobinStep(m, n, Nop);
  }

  /** A widget with three appearances: Ok enters state 2 and a second Ok
      moves on to state 3. */
  lemma ThreeSigilStart(m: Machine)
    requires RoundRobin(m, 3) && m.current == 0
    ensures Run(m, [Ok]).current == 2
    ensures Run(m, [Ok, Ok]).current == 3
  {
    EntryTransitions(m, 3);
    var m2 := m.(current := 2);
    assert Run(m, [Ok]) == Run(m2, []);
    RoundRobinStep(m2, 3, Ok);
    assert [Ok, Ok][1..] == [Ok];
    assert Run(m, [Ok, Ok]) == Run(m2, [Ok]);
    assert Run(m2, [Ok]) == Run(m2.(current := 3), []);
  }

  /** After entering, three more Oks come back to state 2. */
  lemma ThreeSigilCycle(m: Machine)
    requires RoundRobin(m, 3) && m.current == 0
    ensures Run(m, [Ok, Ok, Ok, Ok]).current == 2
  {
    ThreeSigilStart(m);
    assert [Ok, Ok, Ok, Ok] == [Ok] + Oks(3);
    RunAppend(m, [Ok], Oks(3));
    ActiveCycle(Run(m, [Ok]), 3, 0);
  }

  /** Fail after the cycle exits, and the exit state is terminal. */
  lemma ThreeSigilExit(m: Machine)
    requires RoundRobin(m, 3) && m.current == 0
    ensures Run(m, [Ok, Ok, Ok, Ok, Fail]).current == 1
    ensures NextState(Run(m, [Ok, Fail]), Ok) == Step(1, Results.Some(NoMatchingTransition))
  {
    ThreeSigilCycle(m);
    ThreeSigilStart(m);
    assert [Ok, Ok, Ok, Ok, Fail] == [Ok, Ok, Ok, Ok] + [Fail];
    RunAppend(m, [Ok, Ok, Ok, Ok], [Fail]);
    var back := Run(m, [Ok, Ok, Ok, Ok]);
    FailLeadsToExit(back, 3, Ok);
    assert Run(back, [Fail]) == Run(back.(current := 1), []);
    assert [Ok, Fail] == [Ok] + [Fail];
    RunAppend(m, [Ok], [Fail]);
    var entered := Run(m, [Ok]);
    FailLeadsToExit(entered, 3, Ok);
    assert Run(entered, [Fail]) == Run(entered.(current := 1), []);
  }

  /** A machine with no transitions can never move. */
  lemma EmptyMachineStuck(m: Machine, rc: RetCode)
    requires m.transitions == []
    ensures NextState(m, rc) == Step(m.current, Results.Some(NoMatchingTransition))
  {
  }

  // ---------------------------------------------------------------------
  // Results of state functions

  /** The integer arguments, in order. */
  function IntsOf(args: seq<Arg>): seq<int> {
    if |args| == 0 then []
    else (if args[0].IntArg? then [args[0].i] else []) + IntsOf(args[1..])
  }

  /** The string arguments, in order. */
  function StringsOf(args: seq<Arg>): seq<string> {
    if |args| == 0 then []
    else (if args[0].StringArg? then [args[0].s] else []) + StringsOf(args[1..])
  }

  /** The kind of the first integer or string argument, or None. */
  function FirstPayload(args: seq<Arg>): PayloadType {
    if |args| == 0 then None
    else if args[0].IntArg? then Int
    else if args[0].StringArg? then String
    else FirstPayload(args[1..])
  }

  /** Adds one argument to a result: a string or integer is appended to
      its payload and sets the kind if none is set yet; anything else is
      skipped. */
  function Absorb(r: ResultType, a: Arg): (q: ResultType)
    ensures q.rc == r.rc
    ensures q.val == r.val + (if a.IntArg? then [a.i] else [])
    ensures q.sval == r.sval + (if a.StringArg? then [a.s] else [])
    ensures q.kind == if r.kind != None || a.OtherArg? then r.kind else if a.IntArg? then Int else String
  {
    match a
    case StringArg(v) => r.(sval := r.sval + [v], kind := if r.kind == None then String else r.kind)
    case IntArg(v) => r.(val := r.val + [v], kind := if r.kind == None then Int else r.kind)
    case OtherArg => r
  }

  /** Adds the arguments to a result one at a time. */
  function Collect(r: ResultType, args: seq<Arg>): (q: ResultType)
    ensures q.rc == r.rc
    ensures q.val == r.val + IntsOf(args) && q.sval == r.sval + StringsOf(args)
    ensures q.kind == if r.kind == None then FirstPayload(args) else r.kind
    decreases |args|
  {
    if |args| == 0 then r
    else
      var a := args[0];
      var r' := Absorb(r, a);
      var q := Collect(r', args[1..]);
      assert q.val == r.val + IntsOf(args) by {
        assert IntsOf(args) == (if a.IntArg? then [a.i] else []) + IntsOf(args[1..]);
      }
      assert q.sval == r.sval + StringsOf(args) by {
        assert StringsOf(args) == (if a.StringArg? then [a.s] else []) + StringsOf(args[1..]);
      }
      q
  }

  /** The output event a state function returns: return code rc, the
      integer and string arguments as payloads, and the kind of the first
      of them (None when there are none). */
  function WidgetResult(rc: RetCode, args: seq<Arg>): (e: Event)
    ensures e.eventType == WindEventOutput && e.args == Results.None
    ensures e.result == Results.Some(ResultType(rc, FirstPayload(args), IntsOf(args), StringsOf(args)))
  {
    var e := NewEvent(WindEventOutput, []);
    var r := Collect(e.result.value.(rc := rc, kind := None), args);
    assert r.val == IntsOf(args) && r.sval == StringsOf(args) by {
      assert [] + IntsOf(args) == IntsOf(args);
      assert [] + StringsOf(args) == StringsOf(args);
    }
    e.(result := Results.Some(r))
  }

  /** The payload kind is None exactly when no argument is an integer or
      string, and otherwise it is the kind of the first such argument. */
  lemma {:induction false} FirstPayloadCharacterized(args: seq<Arg>)
    ensures FirstPayload(args) == None <==> forall i :: 0 <= i < |args| ==> args[i].OtherArg?
    ensures FirstPayload(args) != None ==>
      exists i :: 0 <= i < |args| && !args[i].OtherArg?
                  && (forall j :: 0 <= j < i ==> args[j].OtherArg?)
                  && FirstPayload(args) == (if args[i].IntArg? then Int else String)
  {
    if |args| > 0 {
      FirstPayloadCharacterized(args[1..]);
      if args[0].OtherArg? {
        forall i | 0 <= i < |args[1..]| ensures args[1..][i] == args[i + 1] { }
        if FirstPayload(args) != None {
          var i :| 0 <= i < |args[1..]| && !args[1..][i].OtherArg?
                   && (forall j :: 0 <= j < i ==> args[1..][j].OtherArg?)
                   && FirstPayload(args[1..]) == (if args[1..][i].IntArg? then Int else String);
          assert forall j :: 0 <= j < i + 1 ==> args[j].OtherArg? by {
            forall j | 0 <= j < i + 1 ensures args[j].OtherArg? {
              if j > 0 { assert args[j] == args[1..][j - 1]; }
            }
          }
        } else {
          forall i | 0 <= i < |args| ensures args[i].OtherArg? {
            if i > 0 { assert args[i] == args[1..][i - 1]; }
          }
        }
      } else {
        assert !args[0].OtherArg?;
      }
    }
  }

  lemma {:induction false} IntsAppend(a: seq<Arg>, b: seq<Arg>)
    ensures IntsOf(a + b) == IntsOf(a) + IntsOf(b)
    decreases |a|
  {
    if |a| == 0 {
      assert a + b == b;
    } else {
      assert (a + b)[0] == a[0] && (a + b)[1..] == a[1..] + b;
      IntsAppend(a[1..], b);
    }
  }

  lemma {:induction false} StringsAppend(a: seq<Arg>, b: seq<Arg>)
    ensures StringsOf(a + b) == StringsOf(a) + StringsOf(b)
    decreases |a|
  {
    if |a| == 0 {
      assert a + b == b;
    } else {
      assert (a + b)[0] == a[0] && (a + b)[1..] == a[1..] + b;
      StringsAppend(a[1..], b);
    }
  }

  lemma {:induction false} FirstPayloadAppend(a: seq<Arg>, b: seq<Arg>)
    ensures FirstPayload(a + b) == if FirstPayload(a) == None then FirstPayload(b) else FirstPayload(a)
    decreases |a|
  {
    if |a| == 0 {
      assert a + b == b;
    } else {
      assert (a + b)[0] == a[0] && (a + b)[1..] == a[1..] + b;
      FirstPayloadAppend(a[1..], b);
    }
  }

  /** Results of consecutive argument lists combine: payloads concatenate
      and the first list decides the kind when it carries any payload. */
  lemma WidgetResultAppend(rc: RetCode, a: seq<Arg>, b: seq<Arg>)
    ensures var ra, rb, rab := WidgetResult(rc, a).result.value, WidgetResult(rc, b).result.value,
                               WidgetResult(rc, a + b).result.value;
            && rab.val == ra.val + rb.val && rab.sval == ra.sval + rb.sval
            && rab.kind == (if ra.kind == None then rb.kind else ra.kind)
  {
    IntsAppend(a, b);
    StringsAppend(a, b);
    FirstPayloadAppend(a, b);
  }

  /** The results the constructor's state functions return.  Entry and
      exit report Ok with payload 0; an active state reports Repeat with
      payload 1 for a left mouse click and Nop with payload 0 otherwise. */
  function BuiltinResult(f: StateFunc, leftClick: bool): (e: Event)
    requires !f.CustomFunc?
    ensures e.eventType == WindEventOutput && e.result.Some?
    ensures e.result.value.kind == Int && |e.result.value.val| == 1 && e.result.value.sval == []
    ensures f.ActiveFunc? && leftClick <==> e.result.value.rc == Repeat
    ensures f.ActiveFunc? && !leftClick <==> e.result.value.rc == Nop
    ensures !f.ActiveFunc? ==> e.result.value.rc == Ok
    ensures e.result.value.val[0] == (if e.result.value.rc == Repeat then 1 else 0)
  {
    match f
    case EntryFunc => WidgetResult(Ok, [IntArg(0)])
    case ExitFunc => WidgetResult(Ok, [IntArg(0)])
    case ActiveFunc => if leftClick then WidgetResult(Repeat, [IntArg(1)]) else WidgetResult(Nop, [IntArg(0)])
  }

  /** In the round-robin machine an active state's own results never move
      it: clicks and idle input both keep the current state. */
  lemma ActiveStateHoldsItself(m: Machine, n: nat, leftClick: bool)
    requires RoundRobin(m, n) && n >= 1 && 2 <= m.current < n + 2
    ensures NextState(m, BuiltinResult(ActiveFunc, leftClick).result.value.rc) == Step(m.current, Results.None)
  {
    RoundRobinStep(m, n, BuiltinResult(ActiveFunc, leftClick).result.value.rc);
  }
}
