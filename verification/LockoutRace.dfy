/** The same counter under attempts in flight at once: each worker checks, then increments or seeds,
    then perhaps stores its own count back, as separate cache operations. */
module LockoutRace {
  import opened Wrappers
  import opened Lockout

  datatype Pc = Passed | Seeding | Setting(count: int)

  datatype State = State(entry: Option<Entry>, pcs: map<nat, Pc>)

  datatype Op = Op(w: nat, now: int)

  /** The next cache operation of a worker; one that is not in flight starts with the lock check. */
  function Step(p: Policy, s: State, op: Op): State {
    if op.w !in s.pcs then
      if Locked(p, s.entry, op.now) then s else s.(pcs := s.pcs[op.w := Passed])
    else match s.pcs[op.w]
      case Passed =>
        if Live(s.entry, op.now).None? then s.(pcs := s.pcs[op.w := Seeding])
        else
          var n := s.entry.value.count + 1;
          Counted(p, State(Some(s.entry.value.(count := n)), s.pcs), op.w, n)
      case Seeding => Counted(p, State(Some(Entry(1, op.now + p.window)), s.pcs), op.w, 1)
      case Setting(n) => State(Some(Entry(n, op.now + BackoffSeconds(p, n))), s.pcs - {op.w})
  }

  function Counted(p: Policy, s: State, w: nat, n: int): State {
    if n >= p.maxAttempts then s.(pcs := s.pcs[w := Setting(n)]) else s.(pcs := s.pcs - {w})
  }

  function Run(p: Policy, ops: seq<Op>): State {
    if ops == [] then State(None, map[]) else Step(p, Run(p, ops[..|ops| - 1]), ops[|ops| - 1])
  }

  /** No lost update: while a worker has a count to store back the entry does not lapse, and a worker
      that missed the entry seeds it while it is still missing. */
  ghost predicate NoLapse(s: State, op: Op) {
    && ((exists w :: w in s.pcs && s.pcs[w].Setting?) ==> Live(s.entry, op.now).Some?)
    && (op.w in s.pcs && s.pcs[op.w].Seeding? ==> Live(s.entry, op.now).None?)
  }

  ghost predicate Fits(p: Policy, k: nat, ops: seq<Op>, i: nat)
    requires i < |ops|
  {
    && NoLapse(Run(p, ops[..i]), ops[i])
    && |Run(p, ops[..i + 1]).pcs| <= k
    && (i > 0 ==> ops[i - 1].now <= ops[i].now)
  }

  /** Time does not run backwards, at most k workers are in flight, and no update is lost. */
  ghost predicate Careful(p: Policy, k: nat, ops: seq<Op>) {
    forall i :: 0 <= i < |ops| ==> Fits(p, k, ops, i)
  }

  /** Workers that passed the check and have not counted yet. */
  function Pending(s: State): set<nat> {
    set w | w in s.pcs && !s.pcs[w].Setting?
  }

  ghost predicate Bounded(p: Policy, k: nat, s: State, now: int) {
    && |s.pcs| <= k
    && (Live(s.entry, now).Some? ==> s.entry.value.count + |Pending(s)| <= p.maxAttempts + k - 1)
    && (forall w :: w in s.pcs && s.pcs[w].Setting? ==>
          p.maxAttempts <= s.pcs[w].count && s.pcs[w].count + |Pending(s)| <= p.maxAttempts + k - 1 &&
          s.entry.Some? && s.entry.value.count >= p.maxAttempts)
  }

  lemma PassBounded(p: Policy, k: nat, s: State, op: Op, before: int)
    requires Sensible(p) && Bounded(p, k, s, before) && before <= op.now
    requires op.w !in s.pcs && |Step(p, s, op).pcs| <= k && NoLapse(s, op)
    ensures Bounded(p, k, Step(p, s, op), op.now)
  {
    var t := Step(p, s, op);
    if !Locked(p, s.entry, op.now) {
      assert Pending(t) == Pending(s) + {op.w};
      assert forall w :: w in t.pcs ==> !t.pcs[w].Setting?;
      SubsetSize(Pending(t), t.pcs.Keys);
    }
  }

  lemma StoreBounded(p: Policy, k: nat, s: State, op: Op, before: int)
    requires Sensible(p) && Bounded(p, k, s, before) && before <= op.now
    requires op.w in s.pcs && s.pcs[op.w].Setting?
    ensures Bounded(p, k, Step(p, s, op), op.now)
  {
    var t := Step(p, s, op);
    assert Pending(t) == Pending(s);
    SubsetSize(t.pcs.Keys, s.pcs.Keys);
  }

  lemma CountBounded(p: Policy, k: nat, s: State, op: Op, before: int)
    requires Sensible(p) && Bounded(p, k, s, before) && before <= op.now && NoLapse(s, op)
    requires op.w in s.pcs && !s.pcs[op.w].Setting?
    ensures Bounded(p, k, Step(p, s, op), op.now)
  {
    var t := Step(p, s, op);
    SubsetSize(Pending(s), s.pcs.Keys);
    SubsetSize(t.pcs.Keys, s.pcs.Keys);
    if s.pcs[op.w].Passed? && Live(s.entry, op.now).None? {
      assert Pending(t) == Pending(s);
    } else {
      assert Pending(t) == Pending(s) - {op.w};
    }
  }

  lemma StepBounded(p: Policy, k: nat, s: State, op: Op, before: int)
    requires Sensible(p) && Bounded(p, k, s, before) && before <= op.now
    requires NoLapse(s, op) && |Step(p, s, op).pcs| <= k
    ensures Bounded(p, k, Step(p, s, op), op.now)
  {
    if op.w !in s.pcs {
      PassBounded(p, k, s, op, before);
    } else if s.pcs[op.w].Setting? {
      StoreBounded(p, k, s, op, before);
    } else {
      CountBounded(p, k, s, op, before);
    }
  }

  function LastTime(ops: seq<Op>): int {
    if ops == [] then 0 else ops[|ops| - 1].now
  }

  lemma FitsPrefix(p: Policy, k: nat, ops: seq<Op>, n: nat, i: nat)
    requires i < n <= |ops| && Careful(p, k, ops)
    ensures Fits(p, k, ops[..n], i)
  {
    assert Fits(p, k, ops, i);
    assert ops[..n][..i] == ops[..i] && ops[..n][..i + 1] == ops[..i + 1];
  }

  lemma EmptyBounded(p: Policy, k: nat, s: State, now: int)
    requires s == State(None, map[])
    ensures Bounded(p, k, s, now)
  {
    assert Pending(s) == {};
  }

  lemma {:induction false} AlwaysBounded(p: Policy, k: nat, ops: seq<Op>)
    requires Sensible(p) && Careful(p, k, ops)
    ensures Bounded(p, k, Run(p, ops), LastTime(ops))
  {
    if ops == [] {
      EmptyBounded(p, k, Run(p, ops), 0);
    } else {
      var n := |ops| - 1;
      CarefulPrefix(p, k, ops);
      AlwaysBounded(p, k, ops[..n]);
      LastStep(p, k, ops);
    }
  }

  lemma CarefulPrefix(p: Policy, k: nat, ops: seq<Op>)
    requires Careful(p, k, ops) && ops != []
    ensures Careful(p, k, ops[..|ops| - 1])
  {
    var n := |ops| - 1;
    var most := ops[..n];
    forall i | 0 <= i < n ensures Fits(p, k, most, i) {
      FitsPrefix(p, k, ops, n, i);
    }
  }

  lemma LastStep(p: Policy, k: nat, ops: seq<Op>)
    requires Sensible(p) && ops != [] && Fits(p, k, ops, |ops| - 1)
    requires Bounded(p, k, Run(p, ops[..|ops| - 1]), LastTime(ops[..|ops| - 1]))
    ensures Bounded(p, k, Run(p, ops), LastTime(ops))
  {
    var n := |ops| - 1;
    var s := Run(p, ops[..n]);
    assert ops[..n + 1] == ops;
    if n == 0 {
      assert ops[..n] == [];
      EmptyBounded(p, k, s, ops[n].now);
      StepBounded(p, k, s, ops[n], ops[n].now);
    } else {
      StepBounded(p, k, s, ops[n], LastTime(ops[..n]));
    }
  }

  /** With at most k attempts in flight and no lost update, the stored count stays at most
      max_attempts + k - 1. */
  lemma RacingCountBounded(p: Policy, k: nat, ops: seq<Op>, now: int)
    requires Sensible(p) && Careful(p, k, ops) && k >= 1 && now >= LastTime(ops)
    ensures Stored(Run(p, ops).entry, now) <= p.maxAttempts + k - 1
  {
    AlwaysBounded(p, k, ops);
  }

  /* ---- without that hypothesis: the exact condition ---- */

  ghost predicate InFlight(p: Policy, k: nat, ops: seq<Op>, i: nat)
    requires i <= |ops|
  {
    |Run(p, ops[..i]).pcs| <= k
  }

  ghost predicate InTime(ops: seq<Op>) {
    forall i :: 0 < i < |ops| ==> ops[i - 1].now <= ops[i].now
  }

  /** Time does not run backwards and at most k workers are ever in flight; nothing else is asked. */
  ghost predicate AtMost(p: Policy, k: nat, ops: seq<Op>) {
    InTime(ops) && forall i :: 0 <= i <= |ops| ==> InFlight(p, k, ops, i)
  }

  /** No schedule of at most k workers ever gets the stored count past this bound. */
  ghost predicate Holds(p: Policy, k: nat, bound: int) {
    forall ops: seq<Op>, now: int :: AtMost(p, k, ops) && now >= LastTime(ops) ==>
        Stored(Run(p, ops).entry, now) <= bound
  }

  /* -- one at a time -- */

  ghost predicate Serial(p: Policy, s: State, now: int) {
    && |s.pcs| <= 1
    && (s.entry.Some? ==> s.entry.value.count <= p.maxAttempts)
    && (forall w :: w in s.pcs && s.pcs[w].Setting? ==> s.pcs[w].count <= p.maxAttempts)
    && (forall w :: w in s.pcs && !s.pcs[w].Setting? ==> Stored(s.entry, now) < p.maxAttempts)
  }

  lemma OneWorker(pcs: map<nat, Pc>, v: nat, w: nat)
    requires |pcs| <= 1 && v in pcs && w in pcs
    ensures v == w
  {
    if v != w {
      SubsetSize({v, w}, pcs.Keys);
    }
  }

  lemma SerialStep(p: Policy, s: State, op: Op, before: int)
    requires Sensible(p) && Serial(p, s, before) && before <= op.now && |Step(p, s, op).pcs| <= 1
    ensures Serial(p, Step(p, s, op), op.now)
  {
    var t := Step(p, s, op);
    forall w | w in t.pcs
      ensures t.pcs[w].Setting? ==> t.pcs[w].count <= p.maxAttempts
      ensures !t.pcs[w].Setting? ==> Stored(t.entry, op.now) < p.maxAttempts
    {
      if op.w in t.pcs {
        OneWorker(t.pcs, op.w, w);
      } else if op.w in s.pcs {
        OneWorker(s.pcs, op.w, w);
      }
    }
  }

  lemma PrefixAtMost(p: Policy, k: nat, ops: seq<Op>)
    requires ops != [] && AtMost(p, k, ops)
    ensures AtMost(p, k, ops[..|ops| - 1]) && |Run(p, ops).pcs| <= k
    ensures |ops| > 1 ==> LastTime(ops[..|ops| - 1]) <= LastTime(ops)
  {
    var most := ops[..|ops| - 1];
    assert ops[..|ops|] == ops && InFlight(p, k, ops, |ops|);
    forall i | 0 <= i <= |most| ensures InFlight(p, k, most, i) {
      assert most[..i] == ops[..i] && InFlight(p, k, ops, i);
    }
  }

  lemma {:induction false} AlwaysSerial(p: Policy, ops: seq<Op>)
    requires Sensible(p) && AtMost(p, 1, ops)
    ensures Serial(p, Run(p, ops), LastTime(ops))
  {
    if ops != [] {
      var most := ops[..|ops| - 1];
      PrefixAtMost(p, 1, ops);
      AlwaysSerial(p, most);
      if most == [] {
        SerialStep(p, Run(p, most), ops[|ops| - 1], LastTime(ops));
      } else {
        SerialStep(p, Run(p, most), ops[|ops| - 1], LastTime(most));
      }
    }
  }

  /* -- two at a time: one lapse raises the count by one, without end -- */

  /** A schedule that ends at this time with worker w about to store this count, which is in the entry
      already; at most two were ever in flight. */
  ghost predicate Stalled(p: Policy, ops: seq<Op>, w: nat, count: int) {
    && AtMost(p, 2, ops) && ops != []
    && Run(p, ops).pcs == map[w := Setting(count)]
    && Run(p, ops).entry.Some? && Run(p, ops).entry.value.count == count
    && LastTime(ops) < Run(p, ops).entry.value.expires
  }

  lemma Append(p: Policy, k: nat, ops: seq<Op>, op: Op)
    requires AtMost(p, k, ops) && (ops != [] ==> LastTime(ops) <= op.now)
    requires |Step(p, Run(p, ops), op).pcs| <= k
    ensures AtMost(p, k, ops + [op]) && Run(p, ops + [op]) == Step(p, Run(p, ops), op)
    ensures LastTime(ops + [op]) == op.now
  {
    var more := ops + [op];
    assert more[..|ops|] == ops;
    forall i | 0 <= i <= |more| ensures InFlight(p, k, more, i) {
      if i <= |ops| {
        assert more[..i] == ops[..i] && InFlight(p, k, ops, i);
      } else {
        assert more[..i] == more;
      }
    }
  }

  /** The three operations of a lapse, from the stalled worker's state on. */
  lemma LapseSteps(p: Policy, s: State, w: nat, v: nat, count: int)
    requires Sensible(p) && s.pcs == map[w := Setting(count)] && v != w && count >= p.maxAttempts
    requires s.entry.Some? && s.entry.value.count == count
    ensures var late := s.entry.value.expires;
            var wait := late + BackoffSeconds(p, count);
            && wait > late
            && Step(p, s, Op(v, late)) == State(s.entry, map[w := Setting(count), v := Passed])
            && Step(p, State(s.entry, map[w := Setting(count), v := Passed]), Op(w, late)) ==
               State(Some(Entry(count, wait)), map[v := Passed])
            && Step(p, State(Some(Entry(count, wait)), map[v := Passed]), Op(v, late)) ==
               State(Some(Entry(count + 1, wait)), map[v := Setting(count + 1)])
  {
    BackoffBounds(p, count);
    assert map[w := Setting(count), v := Passed] - {w} == map[v := Passed];
  }

  lemma FewInFlight(a: nat, x: Pc, b: nat, y: Pc)
    ensures |map[a := x]| <= 2 && |map[a := x, b := y]| <= 2
  {
    assert map[a := x, b := y].Keys == {a, b};
  }

  /** The entry lapses under the stalled worker; the next one is let in, the stalled one stores its count
      back, and the newcomer counts on top of it. */
  lemma LapseRaises(p: Policy, ops: seq<Op>, w: nat, v: nat, count: int) returns (more: seq<Op>)
    requires Sensible(p) && Stalled(p, ops, w, count) && v != w && count >= p.maxAttempts
    ensures Stalled(p, more, v, count + 1)
  {
    var late := Run(p, ops).entry.value.expires;
    LapseSteps(p, Run(p, ops), w, v, count);
    FewInFlight(w, Setting(count), v, Passed);
    FewInFlight(v, Passed, v, Setting(count + 1));
    Append(p, 2, ops, Op(v, late));
    Append(p, 2, ops + [Op(v, late)], Op(w, late));
    Append(p, 2, ops + [Op(v, late)] + [Op(w, late)], Op(v, late));
    more := ops + [Op(v, late)] + [Op(w, late)] + [Op(v, late)];
    FewInFlight(v, Setting(count + 1), v, Passed);
  }

  function Counting(p: Policy, n: int): map<nat, Pc> {
    if n >= p.maxAttempts then map[1 := Setting(n)] else map[]
  }

  lemma FirstFailure(p: Policy)
    requires Sensible(p)
    ensures Step(p, State(None, map[]), Op(1, 0)) == State(None, map[1 := Passed])
    ensures Step(p, State(None, map[1 := Passed]), Op(1, 0)) == State(None, map[1 := Seeding])
    ensures Step(p, State(None, map[1 := Seeding]), Op(1, 0)) == State(Some(Entry(1, p.window)), Counting(p, 1))
  {}

  lemma NextFailure(p: Policy, n: int)
    requires Sensible(p) && 1 <= n < p.maxAttempts
    ensures var e := Some(Entry(n, p.window));
            && Step(p, State(e, map[]), Op(1, 0)) == State(e, map[1 := Passed])
            && Step(p, State(e, map[1 := Passed]), Op(1, 0)) == State(Some(Entry(n + 1, p.window)), Counting(p, n + 1))
  {}

  lemma AppendTwo(p: Policy, ops: seq<Op>, op: Op, mid: State, end: State)
    requires AtMost(p, 2, ops) && (ops != [] ==> LastTime(ops) <= op.now)
    requires Step(p, Run(p, ops), op) == mid && Step(p, mid, op) == end
    requires |mid.pcs| <= 2 && |end.pcs| <= 2
    ensures var more := ops + [op] + [op];
            AtMost(p, 2, more) && Run(p, more) == end && LastTime(more) == op.now
  {
    Append(p, 2, ops, op);
    Append(p, 2, ops + [op], op);
  }

  lemma SeedingOps(p: Policy) returns (ops: seq<Op>)
    requires Sensible(p)
    ensures AtMost(p, 2, ops) && ops != [] && LastTime(ops) == 0
    ensures Run(p, ops) == State(Some(Entry(1, p.window)), Counting(p, 1))
  {
    assert InFlight(p, 2, [], 0);
    FirstFailure(p);
    Append(p, 2, [], Op(1, 0));
    AppendTwo(p, [] + [Op(1, 0)], Op(1, 0), State(None, map[1 := Seeding]),
        State(Some(Entry(1, p.window)), Counting(p, 1)));
    ops := [] + [Op(1, 0)] + [Op(1, 0)] + [Op(1, 0)];
  }

  /** One attempt after another up to this many failures, all at time 0. */
  lemma {:induction false} Failures(p: Policy, n: nat) returns (ops: seq<Op>)
    requires Sensible(p) && 1 <= n <= p.maxAttempts
    ensures AtMost(p, 2, ops) && ops != [] && LastTime(ops) == 0
    ensures Run(p, ops) == State(Some(Entry(n, p.window)), Counting(p, n))
  {
    if n == 1 {
      ops := SeedingOps(p);
    } else {
      var before := Failures(p, n - 1);
      NextFailure(p, n - 1);
      var e, f := Some(Entry(n - 1, p.window)), Some(Entry(n, p.window));
      AppendTwo(p, before, Op(1, 0), State(e, map[1 := Passed]), State(f, Counting(p, n)));
      ops := before + [Op(1, 0)] + [Op(1, 0)];
    }
  }

  lemma {:induction false} StalledAt(p: Policy, count: int) returns (ops: seq<Op>, w: nat)
    requires Sensible(p) && count >= p.maxAttempts
    ensures Stalled(p, ops, w, count)
    decreases count
  {
    if count == p.maxAttempts {
      ops := Failures(p, count);
      w := 1;
    } else {
      var before, v := StalledAt(p, count - 1);
      w := v + 1;
      ops := LapseRaises(p, before, v, w, count - 1);
    }
  }

  lemma MoreAllowed(p: Policy, k: nat, ops: seq<Op>)
    requires k >= 2 && AtMost(p, 2, ops)
    ensures AtMost(p, k, ops)
  {
    forall i | 0 <= i <= |ops| ensures InFlight(p, k, ops, i) {
      assert InFlight(p, 2, ops, i);
    }
  }

  /** With two or more in flight no bound holds at all, whatever the settings. */
  lemma NoBoundForTwo(p: Policy, k: nat, bound: int)
    requires Sensible(p) && k >= 2
    ensures !Holds(p, k, bound)
  {
    var count := Max(bound + 1, p.maxAttempts);
    var ops, w := StalledAt(p, count);
    MoreAllowed(p, k, ops);
    assert Stored(Run(p, ops).entry, LastTime(ops)) == count;
  }

  /** The stored count stays at most max_attempts + k - 1 under every schedule of at most k workers exactly
      when k is 1; for any larger k it has no bound. */
  lemma CountBoundedIffSerial(p: Policy, k: nat)
    requires Sensible(p) && k >= 1
    ensures Holds(p, k, p.maxAttempts + k - 1) <==> k == 1
    ensures (exists bound :: Holds(p, k, bound)) <==> k == 1
  {
    if k == 1 {
      forall ops: seq<Op>, now: int | AtMost(p, 1, ops) && now >= LastTime(ops)
        ensures Stored(Run(p, ops).entry, now) <= p.maxAttempts
      {
        AlwaysSerial(p, ops);
      }
      assert Holds(p, 1, p.maxAttempts);
    } else {
      forall bound: int ensures !Holds(p, k, bound) {
        NoBoundForTwo(p, k, bound);
      }
    }
  }

  /** The cache operations one by one: a check lets a worker in or not; an increment counts up a live entry and
      finds a lapsed one missing; a seed replaces whatever is there by then; and a full count is stored back with
      the wait it was computed for, over whatever is there. */
  lemma OperationsSay(p: Policy, s: State, op: Op)
    ensures var t := Step(p, s, op);
            var live := s.entry.Some? && op.now < s.entry.value.expires;
            var n := if s.entry.Some? then s.entry.value.count + 1 else 0;
            && (op.w !in s.pcs ==>
                  && t.entry == s.entry
                  && t.pcs == if live && s.entry.value.count >= p.maxAttempts then s.pcs
                              else if !live && p.maxAttempts <= 0 then s.pcs else s.pcs[op.w := Passed])
            && (op.w in s.pcs && s.pcs[op.w] == Passed && !live ==>
                  t.entry == s.entry && t.pcs == s.pcs[op.w := Seeding])
            && (op.w in s.pcs && s.pcs[op.w] == Passed && live ==>
                  && t.entry == Some(Entry(n, s.entry.value.expires))
                  && t.pcs == if n >= p.maxAttempts then s.pcs[op.w := Setting(n)] else s.pcs - {op.w})
            && (op.w in s.pcs && s.pcs[op.w] == Seeding ==>
                  && t.entry == Some(Entry(1, op.now + p.window))
                  && t.pcs == if 1 >= p.maxAttempts then s.pcs[op.w := Setting(1)] else s.pcs - {op.w})
            && (op.w in s.pcs && s.pcs[op.w].Setting? ==>
                  && t.pcs == s.pcs - {op.w}
                  && t.entry == Some(Entry(s.pcs[op.w].count, op.now + BackoffSeconds(p, s.pcs[op.w].count))))
  {}

  /** One worker left alone with an attempt that fails: it checks, counts or seeds, and stores its count back
      when that is full, which together is what one failure does to the counter. */
  lemma SoloRegisters(p: Policy, e: Option<Entry>, w: nat, now: int)
    requires Sensible(p) && !Locked(p, e, now)
    ensures var op := Op(w, now);
            var s1 := Step(p, State(e, map[]), op);
            var s2 := Step(p, s1, op);
            var s3 := if s2.pcs == map[] then s2 else Step(p, s2, op);
            var s4 := if s3.pcs == map[] then s3 else Step(p, s3, op);
            s4 == State(Some(Register(p, e, now)), map[])
  {
    var op := Op(w, now);
    var s1 := Step(p, State(e, map[]), op);
    assert s1.pcs == map[w := Passed];
    var s2 := Step(p, s1, op);
    if Live(e, now).None? {
      assert s2.pcs == map[w := Seeding];
      var s3 := Step(p, s2, op);
      if p.maxAttempts <= 1 {
        assert s3.pcs == map[w := Setting(1)];
      } else {
        assert s3.pcs == map[];
      }
    } else if e.value.count + 1 >= p.maxAttempts {
      assert s2.pcs == map[w := Setting(e.value.count + 1)];
      assert Step(p, s2, op).pcs == map[];
    } else {
      assert s2.pcs == map[];
    }
  }
}
