/** Login lockout on an expiring cache counter (platform/auth/services.py): attempts handled one after
    another. */
module Lockout {
  import opened Wrappers

  /** The settings AUTH_LOCKOUT_*. The order of base and cap and a factor of at least one are what the
      settings file describes: a wait that starts at the base, grows, and is cut off at the cap. */
  datatype Policy = Policy(maxAttempts: int, window: int, base: int, factor: real, cap: int)

  predicate Sensible(p: Policy) {
    p.maxAttempts >= 1 && p.window >= 1 && 1 <= p.base <= p.cap && p.factor >= 1.0
  }

  function Pow(x: real, n: nat): real {
    if n == 0 then 1.0 else x * Pow(x, n - 1)
  }

  lemma {:induction false} PowGrows(x: real, n: nat)
    requires x >= 1.0
    ensures Pow(x, n) >= 1.0
  {
    if n > 0 {
      PowGrows(x, n - 1);
      assert x * Pow(x, n - 1) >= 1.0 * Pow(x, n - 1);
    }
  }

  /** The base scaled by a power of the factor, cut off at the cap and truncated to whole seconds. */
  function Wait(base: int, power: real, cap: int): int {
    var duration := base as real * power;
    (if duration < cap as real then duration else cap as real).Floor
  }

  function Overflow(p: Policy, failures: int): nat {
    Max(0, failures - p.maxAttempts)
  }

  function BackoffSeconds(p: Policy, failures: int): int {
    Wait(p.base, Pow(p.factor, Overflow(p, failures)), p.cap)
  }

  lemma WaitGrows(base: int, x: real, y: real, cap: int)
    requires 1 <= base <= cap && 1.0 <= x <= y
    ensures base <= Wait(base, x, cap) <= Wait(base, y, cap) <= cap
  {
    assert base as real * 1.0 <= base as real * x <= base as real * y;
  }

  /** Every lock lasts at least the base and at most the cap, the first one exactly the base, and one
      more failure never shortens the wait. */
  lemma BackoffBounds(p: Policy, failures: int)
    requires Sensible(p)
    ensures p.base <= BackoffSeconds(p, failures) <= BackoffSeconds(p, failures + 1) <= p.cap
    ensures failures <= p.maxAttempts ==> BackoffSeconds(p, failures) == p.base
  {
    var n := Overflow(p, failures);
    PowGrows(p.factor, n);
    assert Pow(p.factor, n + 1) == p.factor * Pow(p.factor, n) >= 1.0 * Pow(p.factor, n);
    WaitGrows(p.base, Pow(p.factor, n), Pow(p.factor, Overflow(p, failures + 1)), p.cap);
  }

  /* ---- the counter ---- */

  datatype Entry = Entry(count: int, expires: int)

  /** What a cache lookup at this time sees. */
  function Live(e: Option<Entry>, now: int): Option<Entry> {
    if e.Some? && now < e.value.expires then e else None
  }

  function Stored(e: Option<Entry>, now: int): int {
    if Live(e, now).Some? then e.value.count else 0
  }

  predicate Locked(p: Policy, e: Option<Entry>, now: int) {
    Stored(e, now) >= p.maxAttempts
  }

  function Register(p: Policy, e: Option<Entry>, now: int): Entry {
    var bumped := if Live(e, now).Some? then e.value.(count := e.value.count + 1) else Entry(1, now + p.window);
    if bumped.count >= p.maxAttempts then Entry(bumped.count, now + BackoffSeconds(p, bumped.count)) else bumped
  }

  datatype Verdict = RateLimited | BadCredentials | Disabled | LoggedIn

  /** What authentication says about one attempt. */
  datatype Credentials = Wrong | RightButDisabled | Right

  function Attempt(p: Policy, e: Option<Entry>, now: int, c: Credentials): (Option<Entry>, Verdict) {
    if Locked(p, e, now) then (e, RateLimited)
    else match c
      case Wrong => (Some(Register(p, e, now)), BadCredentials)
      case RightButDisabled => (e, Disabled)
      case Right => (None, LoggedIn)
  }

  /* ---- the same, said on numbers ---- */

  /** Powers multiply: the zeroth is one, the first the number itself, and exponents add up. */
  lemma {:induction false} PowAdds(x: real, m: nat, n: nat)
    ensures Pow(x, 0) == 1.0 && Pow(x, 1) == x
    ensures Pow(x, m + n) == Pow(x, m) * Pow(x, n)
  {
    assert Pow(x, 1) == x * Pow(x, 0);
    if m > 0 {
      PowAdds(x, m - 1, n);
      Associates(x, Pow(x, m - 1), Pow(x, n));
    }
  }

  lemma Associates(x: real, y: real, z: real)
    ensures x * (y * z) == x * y * z
  {}

  /** The wait after this many failures is the base times the factor to the number of failures beyond the limit,
      in whole seconds, or the cap where that is no more. */
  lemma BackoffSays(p: Policy, failures: int, beyond: nat)
    requires Sensible(p)
    requires if failures <= p.maxAttempts then beyond == 0 else beyond == failures - p.maxAttempts
    ensures var exact := p.base as real * Pow(p.factor, beyond);
            var wait := BackoffSeconds(p, failures);
            if exact >= p.cap as real then wait == p.cap else wait as real <= exact < wait as real + 1.0
  {}

  /** A failure on a key with no live entry starts a count of one, for the window, or for the base wait if one
      is already too many; on a live entry it counts one more and keeps its expiry until the count reaches the
      limit, from which on every failure sets the expiry by its wait. */
  lemma RegisterSays(p: Policy, e: Option<Entry>, now: int)
    requires Sensible(p)
    ensures var r := Register(p, e, now);
            if e.Some? && now < e.value.expires then
              && r.count == e.value.count + 1
              && r.expires == if r.count >= p.maxAttempts then now + BackoffSeconds(p, r.count) else e.value.expires
            else
              r.count == 1 && r.expires == now + if p.maxAttempts == 1 then p.base else p.window
  {
    BackoffBounds(p, 1);
  }

  /** A login attempt on a locked key is refused whatever the credentials, and changes nothing; otherwise a wrong
      password counts, a disabled account does not, and a login clears the counter. */
  lemma AttemptSays(p: Policy, e: Option<Entry>, now: int, c: Credentials)
    requires Sensible(p)
    ensures var locked := e.Some? && now < e.value.expires && e.value.count >= p.maxAttempts;
            && (locked <==> Attempt(p, e, now, c).1 == RateLimited)
            && (locked ==> Attempt(p, e, now, c).0 == e)
            && (!locked && c == Wrong ==> Attempt(p, e, now, c) == (Some(Register(p, e, now)), BadCredentials))
            && (!locked && c == RightButDisabled ==> Attempt(p, e, now, c) == (e, Disabled))
            && (!locked && c == Right ==> Attempt(p, e, now, c) == (None, LoggedIn))
  {}

  class AuthService {
    const policy: Policy
    var entry: Option<Entry>

    constructor (policy: Policy)
      ensures this.policy == policy && entry == None
    {
      this.policy := policy;
      entry := None;
    }

    method RegisterFailure(now: int)
      modifies this
      ensures entry == Some(Register(policy, old(entry), now))
    {
      var count := 1;
      if Live(entry, now).Some? {
        count := entry.value.count + 1;
        entry := Some(entry.value.(count := count));
      } else {
        entry := Some(Entry(1, now + policy.window));
      }
      if count >= policy.maxAttempts {
        entry := Some(Entry(count, now + BackoffSeconds(policy, count)));
      }
    }

    method Login(now: int, credentials: Credentials) returns (verdict: Verdict)
      modifies this
      ensures (entry, verdict) == Attempt(policy, old(entry), now, credentials)
    {
      if Locked(policy, entry, now) {
        return RateLimited;
      }
      match credentials
      case Wrong =>
        RegisterFailure(now);
        return BadCredentials;
      case RightButDisabled => return Disabled;
      case Right =>
        entry := None;
        return LoggedIn;
    }
  }

  /* ---- whole histories ---- */

  /** A recorded failure: when, in which run of the counter, and as which failure of that run. */
  datatype Failure = Failure(at: int, gen: nat, nth: int)

  /** The counter, the start times of its runs so far, and the recorded failures. */
  datatype Account = Account(entry: Option<Entry>, starts: seq<int>, log: seq<Failure>, clock: int)

  datatype Try = Try(at: int, credentials: Credentials)

  function Note(p: Policy, a: Account, t: Try): Account {
    var (entry, verdict) := Attempt(p, a.entry, t.at, t.credentials);
    if verdict.BadCredentials? then
      var isNew := Live(a.entry, t.at).None?;
      var starts := if isNew then a.starts + [t.at] else a.starts;
      Account(entry, starts, a.log + [Failure(t.at, if |starts| == 0 then 0 else |starts| - 1, entry.value.count)],
          t.at)
    else a.(entry := entry, clock := t.at)
  }

  function After(p: Policy, start: int, tries: seq<Try>): Account {
    if tries == [] then Account(None, [], [], start)
    else Note(p, After(p, start, tries[..|tries| - 1]), tries[|tries| - 1])
  }

  ghost predicate InTimeOrder(start: int, tries: seq<Try>) {
    && (forall i :: 0 <= i < |tries| ==> start <= tries[i].at)
    && (forall i, j :: 0 <= i < j < |tries| ==> tries[i].at <= tries[j].at)
  }

  ghost predicate NoLogin(tries: seq<Try>) {
    forall i :: 0 <= i < |tries| ==> !tries[i].credentials.Right?
  }

  function Spacing(p: Policy): int {
    Min(p.window, p.base)
  }

  function Rank(p: Policy, f: Failure): int {
    f.gen * p.maxAttempts + f.nth
  }

  ghost predicate Kept(p: Policy, a: Account) {
    && (forall k :: 0 < k < |a.starts| ==> a.starts[k - 1] + Spacing(p) <= a.starts[k])
    && (a.entry.Some? ==> a.starts != [] && a.starts[|a.starts| - 1] + Spacing(p) <= a.entry.value.expires &&
                          1 <= a.entry.value.count <= p.maxAttempts)
    && (a.starts != [] ==> a.entry.Some? && a.log != [] && a.starts[|a.starts| - 1] <= a.clock &&
                           a.log[|a.log| - 1].gen == |a.starts| - 1 && a.log[|a.log| - 1].nth == a.entry.value.count)
    && (forall i :: 0 <= i < |a.log| ==> FailureFits(p, a, a.log[i]))
    && (forall i :: 0 < i < |a.log| ==> Rank(p, a.log[i - 1]) < Rank(p, a.log[i]))
  }

  ghost predicate FailureFits(p: Policy, a: Account, f: Failure) {
    && f.gen < |a.starts| && 1 <= f.nth <= p.maxAttempts
    && a.starts[f.gen] <= f.at <= a.clock
    && (f.gen + 1 < |a.starts| ==> f.at <= a.starts[f.gen + 1])
  }

  lemma RankStep(p: Policy, f: Failure, g: Failure)
    requires f.nth <= p.maxAttempts
    requires (g.gen == f.gen && g.nth > f.nth) || (g.gen == f.gen + 1 && g.nth >= 1)
    ensures Rank(p, f) < Rank(p, g)
  {
    assert (f.gen + 1) * p.maxAttempts == f.gen * p.maxAttempts + p.maxAttempts;
  }

  /** A failure counts one up; a fresh counter lives at least the spacing, and so does a locked one. */
  lemma RegisterShape(p: Policy, e: Option<Entry>, now: int)
    requires Sensible(p)
    ensures var r := Register(p, e, now);
            && r.count == Stored(e, now) + 1
            && (r.expires >= now + Spacing(p) || (Live(e, now).Some? && r.expires == e.value.expires))
            && (r.count >= p.maxAttempts ==> now + p.base <= r.expires <= now + p.cap)
  {
    BackoffBounds(p, Stored(e, now) + 1);
  }

  function Extend(a: Account, entry: Entry, at: int, isNew: bool): Account {
    var starts := if isNew then a.starts + [at] else a.starts;
    Account(Some(entry), starts, a.log + [Failure(at, if |starts| == 0 then 0 else |starts| - 1, entry.count)], at)
  }

  lemma ExtendKeeps(p: Policy, a: Account, entry: Entry, at: int, isNew: bool)
    requires Sensible(p) && Kept(p, a) && a.clock <= at
    requires isNew ==> entry.count == 1 && entry.expires >= at + Spacing(p)
    requires isNew && a.entry.Some? ==> a.entry.value.expires <= at
    requires !isNew ==> a.entry.Some? && entry.count == a.entry.value.count + 1 <= p.maxAttempts
    requires !isNew ==> entry.expires >= at + Spacing(p) || entry.expires == a.entry.value.expires
    ensures Kept(p, Extend(a, entry, at, isNew))
  {
    ExtendFits(p, a, entry, at, isNew);
    ExtendRanks(p, a, entry, at, isNew);
  }

  lemma ExtendFits(p: Policy, a: Account, entry: Entry, at: int, isNew: bool)
    requires Kept(p, a) && a.clock <= at && (isNew || a.entry.Some?) && 1 <= entry.count <= p.maxAttempts
    ensures var b := Extend(a, entry, at, isNew);
            forall i :: 0 <= i < |b.log| ==> FailureFits(p, b, b.log[i])
  {
    var b := Extend(a, entry, at, isNew);
    forall i | 0 <= i < |b.log| ensures FailureFits(p, b, b.log[i]) {
      assert i < |a.log| ==> FailureFits(p, a, a.log[i]);
    }
  }

  lemma ExtendRanks(p: Policy, a: Account, entry: Entry, at: int, isNew: bool)
    requires Kept(p, a) && (isNew || a.entry.Some?)
    requires if isNew then entry.count >= 1 else entry.count == a.entry.value.count + 1
    ensures var b := Extend(a, entry, at, isNew);
            forall i :: 0 < i < |b.log| ==> Rank(p, b.log[i - 1]) < Rank(p, b.log[i])
  {
    var b := Extend(a, entry, at, isNew);
    forall i | 0 < i < |b.log| ensures Rank(p, b.log[i - 1]) < Rank(p, b.log[i]) {
      if i == |a.log| {
        assert FailureFits(p, a, a.log[i - 1]);
        RankStep(p, a.log[i - 1], b.log[i]);
      } else {
        assert Rank(p, a.log[i - 1]) < Rank(p, a.log[i]);
      }
    }
  }

  lemma FailureKeeps(p: Policy, a: Account, t: Try)
    requires Sensible(p) && Kept(p, a) && a.clock <= t.at
    requires t.credentials.Wrong? && !Locked(p, a.entry, t.at)
    ensures Kept(p, Note(p, a, t))
  {
    RegisterShape(p, a.entry, t.at);
    var entry, isNew := Register(p, a.entry, t.at), Live(a.entry, t.at).None?;
    ExtendKeeps(p, a, entry, t.at, isNew);
    assert Note(p, a, t) == Extend(a, entry, t.at, isNew);
  }

  lemma NoteKeeps(p: Policy, a: Account, t: Try)
    requires Sensible(p) && Kept(p, a) && a.clock <= t.at && !t.credentials.Right?
    ensures Kept(p, Note(p, a, t))
  {
    if !Locked(p, a.entry, t.at) && t.credentials.Wrong? {
      FailureKeeps(p, a, t);
    } else {
      var b := Note(p, a, t);
      forall i | 0 <= i < |b.log| ensures FailureFits(p, b, b.log[i]) {
        assert FailureFits(p, a, a.log[i]);
      }
    }
  }

  lemma {:induction false} AlwaysKept(p: Policy, start: int, tries: seq<Try>)
    requires Sensible(p) && InTimeOrder(start, tries) && NoLogin(tries)
    ensures Kept(p, After(p, start, tries))
    ensures After(p, start, tries).clock == if tries == [] then start else tries[|tries| - 1].at
  {
    if tries != [] {
      var most := tries[..|tries| - 1];
      AlwaysKept(p, start, most);
      NoteKeeps(p, After(p, start, most), tries[|tries| - 1]);
    }
  }

  lemma {:induction false} RanksApart(p: Policy, a: Account, i: nat, j: nat)
    requires Kept(p, a) && i <= j < |a.log|
    ensures j - i <= Rank(p, a.log[j]) - Rank(p, a.log[i])
    decreases j - i
  {
    if i < j {
      RanksApart(p, a, i, j - 1);
      assert Rank(p, a.log[j - 1]) < Rank(p, a.log[j]);
    }
  }

  lemma {:induction false} StartsApart(p: Policy, a: Account, i: nat, j: nat)
    requires Kept(p, a) && i <= j < |a.starts|
    ensures a.starts[i] + (j - i) * Spacing(p) <= a.starts[j]
    decreases j - i
  {
    if i < j {
      StartsApart(p, a, i, j - 1);
      assert a.starts[j - 1] + Spacing(p) <= a.starts[j];
      assert (j - i) * Spacing(p) == (j - 1 - i) * Spacing(p) + Spacing(p);
    }
  }

  lemma QuotientBound(d: int, m: int, length: int)
    requires m >= 1 && length >= 0 && d * m <= length
    ensures d <= length / m
  {
    var q := length / m;
    assert length < (q + 1) * m;
    if d > q {
      Times(q + 1, d, m);
    }
  }

  lemma Times(a: int, b: int, c: int)
    requires a <= b && c >= 0
    ensures a * c <= b * c
  {}

  /** The counter's runs that fall into an interval of this length are at most its length over the
      spacing, plus two. */
  lemma GensApart(p: Policy, a: Account, i: nat, j: nat, length: int)
    requires Sensible(p) && Kept(p, a) && i <= j < |a.log| && a.log[j].at - a.log[i].at <= length && length >= 0
    ensures a.log[j].gen - a.log[i].gen <= length / Spacing(p) + 1
  {
    var g, h := a.log[i].gen, a.log[j].gen;
    assert FailureFits(p, a, a.log[i]) && FailureFits(p, a, a.log[j]);
    if h > g + 1 {
      StartsApart(p, a, g + 1, h);
      QuotientBound(h - (g + 1), Spacing(p), length);
    } else {
      QuotientBound(0, Spacing(p), length);
    }
  }

  lemma RankGap(p: Policy, f: Failure, g: Failure, gens: int)
    requires p.maxAttempts >= 1 && g.gen - f.gen <= gens && 1 <= f.nth && g.nth <= p.maxAttempts
    ensures Rank(p, g) - Rank(p, f) + 1 <= p.maxAttempts * (gens + 1)
  {
    Times(g.gen - f.gen, gens, p.maxAttempts);
    assert (g.gen - f.gen) * p.maxAttempts == g.gen * p.maxAttempts - f.gen * p.maxAttempts;
    assert p.maxAttempts * (gens + 1) == gens * p.maxAttempts + p.maxAttempts;
  }

  /** With attempts handled one at a time and no successful login, any interval of length L holds at most
      max_attempts x (floor(L / min(window, base)) + 2) recorded failures, and the stored count never
      exceeds max_attempts. Failures i to j are those of the interval from the i-th to the j-th. A login
      deletes the counter, so every stretch between two successful logins is such a history. */
  lemma FailuresBounded(p: Policy, start: int, tries: seq<Try>, i: nat, j: nat, length: int)
    requires Sensible(p) && InTimeOrder(start, tries) && NoLogin(tries)
    requires i <= j < |After(p, start, tries).log| && length >= 0
    requires After(p, start, tries).log[j].at - After(p, start, tries).log[i].at <= length
    ensures j - i + 1 <= p.maxAttempts * (length / Spacing(p) + 2)
    ensures Stored(After(p, start, tries).entry, After(p, start, tries).clock) <= p.maxAttempts
  {
    var a := After(p, start, tries);
    AlwaysKept(p, start, tries);
    RanksApart(p, a, i, j);
    GensApart(p, a, i, j, length);
    assert FailureFits(p, a, a.log[i]) && FailureFits(p, a, a.log[j]);
    RankGap(p, a.log[i], a.log[j], length / Spacing(p) + 1);
  }

  /** Attempt i was answered with bad credentials. */
  predicate Refused(p: Policy, start: int, tries: seq<Try>, i: nat)
    requires i < |tries|
  {
    Attempt(p, After(p, start, tries[..i]).entry, tries[i].at, tries[i].credentials).1.BadCredentials?
  }

  /** The log that bound speaks of holds every recorded failure: one entry per attempt answered with bad
      credentials, at its time. */
  lemma {:induction false} LogIsFailures(p: Policy, start: int, tries: seq<Try>)
    ensures var a := After(p, start, tries);
            forall i :: 0 <= i < |tries| && Refused(p, start, tries, i) ==>
              |After(p, start, tries[..i]).log| < |a.log| && a.log[|After(p, start, tries[..i]).log|].at == tries[i].at
    ensures |tries| > 0 ==> After(p, start, tries[..|tries| - 1]).log <= After(p, start, tries).log
  {
    if tries != [] {
      var most := tries[..|tries| - 1];
      LogIsFailures(p, start, most);
      forall i | 0 <= i < |tries| && Refused(p, start, tries, i)
        ensures |After(p, start, tries[..i]).log| < |After(p, start, tries).log|
        ensures After(p, start, tries).log[|After(p, start, tries[..i]).log|].at == tries[i].at
      {
        if i < |most| {
          assert most[..i] == tries[..i];
        } else {
          assert tries[..i] == most;
        }
      }
    }
  }
}
