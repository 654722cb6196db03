/** The one-pass face match of platform/auth/services.py: best score, best score of anyone else, and the
    decision made from the two. Similarity scores are given reals between -1 and 1. */
module FaceMatch {
  import opened Wrappers

  datatype Credential = Credential(user: int, score: real)

  predicate Cosines(cs: seq<Credential>) {
    forall i :: 0 <= i < |cs| ==> -1.0 <= cs[i].score <= 1.0
  }

  /** The highest score among credentials of other users, -1 when there is none. */
  ghost predicate RunnerUp(cs: seq<Credential>, user: int, r: real) {
    && r >= -1.0
    && (forall i :: 0 <= i < |cs| && cs[i].user != user ==> cs[i].score <= r)
    && (r == -1.0 || exists i :: 0 <= i < |cs| && cs[i].user != user && cs[i].score == r)
  }

  /** The earliest credential with the overall best score, and the runner-up to its user. */
  ghost predicate Tracked(cs: seq<Credential>, best: nat, r: real) {
    && best < |cs|
    && (forall i :: 0 <= i < |cs| ==> cs[i].score <= cs[best].score)
    && (forall i :: 0 <= i < best ==> cs[i].score < cs[best].score)
    && RunnerUp(cs, cs[best].user, r)
  }

  function Decide(best: Credential, r: real, threshold: real, margin: real): Option<int> {
    if best.score >= threshold && (r < 0.0 || best.score - r >= margin) then Some(best.user) else None
  }

  lemma TrackedGrows(cs: seq<Credential>, n: nat, best: nat, r: real)
    requires Cosines(cs) && n < |cs| && Tracked(cs[..n], best, r)
    ensures cs[n].score > cs[best].score && cs[n].user != cs[best].user ==> Tracked(cs[..n + 1], n, cs[best].score)
    ensures cs[n].score > cs[best].score && cs[n].user == cs[best].user ==> Tracked(cs[..n + 1], n, r)
    ensures cs[n].score <= cs[best].score && cs[n].user != cs[best].user && cs[n].score > r ==>
              Tracked(cs[..n + 1], best, cs[n].score)
    ensures cs[n].score <= cs[best].score && (cs[n].user == cs[best].user || cs[n].score <= r) ==>
              Tracked(cs[..n + 1], best, r)
  {
    var few, more := cs[..n], cs[..n + 1];
    assert more == few + [cs[n]];
    assert more[best] == few[best] && more[n] == cs[n];
    assert r == -1.0 || exists i :: 0 <= i < |more| && more[i].user != cs[best].user && more[i].score == r by {
      if r != -1.0 {
        var i :| 0 <= i < |few| && few[i].user != cs[best].user && few[i].score == r;
        assert more[i] == few[i];
      }
    }
  }

  /** The loop finds the earliest overall best and the best of everyone else, and decides from them. */
  method Identify(cs: seq<Credential>, threshold: real, margin: real)
    returns (best: Option<nat>, runnerUp: real, matched: Option<int>)
    requires Cosines(cs)
    ensures best.None? <==> cs == []
    ensures best.Some? ==> Tracked(cs, best.value, runnerUp)
    ensures matched == if best.Some? then Decide(cs[best.value], runnerUp, threshold, margin) else None
  {
    var bestScore := -1.0;
    runnerUp, best := -1.0, None;
    for n := 0 to |cs|
      invariant best.None? <==> n == 0
      invariant best.None? ==> runnerUp == -1.0
      invariant best.Some? ==> Tracked(cs[..n], best.value, runnerUp) && bestScore == cs[best.value].score
    {
      if best.Some? {
        TrackedGrows(cs, n, best.value, runnerUp);
      }
      if best.None? || cs[n].score > bestScore {
        if best.Some? && cs[best.value].user != cs[n].user {
          runnerUp := bestScore;
        }
        bestScore, best := cs[n].score, Some(n);
      } else if cs[n].user != cs[best.value].user && cs[n].score > runnerUp {
        runnerUp := cs[n].score;
      }
    }
    assert cs[..|cs|] == cs;
    matched := if best.Some? && bestScore >= threshold && (runnerUp < 0.0 || bestScore - runnerUp >= margin)
      then Some(cs[best.value].user) else None;
  }

  /* ---- the decision without the order ---- */

  /** One of the user's own scores clears the threshold and beats every other user's non-negative score
      by the margin. Nothing here depends on the order of the credentials. */
  ghost predicate StandsOut(cs: seq<Credential>, user: int, threshold: real, margin: real) {
    exists c :: c in cs && c.user == user && Clear(cs, c, threshold, margin)
  }

  ghost predicate Clear(cs: seq<Credential>, c: Credential, threshold: real, margin: real) {
    && c.score >= threshold
    && (forall d :: d in cs && d.user != c.user ==> d.score < 0.0 || c.score - d.score >= margin)
  }

  /** The decision from best and runner-up accepts a user exactly when that user stands out. */
  lemma AcceptedStandsOut(cs: seq<Credential>, best: nat, r: real, threshold: real, margin: real, user: int)
    requires Tracked(cs, best, r) && threshold >= 0.0 && margin > 0.0
    ensures Decide(cs[best], r, threshold, margin) == Some(user) <==> StandsOut(cs, user, threshold, margin)
  {
    var b := cs[best];
    if Decide(b, r, threshold, margin) == Some(user) {
      forall d | d in cs && d.user != b.user ensures d.score < 0.0 || b.score - d.score >= margin {
        var i :| 0 <= i < |cs| && cs[i] == d;
      }
      assert Clear(cs, b, threshold, margin);
    }
    if StandsOut(cs, user, threshold, margin) {
      var c :| c in cs && c.user == user && Clear(cs, c, threshold, margin);
      var k :| 0 <= k < |cs| && cs[k] == c;
      assert b in cs && b.user == user;
      if r >= 0.0 {
        var i :| 0 <= i < |cs| && cs[i].user != b.user && cs[i].score == r;
        assert cs[i] in cs;
      }
    }
  }

  /** Whatever the settings: the user of the earliest best score is accepted exactly when that score clears the
      threshold and beats every other user's non-negative score by the margin; nobody else ever is. */
  lemma AcceptedIsBest(cs: seq<Credential>, best: nat, r: real, threshold: real, margin: real, user: int)
    requires Tracked(cs, best, r)
    ensures Decide(cs[best], r, threshold, margin) == Some(user) <==>
            user == cs[best].user && Clear(cs, cs[best], threshold, margin)
  {
    var b := cs[best];
    if r < 0.0 || b.score - r >= margin {
      forall d | d in cs && d.user != b.user ensures d.score < 0.0 || b.score - d.score >= margin {
        var i :| 0 <= i < |cs| && cs[i] == d;
      }
    } else {
      var i :| 0 <= i < |cs| && cs[i].user != b.user && cs[i].score == r;
      assert cs[i] in cs;
    }
  }

  /** Enumeration order never matters: for every list of credentials and every reordering of it, both
      passes accept the same user or both reject. */
  ghost predicate OrderFree(threshold: real, margin: real) {
    forall cs: seq<Credential>, ds: seq<Credential>, b: nat, c: nat, r: real, q: real
      {:trigger Tracked(cs, b, r), Tracked(ds, c, q)} ::
      Cosines(cs) && multiset(cs) == multiset(ds) && Tracked(cs, b, r) && Tracked(ds, c, q) ==>
        Decide(cs[b], r, threshold, margin) == Decide(ds[c], q, threshold, margin)
  }

  lemma SameVerdict(cs: seq<Credential>, ds: seq<Credential>, b: nat, c: nat, r: real, q: real,
                    threshold: real, margin: real)
    requires multiset(cs) == multiset(ds) && Tracked(cs, b, r) && Tracked(ds, c, q)
    requires threshold >= 0.0 && margin > 0.0
    ensures Decide(cs[b], r, threshold, margin) == Decide(ds[c], q, threshold, margin)
  {
    AcceptedStandsOut(cs, b, r, threshold, margin, cs[b].user);
    AcceptedStandsOut(ds, c, q, threshold, margin, cs[b].user);
    AcceptedStandsOut(cs, b, r, threshold, margin, ds[c].user);
    AcceptedStandsOut(ds, c, q, threshold, margin, ds[c].user);
    forall x: Credential
      ensures x in cs <==> x in ds
    {
      assert x in cs <==> x in multiset(cs);
      assert x in ds <==> x in multiset(ds);
    }
    SameStanding(cs, ds, cs[b].user, threshold, margin);
    SameStanding(cs, ds, ds[c].user, threshold, margin);
  }

  lemma SameStanding(cs: seq<Credential>, ds: seq<Credential>, user: int, threshold: real, margin: real)
    requires forall x :: x in cs <==> x in ds
    ensures StandsOut(cs, user, threshold, margin) <==> StandsOut(ds, user, threshold, margin)
  {
    assert forall c :: Clear(cs, c, threshold, margin) <==> Clear(ds, c, threshold, margin);
  }

  /** Two users tied at a score that is accepted are told apart by order alone. */
  lemma TieBreaksOrder(s: real, threshold: real, margin: real)
    requires -1.0 <= s <= 1.0 && s >= threshold && (s < 0.0 || margin <= 0.0)
    ensures !OrderFree(threshold, margin)
  {
    var x, y := Credential(1, s), Credential(2, s);
    var cs, ds := [x, y], [y, x];
    assert multiset(cs) == multiset(ds);
    assert cs[1].user != cs[0].user && cs[1].score == s && Tracked(cs, 0, s);
    assert ds[1].user != ds[0].user && ds[1].score == s && Tracked(ds, 0, s);
  }

  /** The order of enumeration never matters exactly when the margin is positive and the threshold not
      negative, or the threshold is out of reach. */
  lemma OrderFreeIff(threshold: real, margin: real)
    ensures OrderFree(threshold, margin) <==> (threshold >= 0.0 && margin > 0.0) || threshold > 1.0
  {
    if threshold > 1.0 {
      forall cs: seq<Credential>, ds: seq<Credential>, b: nat, c: nat, r: real, q: real
        | Cosines(cs) && multiset(cs) == multiset(ds) && Tracked(cs, b, r) && Tracked(ds, c, q)
        ensures Decide(cs[b], r, threshold, margin) == Decide(ds[c], q, threshold, margin)
      {
        assert ds[c] in multiset(ds);
        assert ds[c] in cs;
      }
    } else if threshold >= 0.0 && margin > 0.0 {
      forall cs: seq<Credential>, ds: seq<Credential>, b: nat, c: nat, r: real, q: real
        | Cosines(cs) && multiset(cs) == multiset(ds) && Tracked(cs, b, r) && Tracked(ds, c, q)
        ensures Decide(cs[b], r, threshold, margin) == Decide(ds[c], q, threshold, margin)
      {
        SameVerdict(cs, ds, b, c, r, q, threshold, margin);
      }
    } else if margin <= 0.0 {
      TieBreaksOrder(1.0, threshold, margin);
    } else {
      TieBreaksOrder(if threshold < -1.0 then -1.0 else threshold, threshold, margin);
    }
  }
}
