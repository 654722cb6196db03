/** The response cache of the AI gateway over whole histories: whose texts it answers with, and how long. */
module AiCache {
  import opened Wrappers
  import opened AiGateway

  /** Every cached text was given by a provider to a request of the same digest. */
  ghost predicate Honest(cfg: Settings, s: State) {
    forall key :: key in s.cache ==> exists h :: h in s.heard && KeyOf(cfg, h.id) == key && h.text == s.cache[key].text
  }

  lemma RoundHonest(cfg: Settings, w: World, s: State, tenant: nat, ask: Ask, model: string)
    requires Honest(cfg, s)
    ensures Honest(cfg, Round(cfg, w, s, tenant, ask, model).0)
  {
    var t := Round(cfg, w, s, tenant, ask, model).0;
    assert t.heard == s.heard || t.heard == s.heard + [Heard(IdOf(ask, model), t.heard[|s.heard|].text)];
    forall key | key in t.cache
      ensures exists h :: h in t.heard && KeyOf(cfg, h.id) == key && h.text == t.cache[key].text
    {
      if key in s.cache && t.cache[key] == s.cache[key] {
        var h :| h in s.heard && KeyOf(cfg, h.id) == key && h.text == s.cache[key].text;
        assert h in t.heard;
      } else {
        assert t.heard[|s.heard|] in t.heard;
      }
    }
  }

  lemma {:induction false} GenerateHonest(cfg: Settings, w: World, s: State, ask: Ask)
    requires Honest(cfg, s)
    ensures Honest(cfg, Generated(cfg, w, s, ask).0)
    decreases Rank(cfg, ask)
  {
    var prepared := Prepared(cfg, ask);
    if prepared.Ok? {
      var a := prepared.value;
      RoundHonest(cfg, w, s, a.tenant.value, a, a.model);
      var (t, end) := Round(cfg, w, s, a.tenant.value, a, a.model);
      if end.Failed? && cfg.fallback != "" && cfg.fallback != a.model {
        GenerateHonest(cfg, w, t, a.(model := cfg.fallback));
      }
    }
  }

  /** Every noted text is the reply to some provider call made with that very request. */
  ghost predicate Replied(w: World, s: State) {
    forall h :: h in s.heard ==> RepliedTo(w, s.calls, h)
  }

  ghost predicate RepliedTo(w: World, calls: seq<Identity>, h: Heard) {
    exists i :: 0 <= i < |calls| && calls[i] == h.id && w.reply(i).Text? && w.reply(i).text == h.text
  }

  lemma RepliedLater(w: World, calls: seq<Identity>, more: seq<Identity>, h: Heard)
    requires calls <= more && RepliedTo(w, calls, h)
    ensures RepliedTo(w, more, h)
  {
    var i :| 0 <= i < |calls| && calls[i] == h.id && w.reply(i).Text? && w.reply(i).text == h.text;
    assert more[i] == h.id;
  }

  lemma RoundReplied(cfg: Settings, w: World, s: State, tenant: nat, ask: Ask, model: string)
    requires Replied(w, s)
    ensures Replied(w, Round(cfg, w, s, tenant, ask, model).0)
  {
    var t := Round(cfg, w, s, tenant, ask, model).0;
    var n := RoundShape(cfg, w, s, tenant, ask, model);
    RoundAnswersReply(cfg, w, s, tenant, ask, model);
    forall h | h in t.heard ensures RepliedTo(w, t.calls, h) {
      if h in s.heard {
        RepliedLater(w, s.calls, t.calls, h);
      } else {
        assert t.calls[|t.calls| - 1] == h.id;
      }
    }
  }

  lemma {:induction false} GenerateReplied(cfg: Settings, w: World, s: State, ask: Ask)
    requires Replied(w, s)
    ensures Replied(w, Generated(cfg, w, s, ask).0)
    decreases Rank(cfg, ask)
  {
    var prepared := Prepared(cfg, ask);
    if prepared.Ok? {
      var a := prepared.value;
      RoundReplied(cfg, w, s, a.tenant.value, a, a.model);
      var (t, end) := Round(cfg, w, s, a.tenant.value, a, a.model);
      if end.Failed? && cfg.fallback != "" && cfg.fallback != a.model {
        GenerateReplied(cfg, w, t, a.(model := cfg.fallback));
      }
    }
  }

  /** Over every history, a noted text is a text some provider call made with that very request was answered
      with. */
  lemma {:induction false} HeardIsReplied(cfg: Settings, w: World, asks: seq<Ask>)
    ensures Replied(w, Run(cfg, w, asks))
  {
    if asks != [] {
      HeardIsReplied(cfg, w, asks[..|asks| - 1]);
      GenerateReplied(cfg, w, Run(cfg, w, asks[..|asks| - 1]), asks[|asks| - 1]);
    }
  }

  lemma {:induction false} AlwaysHonest(cfg: Settings, w: World, asks: seq<Ask>)
    ensures Honest(cfg, Run(cfg, w, asks))
  {
    if asks != [] {
      AlwaysHonest(cfg, w, asks[..|asks| - 1]);
      GenerateHonest(cfg, w, Run(cfg, w, asks[..|asks| - 1]), asks[|asks| - 1]);
    }
  }

  ghost predicate Injective(digest: string -> string) {
    forall a: string, b: string :: digest(a) == digest(b) ==> a == b
  }

  /** Some provider gave this text to a request with the same joined parts. */
  ghost predicate GivenTo(s: State, id: Identity, text: string) {
    exists h :: h in s.heard && Joined(Parts(h.id)) == Joined(Parts(id)) && h.text == text
  }

  /** If the digest does not collide, then after any history a cached answer is a text that was given to a
      request with the same joined parts. */
  lemma CachedAnswerIsGiven(cfg: Settings, w: World, asks: seq<Ask>, tenant: nat, ask: Ask, model: string)
    requires Injective(cfg.digest)
    ensures var s := Run(cfg, w, asks);
            var end := Round(cfg, w, s, tenant, ask, model).1;
            end.Answered? && end.answer.cached ==> GivenTo(s, IdOf(ask, model), end.answer.text)
  {
    var s := Run(cfg, w, asks);
    AlwaysHonest(cfg, w, asks);
    var end := Round(cfg, w, s, tenant, ask, model).1;
    if end.Answered? && end.answer.cached {
      var key := KeyOf(cfg, IdOf(ask, model));
      var h :| h in s.heard && KeyOf(cfg, h.id) == key && h.text == s.cache[key].text;
      assert Joined(Parts(h.id)) == Joined(Parts(IdOf(ask, model)));
    }
  }

  /* ---- when joining keeps requests apart ---- */

  predicate Plain(s: string) {
    forall i :: 0 <= i < |s| ==> s[i] != NUL
  }

  ghost predicate AllPlain(parts: seq<string>) {
    forall i :: 0 <= i < |parts| ==> Plain(parts[i])
  }

  lemma FirstNul(a: string, x: string, b: string, y: string)
    requires Plain(a) && Plain(b) && a + [NUL] + x == b + [NUL] + y
    ensures a == b && x == y
  {
    var s := a + [NUL] + x;
    assert s[|a|] == NUL && s[|b|] == (b + [NUL] + y)[|b|] == NUL;
    assert forall i :: 0 <= i < |a| ==> s[i] == a[i];
    assert forall i :: 0 <= i < |b| ==> s[i] == (b + [NUL] + y)[i] == b[i];
    assert |a| == |b|;
    assert a == s[..|a|] == b && x == s[|a| + 1..] == y;
  }

  lemma NulInside(a: string, x: string, b: string)
    requires Plain(b)
    ensures a + [NUL] + x != b
  {
    assert (a + [NUL] + x)[|a|] == NUL;
  }

  /** Lists of parts without NUL characters are told apart by their joins. */
  lemma {:induction false} JoinedApart(xs: seq<string>, ys: seq<string>)
    requires xs != [] && ys != [] && AllPlain(xs) && AllPlain(ys) && Joined(xs) == Joined(ys)
    ensures xs == ys
    decreases |xs|
  {
    if |xs| == 1 && |ys| > 1 {
      NulInside(ys[0], Joined(ys[1..]), xs[0]);
    } else if |ys| == 1 && |xs| > 1 {
      NulInside(xs[0], Joined(xs[1..]), ys[0]);
    } else if |xs| > 1 {
      FirstNul(xs[0], Joined(xs[1..]), ys[0], Joined(ys[1..]));
      JoinedApart(xs[1..], ys[1..]);
      assert xs == [xs[0]] + xs[1..] && ys == [ys[0]] + ys[1..];
    }
  }

  lemma {:induction false} ImagesApart(a: seq<Image>, b: seq<Image>)
    requires ImageParts(a) == ImageParts(b)
    ensures a == b
  {
    if a != [] && b != [] {
      assert ImageParts(a)[0] == a[0].mime && ImageParts(a)[1] == a[0].data && ImageParts(a)[2..] == ImageParts(a[1..]);
      assert ImageParts(b)[0] == b[0].mime && ImageParts(b)[1] == b[0].data && ImageParts(b)[2..] == ImageParts(b[1..]);
      ImagesApart(a[1..], b[1..]);
      assert a == [a[0]] + a[1..] && b == [b[0]] + b[1..];
    }
  }

  lemma IdentitiesApart(a: Identity, b: Identity)
    requires AllPlain(Parts(a)) && AllPlain(Parts(b)) && Joined(Parts(a)) == Joined(Parts(b))
    ensures a == b
  {
    JoinedApart(Parts(a), Parts(b));
    assert Parts(a)[0] == a.model && Parts(a)[1] == a.system && Parts(a)[2] == a.user &&
        Parts(a)[3..] == ImageParts(a.images);
    assert Parts(b)[0] == b.model && Parts(b)[1] == b.system && Parts(b)[2] == b.user &&
        Parts(b)[3..] == ImageParts(b.images);
    ImagesApart(a.images, b.images);
  }

  /** With a NUL in a text two different requests join to the same string, and so share one cache key. */
  lemma NulsCollide(cfg: Settings, model: string)
    ensures var a := Identity(model, "a" + [NUL] + "b", "c", []);
            var b := Identity(model, "a", "b" + [NUL] + "c", []);
            a != b && KeyOf(cfg, a) == KeyOf(cfg, b)
  {
    ThreeJoined(model, "a" + [NUL] + "b", "c");
    ThreeJoined(model, "a", "b" + [NUL] + "c");
    assert model + [NUL] + ("a" + [NUL] + "b") + [NUL] + "c" == model + [NUL] + "a" + [NUL] + ("b" + [NUL] + "c");
    var system: string := "a";
    assert |"a" + [NUL] + "b"| != |system|;
  }

  lemma ThreeJoined(x: string, y: string, z: string)
    ensures Joined(Parts(Identity(x, y, z, []))) == x + [NUL] + y + [NUL] + z
  {
    var parts := Parts(Identity(x, y, z, []));
    assert parts == [x, y, z] && parts[1..] == [y, z] && [y, z][1..] == [z];
    assert Joined([y, z]) == y + [NUL] + z;
    assert x + [NUL] + (y + [NUL] + z) == x + [NUL] + y + [NUL] + z;
  }

  /* ---- requests without NUL characters ---- */

  ghost predicate PlainImages(images: seq<Image>) {
    forall i :: 0 <= i < |images| ==> Plain(images[i].mime) && Plain(images[i].data)
  }

  /** Nothing the caller hands in contains a NUL: model, texts, images, prompt and its hint. */
  ghost predicate PlainAsk(ask: Ask) {
    && Plain(ask.model) && Plain(ask.system) && Plain(ask.user) && PlainImages(ask.images)
    && (ask.prompt.Some? && ask.prompt.value.Rendered? ==>
          Plain(ask.prompt.value.system) && Plain(ask.prompt.value.user) && Plain(ask.prompt.value.hint))
  }

  ghost predicate PlainHeard(s: State) {
    forall h :: h in s.heard ==> AllPlain(Parts(h.id))
  }

  lemma {:induction false} ImagePartsPlain(images: seq<Image>)
    requires PlainImages(images)
    ensures AllPlain(ImageParts(images))
  {
    if images != [] {
      ImagePartsPlain(images[1..]);
    }
  }

  lemma AskIsPlain(ask: Ask, model: string)
    requires PlainAsk(ask) && Plain(model)
    ensures AllPlain(Parts(IdOf(ask, model)))
  {
    ImagePartsPlain(ask.images);
  }

  lemma RoundHearsPlain(cfg: Settings, w: World, s: State, tenant: nat, ask: Ask, model: string)
    requires PlainHeard(s) && PlainAsk(ask) && Plain(model)
    ensures PlainHeard(Round(cfg, w, s, tenant, ask, model).0)
  {
    var t := Round(cfg, w, s, tenant, ask, model).0;
    AskIsPlain(ask, model);
    assert t.heard == s.heard || t.heard == s.heard + [Heard(IdOf(ask, model), t.heard[|s.heard|].text)];
  }

  lemma {:induction false} GenerateHearsPlain(cfg: Settings, w: World, s: State, ask: Ask)
    requires PlainHeard(s) && PlainAsk(ask) && Plain(cfg.standard) && Plain(cfg.fallback)
    ensures PlainHeard(Generated(cfg, w, s, ask).0)
    decreases Rank(cfg, ask)
  {
    var prepared := Prepared(cfg, ask);
    if prepared.Ok? {
      var a := prepared.value;
      assert PlainAsk(a);
      RoundHearsPlain(cfg, w, s, a.tenant.value, a, a.model);
      var (t, end) := Round(cfg, w, s, a.tenant.value, a, a.model);
      if end.Failed? && cfg.fallback != "" && cfg.fallback != a.model {
        GenerateHearsPlain(cfg, w, t, a.(model := cfg.fallback));
      }
    }
  }

  lemma {:induction false} AlwaysHearsPlain(cfg: Settings, w: World, asks: seq<Ask>)
    requires Plain(cfg.standard) && Plain(cfg.fallback) && forall i :: 0 <= i < |asks| ==> PlainAsk(asks[i])
    ensures PlainHeard(Run(cfg, w, asks))
  {
    if asks != [] {
      AlwaysHearsPlain(cfg, w, asks[..|asks| - 1]);
      GenerateHearsPlain(cfg, w, Run(cfg, w, asks[..|asks| - 1]), asks[|asks| - 1]);
    }
  }

  /** If the digest does not collide and no text handed in contains a NUL, then after any history a cached
      answer is a provider's reply to a call with the very same model, system and user text and images. */
  lemma CachedAnswerIsOwn(cfg: Settings, w: World, asks: seq<Ask>, tenant: nat, ask: Ask, model: string)
    requires Injective(cfg.digest) && Plain(cfg.standard) && Plain(cfg.fallback)
    requires PlainAsk(ask) && Plain(model) && forall i :: 0 <= i < |asks| ==> PlainAsk(asks[i])
    ensures var s := Run(cfg, w, asks);
            var end := Round(cfg, w, s, tenant, ask, model).1;
            end.Answered? && end.answer.cached ==> RepliedTo(w, s.calls, Heard(IdOf(ask, model), end.answer.text))
  {
    var s := Run(cfg, w, asks);
    HeardIsReplied(cfg, w, asks);
    CachedAnswerIsGiven(cfg, w, asks, tenant, ask, model);
    AlwaysHearsPlain(cfg, w, asks);
    AskIsPlain(ask, model);
    var end := Round(cfg, w, s, tenant, ask, model).1;
    if end.Answered? && end.answer.cached {
      var h :| h in s.heard && Joined(Parts(h.id)) == Joined(Parts(IdOf(ask, model))) && h.text == end.answer.text;
      IdentitiesApart(h.id, IdOf(ask, model));
      assert h == Heard(IdOf(ask, model), end.answer.text);
    }
  }

  /* ---- replay ---- */

  /** The clock of the rate checks does not run backwards. */
  ghost predicate Steady(w: World) {
    forall i: nat, j: nat :: i <= j ==> w.clock(i) <= w.clock(j)
  }

  /** An entry that has not expired is neither dropped nor replaced: the same request finds it. */
  lemma RoundKeepsEntry(cfg: Settings, w: World, s: State, tenant: nat, ask: Ask, model: string, key: string)
    requires key in s.cache && w.clock(|s.checks|) < s.cache[key].expires
    ensures var t := Round(cfg, w, s, tenant, ask, model).0;
            key in t.cache && t.cache[key] == s.cache[key] && |t.checks| == |s.checks| + 1
  {
    assert Enforce(cfg, w, s, tenant).0.cache == s.cache;
  }

  lemma {:induction false} GenerateKeepsEntry(cfg: Settings, w: World, s: State, ask: Ask, key: string)
    requires Steady(w) && key in s.cache && w.clock(|Generated(cfg, w, s, ask).0.checks|) < s.cache[key].expires
    ensures var t := Generated(cfg, w, s, ask).0; key in t.cache && t.cache[key] == s.cache[key]
    decreases Rank(cfg, ask)
  {
    var m, n := GenerateShape(cfg, w, s, ask);
    assert w.clock(|s.checks|) < s.cache[key].expires;
    var prepared := Prepared(cfg, ask);
    if prepared.Ok? {
      var a := prepared.value;
      RoundKeepsEntry(cfg, w, s, a.tenant.value, a, a.model, key);
      var (t, end) := Round(cfg, w, s, a.tenant.value, a, a.model);
      if end.Failed? && cfg.fallback != "" && cfg.fallback != a.model {
        GenerateKeepsEntry(cfg, w, t, a.(model := cfg.fallback), key);
      }
    }
  }

  lemma {:induction false} RunKeepsEntry(cfg: Settings, w: World, asks: seq<Ask>, n: nat, key: string)
    requires Steady(w) && n <= |asks| && key in Run(cfg, w, asks[..n]).cache
    requires w.clock(|Run(cfg, w, asks).checks|) < Run(cfg, w, asks[..n]).cache[key].expires
    ensures key in Run(cfg, w, asks).cache && Run(cfg, w, asks).cache[key] == Run(cfg, w, asks[..n]).cache[key]
  {
    if n == |asks| {
      assert asks[..n] == asks;
    } else {
      var most := asks[..|asks| - 1];
      assert most[..n] == asks[..n];
      var i, j := GenerateShape(cfg, w, Run(cfg, w, most), asks[|asks| - 1]);
      RunKeepsEntry(cfg, w, most, n, key);
      GenerateKeepsEntry(cfg, w, Run(cfg, w, most), asks[|asks| - 1], key);
    }
  }

  /** The text was just given, by this model, and is cached under its request until then. */
  ghost predicate JustCached(cfg: Settings, t: State, id: Identity, text: string, until: int) {
    && t.heard != [] && t.heard[|t.heard| - 1] == Heard(id, text) && id.model in cfg.models
    && KeyOf(cfg, id) in t.cache && t.cache[KeyOf(cfg, id)] == Cached(text, until)
  }

  lemma RoundCaches(cfg: Settings, w: World, s: State, tenant: nat, ask: Ask, model: string)
    requires ask.ttl > 0
    ensures var (t, end) := Round(cfg, w, s, tenant, ask, model);
            end.Answered? && !end.answer.cached ==>
              |t.checks| == |s.checks| + 1 &&
              JustCached(cfg, t, IdOf(ask, model), end.answer.text, w.clock(|t.checks| - 1) + ask.ttl)
  {}

  /** An answer straight from a model left its text cached, under the model asked or under the fallback. */
  ghost predicate Caches(cfg: Settings, w: World, t: State, r: Result<Answer, Error>, a: Ask) {
    r.Ok? && !r.value.cached ==>
      t.checks != [] &&
      (JustCached(cfg, t, IdOf(a, a.model), r.value.text, w.clock(|t.checks| - 1) + a.ttl) ||
       JustCached(cfg, t, IdOf(a, cfg.fallback), r.value.text, w.clock(|t.checks| - 1) + a.ttl))
  }

  lemma {:induction false} GenerateCaches(cfg: Settings, w: World, s: State, ask: Ask)
    requires Prepared(cfg, ask).Ok? && Prepared(cfg, ask).value.ttl > 0
    ensures var (t, r) := Generated(cfg, w, s, ask); Caches(cfg, w, t, r, Prepared(cfg, ask).value)
    decreases Rank(cfg, ask)
  {
    var a := Prepared(cfg, ask).value;
    RoundCaches(cfg, w, s, a.tenant.value, a, a.model);
    var (t, end) := Round(cfg, w, s, a.tenant.value, a, a.model);
    var again := a.(model := cfg.fallback);
    if end.Failed? && cfg.fallback != "" && cfg.fallback != a.model && Prepared(cfg, again).Ok? {
      assert Prepared(cfg, again) == Ok(again);
      GenerateCaches(cfg, w, t, again);
    }
  }

  /** A call for a request whose text is cached and live, let through by the rate check, answers with that
      text and makes no provider call. */
  lemma LiveEntryAnswers(cfg: Settings, w: World, u: State, again: Ask, text: string)
    requires Prepared(cfg, again).Ok?
    requires var b := Prepared(cfg, again).value;
             var key := KeyOf(cfg, IdOf(b, b.model));
             b.ttl > 0 && b.model in cfg.models && key in u.cache && u.cache[key].text == text &&
             w.clock(|u.checks|) < u.cache[key].expires && Enforce(cfg, w, u, b.tenant.value).1
    ensures var b := Prepared(cfg, again).value;
            var (t, r) := Generated(cfg, w, u, again);
            r == Ok(Answer(text, b.model, cfg.models[b.model], true)) && t.calls == u.calls
  {
    var b := Prepared(cfg, again).value;
    assert Enforce(cfg, w, u, b.tenant.value).0.cache == u.cache;
  }

  /** This later call asks for the identity of the last text given in t, may use the cache, comes before
      the text expires, and is let through. */
  ghost predicate SameRequest(cfg: Settings, w: World, t: State, until: int, u: State, again: Ask) {
    && Prepared(cfg, again).Ok? && t.heard != []
    && var b := Prepared(cfg, again).value;
       && b.ttl > 0 && IdOf(b, b.model) == t.heard[|t.heard| - 1].id
       && w.clock(|u.checks|) < until && Enforce(cfg, w, u, b.tenant.value).1
  }

  /** The call is answered with this text from the cache and makes no provider call. */
  ghost predicate Replays(cfg: Settings, w: World, u: State, again: Ask, text: string) {
    var (after, r) := Generated(cfg, w, u, again);
    r.Ok? && r.value.text == text && r.value.cached && after.calls == u.calls
  }

  lemma RunOneMore(cfg: Settings, w: World, asks: seq<Ask>, n: nat)
    requires n < |asks|
    ensures Run(cfg, w, asks[..n + 1]) == Generated(cfg, w, Run(cfg, w, asks[..n]), asks[n]).0
  {
    assert asks[..n + 1][..n] == asks[..n];
  }

  lemma ReplayFrom(cfg: Settings, w: World, t: State, id: Identity, text: string, until: int, u: State, again: Ask)
    requires JustCached(cfg, t, id, text, until) && SameRequest(cfg, w, t, until, u, again)
    requires KeyOf(cfg, id) in u.cache && u.cache[KeyOf(cfg, id)] == t.cache[KeyOf(cfg, id)]
    ensures Replays(cfg, w, u, again, text)
  {
    LiveEntryAnswers(cfg, w, u, again, text);
  }

  /** From a text just cached to any later state of the history. */
  lemma CachedReplays(cfg: Settings, w: World, asks: seq<Ask>, n: nat, id: Identity, text: string, until: int,
      again: Ask)
    requires Steady(w) && n <= |asks| && JustCached(cfg, Run(cfg, w, asks[..n]), id, text, until)
    ensures SameRequest(cfg, w, Run(cfg, w, asks[..n]), until, Run(cfg, w, asks), again) ==>
              Replays(cfg, w, Run(cfg, w, asks), again, text)
  {
    if SameRequest(cfg, w, Run(cfg, w, asks[..n]), until, Run(cfg, w, asks), again) {
      RunKeepsEntry(cfg, w, asks, n, KeyOf(cfg, id));
      ReplayFrom(cfg, w, Run(cfg, w, asks[..n]), id, text, until, Run(cfg, w, asks), again);
    }
  }

  /** Over any history with a steady clock: once call n got a text that was cached, every later call for the
      same model, texts and images that comes before the text expires and passes the rate check is answered
      with that text and makes no provider call, whatever was asked in between. */
  lemma CacheReplays(cfg: Settings, w: World, asks: seq<Ask>, n: nat, t: State, answer: Answer, again: Ask)
    requires Steady(w) && n < |asks| && Prepared(cfg, asks[n]).Ok? && Prepared(cfg, asks[n]).value.ttl > 0
    requires Generated(cfg, w, Run(cfg, w, asks[..n]), asks[n]) == (t, Ok(answer)) && !answer.cached
    ensures t.checks != []
    ensures SameRequest(cfg, w, t, w.clock(|t.checks| - 1) + Prepared(cfg, asks[n]).value.ttl, Run(cfg, w, asks),
        again) ==>
              Replays(cfg, w, Run(cfg, w, asks), again, answer.text)
  {
    var id := AnswerCaches(cfg, w, Run(cfg, w, asks[..n]), asks[n], t, answer);
    RunOneMore(cfg, w, asks, n);
    CachedReplays(cfg, w, asks, n + 1, id, answer.text, w.clock(|t.checks| - 1) + Prepared(cfg, asks[n]).value.ttl,
        again);
  }

  lemma AnswerCaches(cfg: Settings, w: World, s: State, ask: Ask, t: State, answer: Answer) returns (id: Identity)
    requires Prepared(cfg, ask).Ok? && Prepared(cfg, ask).value.ttl > 0
    requires Generated(cfg, w, s, ask) == (t, Ok(answer)) && !answer.cached
    ensures t.checks != []
    ensures JustCached(cfg, t, id, answer.text, w.clock(|t.checks| - 1) + Prepared(cfg, ask).value.ttl)
  {
    GenerateCaches(cfg, w, s, ask);
    id := CachesUnder(cfg, w, t, answer, Prepared(cfg, ask).value);
  }

  lemma CachesUnder(cfg: Settings, w: World, t: State, answer: Answer, a: Ask) returns (id: Identity)
    requires Caches(cfg, w, t, Ok(answer), a) && !answer.cached
    ensures t.checks != [] && JustCached(cfg, t, id, answer.text, w.clock(|t.checks| - 1) + a.ttl)
  {
    id := t.heard[|t.heard| - 1].id;
  }
}
