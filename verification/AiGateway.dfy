/** The AI gateway's generate (platform/ai/services.py): rate limit, response cache, provider calls with
    retry, one fallback model, usage ledger. Provider replies and the clock are arbitrary. */
module AiGateway {
  import opened Wrappers

  datatype Reply = Text(text: string, model: string, provider: string, inTokens: nat, outTokens: nat)
                 | Failure(retryable: bool)

  /** What the i-th provider call ever made answers, and when the i-th rate check ever made happens. */
  datatype World = World(reply: nat -> Reply, clock: nat -> int)

  datatype Image = Image(mime: string, data: string)

  /** What a cached response is meant to be keyed on. */
  datatype Identity = Identity(model: string, system: string, user: string, images: seq<Image>)

  datatype Settings = Settings(models: map<string, string>, standard: string, fallback: string, retries: nat,
                               limit: int, digest: string -> string)

  datatype Error = Conflict | RateLimited | UnknownModel | BadPrompt

  /** A prompt key that renders, with its model hint, or one that does not. */
  datatype Prompt = Rendered(system: string, user: string, hint: string) | Broken

  datatype Ask = Ask(tenant: Option<nat>, prompt: Option<Prompt>, system: string, user: string, model: string,
                     ttl: int, images: seq<Image>)

  /** A ledger row. */
  datatype Usage = Usage(tenant: nat, model: string, provider: string, hit: bool, success: bool, inTokens: nat,
      outTokens: nat)

  datatype Answer = Answer(text: string, model: string, provider: string, cached: bool)

  datatype Cached = Cached(text: string, expires: int)

  datatype Rate = Rate(count: int, expires: int)

  /** One pass through the rate check. */
  datatype Check = Check(tenant: nat, window: int, passed: bool)

  /** A text a provider gave to a request. */
  datatype Heard = Heard(id: Identity, text: string)

  /** Counters, cached responses and ledger, with the checks, provider calls and texts so far in order. */
  datatype State = State(rates: map<(nat, int), Rate>, cache: map<string, Cached>, ledger: seq<Usage>,
                         calls: seq<Identity>, checks: seq<Check>, heard: seq<Heard>)

  const HOUR: int := 3600

  function Window(now: int): int {
    now / HOUR
  }

  /* ---- specification ---- */

  function RateAfter(cfg: Settings, s: State, tenant: nat, now: int): (map<(nat, int), Rate>, bool) {
    var key := (tenant, Window(now));
    if cfg.limit <= 0 then (s.rates, true)
    else if key !in s.rates || s.rates[key].expires <= now then (s.rates[key := Rate(1, now + HOUR)], true)
    else
      var count := s.rates[key].count + 1;
      (s.rates[key := s.rates[key].(count := count)], count <= cfg.limit)
  }

  function Enforce(cfg: Settings, w: World, s: State, tenant: nat): (State, bool) {
    var now := w.clock(|s.checks|);
    var (rates, passed) := RateAfter(cfg, s, tenant, now);
    (s.(rates := rates, checks := s.checks + [Check(tenant, Window(now), passed)]), passed)
  }

  /** How many calls a completion makes when this many are left: it stops at the first text, at the first
      failure that is not retryable, and at the last. */
  function Tries(w: World, from: nat, left: nat): (n: nat)
    requires left >= 1
    ensures 1 <= n <= left
    decreases left
  {
    var r := w.reply(from);
    if r.Text? || !r.retryable || left == 1 then 1 else 1 + Tries(w, from + 1, left - 1)
  }

  function Repeated(id: Identity, n: nat): seq<Identity> {
    seq(n, _ => id)
  }

  function Complete(cfg: Settings, w: World, s: State, id: Identity): (State, Reply) {
    var n := Tries(w, |s.calls|, 1 + cfg.retries);
    (s.(calls := s.calls + Repeated(id, n)), w.reply(|s.calls| + n - 1))
  }

  function Lookup(s: State, key: string, now: int): Option<string> {
    if key in s.cache && now < s.cache[key].expires then Some(s.cache[key].text) else None
  }

  function ImageParts(images: seq<Image>): seq<string> {
    if images == [] then [] else [images[0].mime, images[0].data] + ImageParts(images[1..])
  }

  function Parts(id: Identity): seq<string> {
    [id.model, id.system, id.user] + ImageParts(id.images)
  }

  const NUL: char := '\0'

  function Joined(parts: seq<string>): string {
    if parts == [] then "" else if |parts| == 1 then parts[0] else parts[0] + [NUL] + Joined(parts[1..])
  }

  /** The cache key: the digest of the parts joined by NUL characters. */
  function KeyOf(cfg: Settings, id: Identity): string {
    cfg.digest(Joined(Parts(id)))
  }

  function IdOf(ask: Ask, model: string): Identity {
    Identity(model, ask.system, ask.user, ask.images)
  }

  /** How one model round ends: refused before the model is asked, answered, or failed. */
  datatype End = Refused(error: Error) | Answered(answer: Answer) | Failed

  function Round(cfg: Settings, w: World, s: State, tenant: nat, ask: Ask, model: string): (State, End) {
    var now := w.clock(|s.checks|);
    var (s1, passed) := Enforce(cfg, w, s, tenant);
    if !passed then (s1, Refused(RateLimited))
    else if model !in cfg.models then (s1, Refused(UnknownModel))
    else
      var provider := cfg.models[model];
      var key := KeyOf(cfg, IdOf(ask, model));
      var hit := if ask.ttl > 0 then Lookup(s1, key, now) else None;
      if hit.Some? then
        (s1.(ledger := s1.ledger + [Usage(tenant, model, provider, true, true, 0, 0)]),
         Answered(Answer(hit.value, model, provider, true)))
      else
        var (s2, reply) := Complete(cfg, w, s1, IdOf(ask, model));
        match reply
        case Failure(_) => (s2.(ledger := s2.ledger + [Usage(tenant, model, provider, false, false, 0, 0)]), Failed)
        case Text(text, m, p, i, o) =>
          (s2.(cache := if ask.ttl > 0 then s2.cache[key := Cached(text, now + ask.ttl)] else s2.cache,
               ledger := s2.ledger + [Usage(tenant, m, p, false, true, i, o)],
               heard := s2.heard + [Heard(IdOf(ask, model), text)]),
           Answered(Answer(text, m, p, false)))
  }

  /** The ask with its prompt rendered and its model chosen. */
  function Prepared(cfg: Settings, ask: Ask): Result<Ask, Error> {
    if ask.tenant.None? then Err(Conflict)
    else if ask.prompt == Some(Broken) then Err(BadPrompt)
    else if ask.prompt.Some? then
      var p := ask.prompt.value;
      var model := if ask.model != "" then ask.model else if p.hint != "" then p.hint else cfg.standard;
      Ok(ask.(prompt := None, system := p.system, user := p.user, model := model))
    else if ask.user == "" then Err(Conflict)
    else Ok(ask.(model := if ask.model != "" then ask.model else cfg.standard))
  }

  function Rank(cfg: Settings, ask: Ask): nat {
    match Prepared(cfg, ask)
    case Err(_) => 0
    case Ok(a) => if a.model == cfg.fallback then 0 else 1
  }

  function Generated(cfg: Settings, w: World, s: State, ask: Ask): (State, Result<Answer, Error>)
    decreases Rank(cfg, ask)
  {
    match Prepared(cfg, ask)
    case Err(e) => (s, Err(e))
    case Ok(a) =>
      var (t, end) := Round(cfg, w, s, a.tenant.value, a, a.model);
      match end
      case Refused(e) => (t, Err(e))
      case Answered(answer) => (t, Ok(answer))
      case Failed =>
        if cfg.fallback == "" || cfg.fallback == a.model then (t, Err(Conflict))
        else Generated(cfg, w, t, a.(model := cfg.fallback))
  }

  /* ---- the service ---- */

  class AIService {
    const cfg: Settings
    const world: World
    var state: State

    constructor (cfg: Settings, world: World)
      ensures this.cfg == cfg && this.world == world && state == State(map[], map[], [], [], [], [])
    {
      this.cfg, this.world := cfg, world;
      state := State(map[], map[], [], [], [], []);
    }

    method EnforceRateLimit(tenant: nat) returns (passed: bool)
      modifies this
      ensures (state, passed) == Enforce(cfg, world, old(state), tenant)
    {
      var now := world.clock(|state.checks|);
      var key := (tenant, Window(now));
      passed := true;
      if cfg.limit > 0 {
        if key !in state.rates || state.rates[key].expires <= now {
          state := state.(rates := state.rates[key := Rate(1, now + HOUR)]);
        } else {
          var count := state.rates[key].count + 1;
          state := state.(rates := state.rates[key := state.rates[key].(count := count)]);
          passed := count <= cfg.limit;
        }
      }
      state := state.(checks := state.checks + [Check(tenant, Window(now), passed)]);
    }

    method CompleteWithRetry(id: Identity) returns (reply: Reply)
      modifies this
      ensures (state, reply) == Complete(cfg, world, old(state), id)
    {
      var attempts := 1 + cfg.retries;
      var start := |state.calls|;
      var attempt := 1;
      while true
        invariant 1 <= attempt <= attempts
        invariant state == old(state).(calls := old(state).calls + Repeated(id, attempt - 1))
        invariant Tries(world, start, attempts) ==
            attempt - 1 + Tries(world, start + attempt - 1, attempts - attempt + 1)
        decreases attempts - attempt
      {
        reply := world.reply(|state.calls|);
        state := state.(calls := state.calls + [id]);
        assert old(state).calls + Repeated(id, attempt - 1) + [id] == old(state).calls + Repeated(id, attempt);
        if reply.Text? || !reply.retryable || attempt == attempts {
          return;
        }
        attempt := attempt + 1;
      }
    }

    method Record(row: Usage)
      modifies this
      ensures state == old(state).(ledger := old(state).ledger + [row])
    {
      state := state.(ledger := state.ledger + [row]);
    }

    method RunRound(tenant: nat, a: Ask) returns (end: End)
      modifies this
      ensures (state, end) == Round(cfg, world, old(state), tenant, a, a.model)
    {
      var now := world.clock(|state.checks|);
      var passed := EnforceRateLimit(tenant);
      if !passed {
        return Refused(RateLimited);
      }
      if a.model !in cfg.models {
        return Refused(UnknownModel);
      }
      var provider := cfg.models[a.model];
      var key := KeyOf(cfg, IdOf(a, a.model));
      if a.ttl > 0 {
        var hit := Lookup(state, key, now);
        if hit.Some? {
          Record(Usage(tenant, a.model, provider, true, true, 0, 0));
          return Answered(Answer(hit.value, a.model, provider, true));
        }
      }
      var reply := CompleteWithRetry(IdOf(a, a.model));
      if reply.Failure? {
        Record(Usage(tenant, a.model, provider, false, false, 0, 0));
        return Failed;
      }
      state := state.(heard := state.heard + [Heard(IdOf(a, a.model), reply.text)]);
      if a.ttl > 0 {
        state := state.(cache := state.cache[key := Cached(reply.text, now + a.ttl)]);
      }
      Record(Usage(tenant, reply.model, reply.provider, false, true, reply.inTokens, reply.outTokens));
      return Answered(Answer(reply.text, reply.model, reply.provider, false));
    }

    method Generate(ask: Ask) returns (r: Result<Answer, Error>)
      modifies this
      ensures (state, r) == Generated(cfg, world, old(state), ask)
      decreases Rank(cfg, ask)
    {
      var prepared := Prepared(cfg, ask);
      if prepared.Err? {
        return Err(prepared.error);
      }
      var a := prepared.value;
      var end := RunRound(a.tenant.value, a);
      match end
      case Refused(e) => return Err(e);
      case Answered(answer) => return Ok(answer);
      case Failed =>
        if cfg.fallback == "" || cfg.fallback == a.model {
          return Err(Conflict);
        }
        r := Generate(a.(model := cfg.fallback));
    }
  }

  /* ---- retry ---- */

  /** A completion stops at the first text or the first failure it must not retry, and never earlier. */
  lemma {:induction false} TriesShape(w: World, from: nat, left: nat)
    requires left >= 1
    ensures var n := Tries(w, from, left);
            && (forall i: nat :: from <= i < from + n - 1 ==> w.reply(i).Failure? && w.reply(i).retryable)
            && (w.reply(from + n - 1).Text? || !w.reply(from + n - 1).retryable || n == left)
    decreases left
  {
    var r := w.reply(from);
    if r.Failure? && r.retryable && left > 1 {
      TriesShape(w, from + 1, left - 1);
    }
  }

  ghost predicate Retryable(w: World, from: nat, m: nat) {
    forall i: nat :: from <= i < from + m ==> w.reply(i).Failure? && w.reply(i).retryable
  }

  /** The replies from here on make a completion with this many tries give up: failures to be retried, then
      one that must not be, or the last try failing too. */
  ghost predicate GivesUp(w: World, from: nat, left: nat) {
    exists m: nat :: m < left && Retryable(w, from, m) && w.reply(from + m).Failure? &&
                     (!w.reply(from + m).retryable || m == left - 1)
  }

  lemma LastReplyFails(w: World, from: nat, left: nat)
    requires left >= 1
    ensures w.reply(from + Tries(w, from, left) - 1).Failure? <==> GivesUp(w, from, left)
  {
    var n := Tries(w, from, left);
    TriesShape(w, from, left);
    if w.reply(from + n - 1).Failure? {
      assert Retryable(w, from, n - 1) && w.reply(from + (n - 1)).Failure?;
    }
    if GivesUp(w, from, left) {
      var m: nat :| m < left && Retryable(w, from, m) && w.reply(from + m).Failure? &&
                    (!w.reply(from + m).retryable || m == left - 1);
      assert m == n - 1;
    }
  }

  /* ---- one call ---- */

  function Passed(checks: seq<Check>): nat {
    if checks == [] then 0 else Passed(checks[..|checks| - 1]) + if checks[|checks| - 1].passed then 1 else 0
  }

  /** What one round adds: one check, at most 1 + retries calls, all of its own request, and one ledger row
      exactly when it passes the check with a model that is known. */
  ghost predicate RoundAdds(cfg: Settings, s: State, t: State, end: End, tenant: nat, id: Identity, n: nat) {
    && t.calls == s.calls + Repeated(id, n) && n <= 1 + cfg.retries
    && (end.Refused? ==> n == 0 && t.ledger == s.ledger && t.cache == s.cache)
    && (!end.Refused? ==> |t.ledger| == |s.ledger| + 1 && t.ledger[..|s.ledger|] == s.ledger &&
                          var row := t.ledger[|s.ledger|]; row.tenant == tenant && row.success == end.Answered?)
    && (end.Answered? ==>
          var row := t.ledger[|s.ledger|];
          row.model == end.answer.model && row.provider == end.answer.provider && row.hit == end.answer.cached &&
          (n == 0 <==> end.answer.cached))
    && (end.Failed? ==>
          n >= 1 && t.cache == s.cache && !t.ledger[|s.ledger|].hit && t.ledger[|s.ledger|].model == id.model)
    && |t.checks| == |s.checks| + 1 && t.checks[..|s.checks|] == s.checks
    && t.checks[|s.checks|].tenant == tenant
    && (t.checks[|s.checks|].passed <==> !end.Refused? || end.error.UnknownModel?)
  }

  lemma RoundShape(cfg: Settings, w: World, s: State, tenant: nat, ask: Ask, model: string) returns (n: nat)
    ensures var (t, end) := Round(cfg, w, s, tenant, ask, model);
            RoundAdds(cfg, s, t, end, tenant, IdOf(ask, model), n)
  {
    var (t, end) := Round(cfg, w, s, tenant, ask, model);
    n := |t.calls| - |s.calls|;
    assert s.calls + Repeated(IdOf(ask, model), 0) == s.calls;
  }

  /** What a whole call adds: first m times its request, then n times the same for the fallback model, each at
      most 1 + retries times; every passed check has its ledger row unless its model was unknown; a row
      reports success exactly when it belongs to the answer that is returned. */
  ghost predicate CallAdds(cfg: Settings, s: State, t: State, r: Result<Answer, Error>, id: Identity, m: nat, n: nat,
                            rounds: nat) {
    && m <= 1 + cfg.retries && n <= 1 + cfg.retries
    && t.calls == s.calls + Repeated(id, m) + Repeated(id.(model := cfg.fallback), n)
    && |t.ledger| >= |s.ledger| && t.ledger[..|s.ledger|] == s.ledger
    && |t.ledger| + Passed(s.checks) + (if r == Err(UnknownModel) then 1 else 0) == |s.ledger| + Passed(t.checks)
    && |s.checks| <= |t.checks| <= |s.checks| + rounds && t.checks[..|s.checks|] == s.checks
    && (forall i :: |s.ledger| <= i < |t.ledger| ==> (t.ledger[i].success <==> r.Ok? && i == |t.ledger| - 1))
    && (r.Ok? ==> |t.ledger| > |s.ledger| && var row := t.ledger[|t.ledger| - 1];
                  row.model == r.value.model && row.provider == r.value.provider && row.hit == r.value.cached)
  }

  /** The request an ask makes of its model. */
  function ChosenId(cfg: Settings, ask: Ask): Identity {
    match Prepared(cfg, ask)
    case Err(_) => Identity("", "", "", [])
    case Ok(a) => IdOf(a, a.model)
  }

  lemma PassedOneMore(a: seq<Check>, b: seq<Check>)
    requires |b| == |a| + 1 && b[..|a|] == a
    ensures Passed(b) == Passed(a) + if b[|a|].passed then 1 else 0
  {}

  lemma NoCalls(calls: seq<Identity>, id: Identity)
    ensures calls + Repeated(id, 0) == calls
  {}

  /** A failed round followed by the call for the fallback model. */
  lemma FallbackAdds(cfg: Settings, s: State, t: State, u: State, r: Result<Answer, Error>, tenant: nat, id: Identity,
                     m: nat, again: Identity, n: nat)
    requires RoundAdds(cfg, s, t, Failed, tenant, id, m)
    requires CallAdds(cfg, t, u, r, again, n, 0, 1) && (again == id.(model := cfg.fallback) || n == 0)
    ensures CallAdds(cfg, s, u, r, id, m, n, 2)
  {
    PassedOneMore(s.checks, t.checks);
    assert Repeated(again, n) == Repeated(id.(model := cfg.fallback), n);
    NoCalls(t.calls + Repeated(again, n), again.(model := cfg.fallback));
    assert u.ledger[..|s.ledger|] == u.ledger[..|t.ledger|][..|s.ledger|];
    assert u.ledger[|s.ledger|] == u.ledger[..|t.ledger|][|s.ledger|];
    assert u.checks[..|s.checks|] == u.checks[..|t.checks|][..|s.checks|];
  }

  lemma OneRoundAdds(cfg: Settings, s: State, t: State, end: End, tenant: nat, id: Identity, m: nat)
    requires RoundAdds(cfg, s, t, end, tenant, id, m)
    ensures end.Failed? ==> CallAdds(cfg, s, t, Err(Conflict), id, m, 0, 1)
    ensures end.Refused? ==> CallAdds(cfg, s, t, Err(end.error), id, m, 0, 1)
    ensures end.Answered? ==> CallAdds(cfg, s, t, Ok(end.answer), id, m, 0, 1)
  {
    PassedOneMore(s.checks, t.checks);
    NoCalls(t.calls, id.(model := cfg.fallback));
  }

  lemma {:induction false} GenerateShape(cfg: Settings, w: World, s: State, ask: Ask) returns (m: nat, n: nat)
    ensures var (t, r) := Generated(cfg, w, s, ask);
            CallAdds(cfg, s, t, r, ChosenId(cfg, ask), m, n, 1 + Rank(cfg, ask))
    ensures Rank(cfg, ask) == 0 ==> n == 0
    ensures Prepared(cfg, ask).Err? ==> m == 0
    decreases Rank(cfg, ask)
  {
    m, n := 0, 0;
    var prepared := Prepared(cfg, ask);
    var id := ChosenId(cfg, ask);
    if prepared.Err? {
      NoCalls(s.calls, id);
      NoCalls(s.calls, id.(model := cfg.fallback));
    } else {
      var a := prepared.value;
      m := RoundShape(cfg, w, s, a.tenant.value, a, a.model);
      var (t, end) := Round(cfg, w, s, a.tenant.value, a, a.model);
      OneRoundAdds(cfg, s, t, end, a.tenant.value, id, m);
      if end.Failed? && cfg.fallback != "" && cfg.fallback != a.model {
        var again := a.(model := cfg.fallback);
        assert Rank(cfg, again) == 0 && a.prompt == None;
        var zero: nat;
        n, zero := GenerateShape(cfg, w, t, again);
        var (u, r) := Generated(cfg, w, t, again);
        FallbackAdds(cfg, s, t, u, r, a.tenant.value, id, m, ChosenId(cfg, again), n);
      }
    }
  }

  /** One call makes at most 2 x (1 + retries) provider calls, of the same texts and images and of at most two
      models: the chosen one and the fallback. */
  lemma CallsBounded(cfg: Settings, w: World, s: State, ask: Ask)
    ensures var t := Generated(cfg, w, s, ask).0;
            && s.calls <= t.calls && |t.calls| - |s.calls| <= 2 * (1 + cfg.retries)
            && match Prepared(cfg, ask)
               case Err(_) => t == s
               case Ok(a) =>
                 forall i :: |s.calls| <= i < |t.calls| ==>
                   t.calls[i] == Identity(a.model, a.system, a.user, a.images) ||
                   t.calls[i] == Identity(cfg.fallback, a.system, a.user, a.images)
  {
    var m, n := GenerateShape(cfg, w, s, ask);
  }

  /* ---- what the answer is ---- */

  /** The last provider call was answered with this text, model and provider, and the last ledger row has its
      token counts. */
  ghost predicate FromReply(w: World, t: State, answer: Answer) {
    && t.calls != [] && t.ledger != []
    && match w.reply(|t.calls| - 1)
       case Failure(_) => false
       case Text(text, model, provider, i, o) =>
         && answer == Answer(text, model, provider, false)
         && t.ledger[|t.ledger| - 1] == Usage(t.ledger[|t.ledger| - 1].tenant, model, provider, false, true, i, o)
  }

  lemma RoundAnswersReply(cfg: Settings, w: World, s: State, tenant: nat, ask: Ask, model: string)
    ensures var (t, end) := Round(cfg, w, s, tenant, ask, model);
            end.Answered? && !end.answer.cached ==> FromReply(w, t, end.answer)
  {
    var n := Tries(w, |s.calls|, 1 + cfg.retries);
    assert |Repeated(IdOf(ask, model), n)| == n;
  }

  /** An answer that is not from the cache is the provider's last reply, with the tokens of that reply in the
      ledger. */
  lemma {:induction false} AnswerIsReply(cfg: Settings, w: World, s: State, ask: Ask)
    ensures var (t, r) := Generated(cfg, w, s, ask); r.Ok? && !r.value.cached ==> FromReply(w, t, r.value)
    decreases Rank(cfg, ask)
  {
    var prepared := Prepared(cfg, ask);
    if prepared.Ok? {
      var a := prepared.value;
      RoundAnswersReply(cfg, w, s, a.tenant.value, a, a.model);
      var (t, end) := Round(cfg, w, s, a.tenant.value, a, a.model);
      if end.Failed? && cfg.fallback != "" && cfg.fallback != a.model {
        AnswerIsReply(cfg, w, t, a.(model := cfg.fallback));
      }
    }
  }

  /** An answer from the cache was live under the request's key, was allowed by the ask, and costs no tokens. */
  lemma CachedRound(cfg: Settings, w: World, s: State, tenant: nat, ask: Ask, model: string)
    ensures var (t, end) := Round(cfg, w, s, tenant, ask, model);
            var key := KeyOf(cfg, IdOf(ask, model));
            (end.Answered? && end.answer.cached <==>
               ask.ttl > 0 && !end.Refused? && key in s.cache && w.clock(|s.checks|) < s.cache[key].expires) &&
            (end.Answered? && end.answer.cached ==>
               end.answer == Answer(s.cache[key].text, model, cfg.models[model], true) && t.cache == s.cache &&
               t.ledger == s.ledger + [Usage(tenant, model, cfg.models[model], true, true, 0, 0)])
  {
    assert Enforce(cfg, w, s, tenant).0.cache == s.cache && Enforce(cfg, w, s, tenant).0.ledger == s.ledger;
  }

  /** A round is refused exactly when the rate check says so or the model is not known. */
  lemma RefusedRound(cfg: Settings, w: World, s: State, tenant: nat, ask: Ask, model: string)
    ensures var end := Round(cfg, w, s, tenant, ask, model).1;
            && (end == Refused(RateLimited) <==> !Enforce(cfg, w, s, tenant).1)
            && (end == Refused(UnknownModel) <==> Enforce(cfg, w, s, tenant).1 && model !in cfg.models)
            && (end.Refused? ==> end.error.RateLimited? || end.error.UnknownModel?)
  {}

  /** The model that is asked: the caller's, or the prompt's hint, or the default; with a prompt its texts
      replace the caller's; nothing is asked without a tenant, with a broken prompt or without a text. */
  lemma PreparedSays(cfg: Settings, ask: Ask)
    ensures Prepared(cfg, ask).Ok? <==>
              ask.tenant.Some? && ask.prompt != Some(Broken) && (ask.prompt.None? ==> ask.user != "")
    ensures Prepared(cfg, ask) == Err(BadPrompt) <==> ask.tenant.Some? && ask.prompt == Some(Broken)
    ensures Prepared(cfg, ask).Ok? ==>
              var a := Prepared(cfg, ask).value;
              && a.tenant == ask.tenant && a.ttl == ask.ttl && a.images == ask.images && a.prompt.None?
              && (ask.prompt.Some? ==> a.system == ask.prompt.value.system && a.user == ask.prompt.value.user)
              && (ask.prompt.None? ==> a.system == ask.system && a.user == ask.user)
              && (ask.model != "" ==> a.model == ask.model)
              && (ask.model == "" && ask.prompt.Some? && ask.prompt.value.hint != "" ==>
                    a.model == ask.prompt.value.hint)
              && (ask.model == "" && (ask.prompt.None? || ask.prompt.value.hint == "") ==> a.model == cfg.standard)
  {}

  /** A failed model with another fallback and a text to hand on is followed by a round of the fallback, and
      the call ends as that round does. */
  lemma FallsBack(cfg: Settings, w: World, s: State, ask: Ask)
    requires Prepared(cfg, ask).Ok?
    ensures var a := Prepared(cfg, ask).value;
            var (t, end) := Round(cfg, w, s, a.tenant.value, a, a.model);
            var second := Round(cfg, w, t, a.tenant.value, a.(model := cfg.fallback), cfg.fallback);
            && (end.Answered? ==> Generated(cfg, w, s, ask) == (t, Ok(end.answer)))
            && (end.Refused? ==> Generated(cfg, w, s, ask) == (t, Err(end.error)))
            && (end.Failed? && cfg.fallback != "" && cfg.fallback != a.model && a.user != "" ==>
                  Generated(cfg, w, s, ask).0 == second.0 &&
                  (second.1.Answered? ==> Generated(cfg, w, s, ask).1 == Ok(second.1.answer)))
  {
    var a := Prepared(cfg, ask).value;
    var (t, end) := Round(cfg, w, s, a.tenant.value, a, a.model);
    var again := a.(model := cfg.fallback);
    if end.Failed? && cfg.fallback != "" && cfg.fallback != a.model && a.user != "" {
      assert Prepared(cfg, again) == Ok(again);
      assert Generated(cfg, w, s, ask) == Generated(cfg, w, t, again);
    }
  }

  /** The round is let through, its model is known, no cached text answers it, and its replies make it give
      up. */
  ghost predicate Fails(cfg: Settings, w: World, s: State, tenant: nat, ask: Ask, model: string) {
    && Enforce(cfg, w, s, tenant).1 && model in cfg.models
    && (ask.ttl > 0 ==> Lookup(s, KeyOf(cfg, IdOf(ask, model)), w.clock(|s.checks|)).None?)
    && GivesUp(w, |s.calls|, 1 + cfg.retries)
  }

  lemma RoundFailsIff(cfg: Settings, w: World, s: State, tenant: nat, ask: Ask, model: string)
    ensures Round(cfg, w, s, tenant, ask, model).1.Failed? <==> Fails(cfg, w, s, tenant, ask, model)
  {
    LastReplyFails(w, |s.calls|, 1 + cfg.retries);
    var s1 := Enforce(cfg, w, s, tenant).0;
    assert s1.calls == s.calls && s1.cache == s.cache;
  }

  /** An accepted call gives up with a conflict exactly when the provider's replies make its model fail, and
      there is no other fallback, or the prompt rendered no user text to hand on, or the replies after those
      make the fallback fail too. */
  lemma GivesUpIff(cfg: Settings, w: World, s: State, ask: Ask)
    requires Prepared(cfg, ask).Ok?
    ensures var a := Prepared(cfg, ask).value;
            var t := Round(cfg, w, s, a.tenant.value, a, a.model).0;
            Generated(cfg, w, s, ask).1 == Err(Conflict) <==>
              Fails(cfg, w, s, a.tenant.value, a, a.model) &&
              (cfg.fallback == "" || cfg.fallback == a.model || a.user == "" ||
               Fails(cfg, w, t, a.tenant.value, a.(model := cfg.fallback), cfg.fallback))
  {
    var a := Prepared(cfg, ask).value;
    var (t, end) := Round(cfg, w, s, a.tenant.value, a, a.model);
    var again := a.(model := cfg.fallback);
    RoundFailsIff(cfg, w, s, a.tenant.value, a, a.model);
    RoundFailsIff(cfg, w, t, a.tenant.value, again, cfg.fallback);
    if end.Failed? && cfg.fallback != "" && cfg.fallback != a.model {
      assert Generated(cfg, w, s, ask) == Generated(cfg, w, t, again);
      assert a.user != "" ==> Prepared(cfg, again) == Ok(again);
    }
  }

  /* ---- whole histories ---- */

  function Run(cfg: Settings, w: World, asks: seq<Ask>): State {
    if asks == [] then State(map[], map[], [], [], [], [])
    else Generated(cfg, w, Run(cfg, w, asks[..|asks| - 1]), asks[|asks| - 1]).0
  }

  /** How many calls of a history ended over an unknown model. */
  function Unknowns(cfg: Settings, w: World, asks: seq<Ask>): nat {
    if asks == [] then 0
    else
      var most := asks[..|asks| - 1];
      Unknowns(cfg, w, most) +
      if Generated(cfg, w, Run(cfg, w, most), asks[|asks| - 1]).1 == Err(UnknownModel) then 1 else 0
  }

  /** Over any history, fallback rounds included: the ledger holds one row for each round that was let
      through with a known model, whether it hit the cache, answered or failed. */
  lemma {:induction false} LedgerAccounts(cfg: Settings, w: World, asks: seq<Ask>)
    ensures |Run(cfg, w, asks).ledger| + Unknowns(cfg, w, asks) == Passed(Run(cfg, w, asks).checks)
  {
    if asks != [] {
      var most := asks[..|asks| - 1];
      LedgerAccounts(cfg, w, most);
      var m, n := GenerateShape(cfg, w, Run(cfg, w, most), asks[|asks| - 1]);
    }
  }

  function PassedIn(checks: seq<Check>, tenant: nat, window: int): nat {
    if checks == [] then 0
    else
      var c := checks[|checks| - 1];
      PassedIn(checks[..|checks| - 1], tenant, window) +
      if c.passed && c.tenant == tenant && c.window == window then 1 else 0
  }

  /** The checks of a tenant in an hour. */
  function ChecksIn(checks: seq<Check>, tenant: nat, window: int): nat {
    if checks == [] then 0
    else
      var c := checks[|checks| - 1];
      ChecksIn(checks[..|checks| - 1], tenant, window) + if c.tenant == tenant && c.window == window then 1 else 0
  }

  /** The counter of a tenant's hour outlives that hour and counts its checks, and of those the first ones
      have passed, up to the limit. */
  ghost predicate Metered(cfg: Settings, s: State) {
    && (forall key :: key in s.rates ==> s.rates[key].count >= 1 && s.rates[key].expires >= (key.1 + 1) * HOUR)
    && (forall tenant: nat, window: int :: MeteredIn(cfg, s, tenant, window))
  }

  ghost predicate MeteredIn(cfg: Settings, s: State, tenant: nat, window: int) {
    && ChecksIn(s.checks, tenant, window) ==
       (if (tenant, window) in s.rates then s.rates[(tenant, window)].count else 0)
    && PassedIn(s.checks, tenant, window) == Min(ChecksIn(s.checks, tenant, window), cfg.limit)
  }

  lemma EnforceMetered(cfg: Settings, w: World, s: State, tenant: nat)
    requires cfg.limit >= 1 && Metered(cfg, s)
    ensures Metered(cfg, Enforce(cfg, w, s, tenant).0)
  {
    var t := Enforce(cfg, w, s, tenant).0;
    var now := w.clock(|s.checks|);
    var key := (tenant, Window(now));
    assert now < (Window(now) + 1) * HOUR <= now + HOUR;
    assert key in s.rates ==> s.rates[key].expires > now;
    forall x: nat, y: int
      ensures MeteredIn(cfg, t, x, y)
    {
      assert MeteredIn(cfg, s, x, y);
      assert t.checks[..|s.checks|] == s.checks;
    }
  }

  lemma RoundMetered(cfg: Settings, w: World, s: State, tenant: nat, ask: Ask, model: string)
    requires cfg.limit >= 1 && Metered(cfg, s)
    ensures Metered(cfg, Round(cfg, w, s, tenant, ask, model).0)
  {
    EnforceMetered(cfg, w, s, tenant);
    var s1, t := Enforce(cfg, w, s, tenant).0, Round(cfg, w, s, tenant, ask, model).0;
    assert t.rates == s1.rates && t.checks == s1.checks;
    forall x: nat, y: int
      ensures MeteredIn(cfg, t, x, y)
    {
      assert MeteredIn(cfg, s1, x, y);
    }
  }

  lemma {:induction false} GenerateMetered(cfg: Settings, w: World, s: State, ask: Ask)
    requires cfg.limit >= 1 && Metered(cfg, s)
    ensures Metered(cfg, Generated(cfg, w, s, ask).0)
    decreases Rank(cfg, ask)
  {
    var prepared := Prepared(cfg, ask);
    if prepared.Ok? {
      var a := prepared.value;
      RoundMetered(cfg, w, s, a.tenant.value, a, a.model);
      var (t, end) := Round(cfg, w, s, a.tenant.value, a, a.model);
      if end.Failed? && cfg.fallback != "" && cfg.fallback != a.model {
        GenerateMetered(cfg, w, t, a.(model := cfg.fallback));
      }
    }
  }

  lemma {:induction false} AlwaysMetered(cfg: Settings, w: World, asks: seq<Ask>)
    requires cfg.limit >= 1
    ensures Metered(cfg, Run(cfg, w, asks))
  {
    if asks != [] {
      AlwaysMetered(cfg, w, asks[..|asks| - 1]);
      GenerateMetered(cfg, w, Run(cfg, w, asks[..|asks| - 1]), asks[|asks| - 1]);
    }
  }

  /** With a positive limit, exactly the first that many checks of a tenant in one hour pass, fallback rounds
      counted, however the clock moves. */
  lemma RateLimitHolds(cfg: Settings, w: World, asks: seq<Ask>, tenant: nat, window: int)
    requires cfg.limit >= 1
    ensures var checks := Run(cfg, w, asks).checks;
            PassedIn(checks, tenant, window) == Min(ChecksIn(checks, tenant, window), cfg.limit)
  {
    AlwaysMetered(cfg, w, asks);
    assert MeteredIn(cfg, Run(cfg, w, asks), tenant, window);
  }

  /** Every check is in the hour of its time, and without a positive limit every one passes. */
  ghost predicate ChecksTimed(cfg: Settings, w: World, checks: seq<Check>) {
    forall i :: 0 <= i < |checks| ==>
      checks[i].window * 3600 <= w.clock(i) < (checks[i].window + 1) * 3600 && (cfg.limit <= 0 ==> checks[i].passed)
  }

  lemma RoundTimed(cfg: Settings, w: World, s: State, tenant: nat, ask: Ask, model: string)
    requires ChecksTimed(cfg, w, s.checks)
    ensures ChecksTimed(cfg, w, Round(cfg, w, s, tenant, ask, model).0.checks)
  {
    var now := w.clock(|s.checks|);
    assert Window(now) * 3600 <= now < (Window(now) + 1) * 3600;
    assert Round(cfg, w, s, tenant, ask, model).0.checks == Enforce(cfg, w, s, tenant).0.checks;
  }

  lemma {:induction false} GenerateTimed(cfg: Settings, w: World, s: State, ask: Ask)
    requires ChecksTimed(cfg, w, s.checks)
    ensures ChecksTimed(cfg, w, Generated(cfg, w, s, ask).0.checks)
    decreases Rank(cfg, ask)
  {
    var prepared := Prepared(cfg, ask);
    if prepared.Ok? {
      var a := prepared.value;
      RoundTimed(cfg, w, s, a.tenant.value, a, a.model);
      var (t, end) := Round(cfg, w, s, a.tenant.value, a, a.model);
      if end.Failed? && cfg.fallback != "" && cfg.fallback != a.model {
        GenerateTimed(cfg, w, t, a.(model := cfg.fallback));
      }
    }
  }

  lemma {:induction false} AlwaysTimed(cfg: Settings, w: World, asks: seq<Ask>)
    ensures ChecksTimed(cfg, w, Run(cfg, w, asks).checks)
  {
    if asks != [] {
      AlwaysTimed(cfg, w, asks[..|asks| - 1]);
      GenerateTimed(cfg, w, Run(cfg, w, asks[..|asks| - 1]), asks[|asks| - 1]);
    }
  }

  /* ---- the check under several processes at once ---- */

  /** One hour's counter, 0 while the key is absent; the processes whose add failed and that are about to
      increment; and how many have passed. */
  datatype Gate = Gate(count: int, waiting: set<nat>, passes: int)

  datatype GateOp = Add(p: nat) | Incr(p: nat)

  function GateStep(limit: int, g: Gate, op: GateOp): Gate {
    match op
    case Add(p) =>
      if p in g.waiting then g
      else if g.count == 0 then g.(count := 1, passes := g.passes + 1)
      else g.(waiting := g.waiting + {p})
    case Incr(p) =>
      if p !in g.waiting then g
      else
        Gate(g.count + 1, g.waiting - {p}, if g.count + 1 <= limit then g.passes + 1 else g.passes)
  }

  function GateRun(limit: int, ops: seq<GateOp>): Gate {
    if ops == [] then Gate(0, {}, 0) else GateStep(limit, GateRun(limit, ops[..|ops| - 1]), ops[|ops| - 1])
  }

  /** How many checks have begun: adds of processes that are not still waiting to increment. */
  function Arrivals(limit: int, ops: seq<GateOp>): nat {
    if ops == [] then 0
    else
      var most, op := ops[..|ops| - 1], ops[|ops| - 1];
      Arrivals(limit, most) + if op.Add? && op.p !in GateRun(limit, most).waiting then 1 else 0
  }

  /** However the adds and increments of several processes interleave, every check that has begun has counted
      or is about to, and exactly the first `limit` of those that have counted have passed. */
  lemma {:induction false} RacingPasses(limit: int, ops: seq<GateOp>)
    requires limit >= 1
    ensures var g := GateRun(limit, ops);
            && g.count + |g.waiting| == Arrivals(limit, ops)
            && g.count >= 0 && g.passes == Min(g.count, limit) && (g.waiting != {} ==> g.count >= 1)
  {
    if ops != [] {
      RacingPasses(limit, ops[..|ops| - 1]);
    }
  }
}
