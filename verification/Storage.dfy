/** Stored files: the table of rows against the byte store (platform/storage/services.py). The digest is
    any function of the bytes; a generated key comes in as a parameter. */
module Storage {
  import opened Wrappers
  import opened StorageKeys

  type Bytes = seq<bv8>

  /** A row of the table. Deleting a file marks its row; the key stays taken. */
  datatype StoredFile = StoredFile(tenant: nat, key: string, sha: string, size: nat, live: bool)

  datatype Error = Conflict | Invalid | NoName | KeyTaken | Missing

  datatype Settings = Settings(maxBytes: nat, allowed: set<string>, verifyContent: bool)

  /** What the caller hands in; the last two say what content inspection finds. A limit of 0 and an empty
      allow-list stand for the defaults. */
  datatype Upload = Upload(data: Bytes, tenant: Option<nat>, key: Option<string>, contentType: string,
                           maxBytes: nat, allowed: set<string>, executable: bool, matchesType: bool)

  datatype Disk = Disk(bytes: map<string, Bytes>, rows: seq<StoredFile>)

  const MAX_DEDUPE_ATTEMPTS: nat := 100

  /** The default manager: live rows, of the current tenant when there is one. */
  predicate Seen(row: StoredFile, current: Option<nat>) {
    row.live && (current.Some? ==> row.tenant == current.value)
  }

  predicate Taken(rows: seq<StoredFile>, current: Option<nat>, key: string) {
    exists i :: 0 <= i < |rows| && Seen(rows[i], current) && rows[i].key == key
  }

  /** The unique constraint on the key covers every row. */
  predicate InTable(rows: seq<StoredFile>, key: string) {
    exists i :: 0 <= i < |rows| && rows[i].key == key
  }

  function FirstFree(rows: seq<StoredFile>, current: Option<nat>, key: string, n: nat): Result<string, Error>
    decreases MAX_DEDUPE_ATTEMPTS + 2 - n
  {
    if n >= MAX_DEDUPE_ATTEMPTS + 2 then Err(Conflict)
    else if !Taken(rows, current, Candidate(key, n)) then Ok(Candidate(key, n))
    else FirstFree(rows, current, key, n + 1)
  }

  function DedupeKey(rows: seq<StoredFile>, current: Option<nat>, key: string): Result<string, Error> {
    if !Taken(rows, current, key) then Ok(key)
    else if Parts(key) == [] then Err(NoName)
    else FirstFree(rows, current, key, 2)
  }

  function Unacceptable(cfg: Settings, u: Upload): bool {
    || u.data == []
    || |u.data| > (if u.maxBytes > 0 then u.maxBytes else cfg.maxBytes)
    || u.contentType !in (if u.allowed != {} then u.allowed else cfg.allowed)
    || (cfg.verifyContent && (u.executable || !u.matchesType))
  }

  /** The key an upload is put under, or why it is refused before anything is written. */
  function FinalKey(cfg: Settings, rows: seq<StoredFile>, current: Option<nat>, u: Upload, generated: string)
    : Result<string, Error>
  {
    if u.tenant.None? && current.None? then Err(Conflict)
    else if Unacceptable(cfg, u) then Err(Invalid)
    else if u.key.None? then Ok(generated)
    else DedupeKey(rows, current, u.key.value)
  }

  /** The bytes are put first; a key the table already has is refused only after that. */
  function Store(sha: Bytes -> string, cfg: Settings, d: Disk, current: Option<nat>, u: Upload, generated: string)
    : (Disk, Result<nat, Error>)
  {
    match FinalKey(cfg, d.rows, current, u, generated)
    case Err(e) => (d, Err(e))
    case Ok(key) =>
      var bytes := d.bytes[key := u.data];
      if InTable(d.rows, key) then (Disk(bytes, d.rows), Err(KeyTaken))
      else
        var tenant := if u.tenant.Some? then u.tenant.value else current.value;
        (Disk(bytes, d.rows + [StoredFile(tenant, key, sha(u.data), |u.data|, true)]), Ok(|d.rows|))
  }

  function Delete(d: Disk, id: nat): Disk
    requires id < |d.rows|
  {
    Disk(d.bytes - {d.rows[id].key}, d.rows[id := d.rows[id].(live := false)])
  }

  class StorageService {
    const sha: Bytes -> string
    const cfg: Settings
    var disk: Disk

    constructor (sha: Bytes -> string, cfg: Settings)
      ensures this.sha == sha && this.cfg == cfg && disk == Disk(map[], [])
    {
      this.sha, this.cfg := sha, cfg;
      disk := Disk(map[], []);
    }

    method Dedupe(current: Option<nat>, key: string) returns (r: Result<string, Error>)
      ensures r == DedupeKey(disk.rows, current, key)
    {
      if !Taken(disk.rows, current, key) {
        return Ok(key);
      }
      if Parts(key) == [] {
        return Err(NoName);
      }
      for attempt := 2 to MAX_DEDUPE_ATTEMPTS + 2
        invariant FirstFree(disk.rows, current, key, 2) == FirstFree(disk.rows, current, key, attempt)
      {
        var candidate := Candidate(key, attempt);
        if !Taken(disk.rows, current, candidate) {
          return Ok(candidate);
        }
      }
      return Err(Conflict);
    }

    method StoreFile(current: Option<nat>, u: Upload, generated: string) returns (r: Result<nat, Error>)
      modifies this
      ensures (disk, r) == Store(sha, cfg, old(disk), current, u, generated)
    {
      var tenant := if u.tenant.Some? then u.tenant else current;
      if tenant.None? {
        return Err(Conflict);
      }
      var limit := if u.maxBytes > 0 then u.maxBytes else cfg.maxBytes;
      if u.data == [] || |u.data| > limit {
        return Err(Invalid);
      }
      var permitted := if u.allowed != {} then u.allowed else cfg.allowed;
      if u.contentType !in permitted {
        return Err(Invalid);
      }
      if cfg.verifyContent {
        if u.executable {
          return Err(Invalid);
        }
        if !u.matchesType {
          return Err(Invalid);
        }
      }
      var digest := sha(u.data);
      var key := generated;
      if u.key.Some? {
        var deduped := Dedupe(current, u.key.value);
        if deduped.Err? {
          return Err(deduped.error);
        }
        key := deduped.value;
      }
      disk := disk.(bytes := disk.bytes[key := u.data]);
      if InTable(disk.rows, key) {
        return Err(KeyTaken);
      }
      disk := disk.(rows := disk.rows + [StoredFile(tenant.value, key, digest, |u.data|, true)]);
      return Ok(|disk.rows| - 1);
    }

    method DeleteFile(id: nat)
      requires id < |disk.rows|
      modifies this
      ensures disk == Delete(old(disk), id)
    {
      disk := disk.(bytes := disk.bytes - {disk.rows[id].key});
      disk := disk.(rows := disk.rows[id := disk.rows[id].(live := false)]);
    }

    method VerifyIntegrity(id: nat) returns (r: Result<bool, Error>)
      requires id < |disk.rows|
      ensures r == Err(Missing) <==> disk.rows[id].key !in disk.bytes
      ensures r == Ok(true) <==> Matches(sha, disk, id)
      ensures r == Ok(false) ==> forall data: Bytes :: sha(data) == disk.rows[id].sha ==>
          disk.bytes[disk.rows[id].key] != data
      ensures r.Ok? || r.error.Missing?
      ensures Intact(sha, disk) && disk.rows[id].live ==> r == Ok(true)
    {
      var key := disk.rows[id].key;
      if key !in disk.bytes {
        return Err(Missing);
      }
      return Ok(sha(disk.bytes[key]) == disk.rows[id].sha);
    }
  }

  /* ---- what deduplication promises ---- */

  ghost predicate TakenUpTo(rows: seq<StoredFile>, current: Option<nat>, key: string, n: nat, m: nat) {
    forall j: nat :: n <= j < m ==> Taken(rows, current, Candidate(key, j))
  }

  lemma TakenOneMore(rows: seq<StoredFile>, current: Option<nat>, key: string, n: nat, m: nat)
    requires n < m && Taken(rows, current, Candidate(key, n)) && TakenUpTo(rows, current, key, n + 1, m)
    ensures TakenUpTo(rows, current, key, n, m)
  {
    forall j: nat | n <= j < m ensures Taken(rows, current, Candidate(key, j)) {}
  }

  /** The search stops at the first free candidate, or at the end. */
  lemma {:induction false} FirstFreeShape(rows: seq<StoredFile>, current: Option<nat>, key: string, n: nat)
    returns (m: nat)
    requires n <= MAX_DEDUPE_ATTEMPTS + 2
    ensures n <= m <= MAX_DEDUPE_ATTEMPTS + 2 && TakenUpTo(rows, current, key, n, m)
    ensures m < MAX_DEDUPE_ATTEMPTS + 2 ==>
              FirstFree(rows, current, key, n) == Ok(Candidate(key, m)) && !Taken(rows, current, Candidate(key, m))
    ensures m == MAX_DEDUPE_ATTEMPTS + 2 ==> FirstFree(rows, current, key, n) == Err(Conflict)
    decreases MAX_DEDUPE_ATTEMPTS + 2 - n
  {
    m := n;
    if n < MAX_DEDUPE_ATTEMPTS + 2 {
      var candidate := Candidate(key, n);
      if Taken(rows, current, candidate) {
        m := FirstFreeShape(rows, current, key, n + 1);
        TakenOneMore(rows, current, key, n, m);
      }
    }
  }

  /** A returned key is one no visible live row holds; the call fails exactly when the key is taken and
      either it names nothing or its 100 candidates are taken as well. */
  lemma DedupeContract(rows: seq<StoredFile>, current: Option<nat>, key: string)
    ensures var r := DedupeKey(rows, current, key);
            && (r.Ok? ==> !Taken(rows, current, r.value))
            && (r == Err(Conflict) <==> Parts(key) != [] && Exhausted(rows, current, key))
            && (r == Err(NoName) <==> Parts(key) == [] && Taken(rows, current, key))
            && (r.Err? ==> r.error.Conflict? || r.error.NoName?)
  {
    var m := FirstFreeShape(rows, current, key, 2);
  }

  /** A key that is free is kept. Otherwise the result is the first candidate from 2 on that is free. */
  lemma DedupeTakesFirst(rows: seq<StoredFile>, current: Option<nat>, key: string) returns (m: nat)
    ensures var free := forall i :: 0 <= i < |rows| && rows[i].key == key ==>
                          !rows[i].live || (current.Some? && rows[i].tenant != current.value);
            && (free <==> DedupeKey(rows, current, key) == Ok(key))
            && (!free && DedupeKey(rows, current, key).Ok? ==>
                  && 2 <= m <= 101 && DedupeKey(rows, current, key) == Ok(Candidate(key, m))
                  && TakenUpTo(rows, current, key, 2, m) && !Taken(rows, current, Candidate(key, m)))
  {
    m := FirstFreeShape(rows, current, key, 2);
    CandidateIsNotKey(key, m);
  }

  ghost predicate Exhausted(rows: seq<StoredFile>, current: Option<nat>, key: string) {
    Taken(rows, current, key) && TakenUpTo(rows, current, key, 2, MAX_DEDUPE_ATTEMPTS + 2)
  }

  function Candidates(key: string, n: nat): set<string> {
    if n <= 2 then {} else Candidates(key, n - 1) + {Candidate(key, n - 1)}
  }

  lemma {:induction false} CandidatesCount(key: string, n: nat)
    requires n >= 2
    ensures |Candidates(key, n)| == n - 2
    ensures forall k :: k in Candidates(key, n) ==> exists j: nat :: 2 <= j < n && k == Candidate(key, j)
  {
    if n > 2 {
      CandidatesCount(key, n - 1);
      if Candidate(key, n - 1) in Candidates(key, n - 1) {
        var j: nat :| 2 <= j < n - 1 && Candidate(key, n - 1) == Candidate(key, j);
        CandidatesDistinct(key, n - 1, j);
      }
    }
  }

  function Keys(rows: seq<StoredFile>): set<string> {
    if rows == [] then {} else Keys(rows[..|rows| - 1]) + {rows[|rows| - 1].key}
  }

  lemma {:induction false} KeysBounded(rows: seq<StoredFile>)
    ensures |Keys(rows)| <= |rows|
    ensures forall i :: 0 <= i < |rows| ==> rows[i].key in Keys(rows)
  {
    if rows != [] {
      KeysBounded(rows[..|rows| - 1]);
    }
  }

  lemma CandidateIsTaken(rows: seq<StoredFile>, current: Option<nat>, key: string, n: nat, k: string)
    requires n >= 2 && TakenUpTo(rows, current, key, 2, n)
    requires k in Candidates(key, n)
    ensures k in Keys(rows) && k != key
  {
    CandidatesCount(key, n);
    var j: nat :| 2 <= j < n && k == Candidate(key, j);
    CandidateIsNotKey(key, j);
    TakenIsKey(rows, current, k);
  }

  lemma CandidatesAreTaken(rows: seq<StoredFile>, current: Option<nat>, key: string, n: nat)
    requires n >= 2 && TakenUpTo(rows, current, key, 2, n)
    ensures Candidates(key, n) <= Keys(rows) && key !in Candidates(key, n)
  {
    forall k | k in Candidates(key, n) ensures k in Keys(rows) && k != key {
      CandidateIsTaken(rows, current, key, n, k);
    }
  }

  lemma OneMore(a: set<string>, x: string, b: set<string>)
    requires a <= b && x in b && x !in a
    ensures |b| >= |a| + 1
  {
    SubsetSize(a + {x}, b);
  }

  lemma TakenNeedsRows(rows: seq<StoredFile>, current: Option<nat>, key: string, n: nat)
    requires n >= 2 && Taken(rows, current, key) && TakenUpTo(rows, current, key, 2, n)
    ensures |rows| >= n - 1
  {
    CandidatesAreTaken(rows, current, key, n);
    TakenIsKey(rows, current, key);
    OneMore(Candidates(key, n), key, Keys(rows));
    CandidatesCount(key, n);
    KeysBounded(rows);
  }

  /** Deduplication gives up only over a table of at least 101 rows. */
  lemma GivingUpNeedsManyRows(rows: seq<StoredFile>, current: Option<nat>, key: string)
    requires DedupeKey(rows, current, key) == Err(Conflict)
    ensures |rows| >= MAX_DEDUPE_ATTEMPTS + 1
  {
    DedupeContract(rows, current, key);
    TakenNeedsRows(rows, current, key, MAX_DEDUPE_ATTEMPTS + 2);
  }

  lemma TakenIsKey(rows: seq<StoredFile>, current: Option<nat>, key: string)
    requires Taken(rows, current, key)
    ensures key in Keys(rows)
  {
    KeysBounded(rows);
  }

  /* ---- what the operations leave behind ---- */

  /** An upload is refused for having no tenant, then for its data, size, type or content, and in these cases
      writes nothing. */
  lemma RefusedUpload(sha: Bytes -> string, cfg: Settings, d: Disk, current: Option<nat>, u: Upload,
                      generated: string)
    ensures var limit := if u.maxBytes != 0 then u.maxBytes else cfg.maxBytes;
            var types := if u.allowed == {} then cfg.allowed else u.allowed;
            var bad := |u.data| == 0 || limit < |u.data| || !(u.contentType in types) ||
                       (cfg.verifyContent && u.executable) || (cfg.verifyContent && !u.matchesType);
            var homeless := u.tenant == None && current == None;
            && (homeless ==> Store(sha, cfg, d, current, u, generated) == (d, Err(Conflict)))
            && (!homeless && bad ==> Store(sha, cfg, d, current, u, generated) == (d, Err(Invalid)))
            && (!homeless && !bad ==>
                  FinalKey(cfg, d.rows, current, u, generated) ==
                  if u.key.None? then Ok(generated) else DedupeKey(d.rows, current, u.key.value))
  {}

  /** Any other upload puts its bytes under its key, whoever has that key, and nowhere else; then a key that some
      row has, live or not, is refused, and otherwise one row is added that says what was stored. */
  lemma StoredUpload(sha: Bytes -> string, cfg: Settings, d: Disk, current: Option<nat>, u: Upload,
                     generated: string, key: string)
    requires FinalKey(cfg, d.rows, current, u, generated) == Ok(key)
    ensures var (t, r) := Store(sha, cfg, d, current, u, generated);
            var clash := exists i :: 0 <= i < |d.rows| && d.rows[i].key == key;
            && key in t.bytes && t.bytes[key] == u.data
            && (forall k :: k != key ==> (k in t.bytes <==> k in d.bytes))
            && (forall k :: k != key && k in d.bytes ==> t.bytes[k] == d.bytes[k])
            && (clash ==> t.rows == d.rows && r == Err(KeyTaken))
            && (!clash ==>
                  && r == Ok(|d.rows|) && (u.tenant.Some? || current.Some?)
                  && t.rows == d.rows + [StoredFile(if u.tenant.Some? then u.tenant.value else current.value, key,
                                                    sha(u.data), |u.data|, true)])
  {}

  /** A deletion removes the bytes of that file and marks its row; no other bytes and no other row change. */
  lemma DeletedFile(d: Disk, id: nat)
    requires id < |d.rows|
    ensures var t := Delete(d, id);
            var row := d.rows[id];
            && row.key !in t.bytes
            && (forall k :: k != row.key ==> (k in t.bytes <==> k in d.bytes))
            && (forall k :: k != row.key && k in d.bytes ==> t.bytes[k] == d.bytes[k])
            && |t.rows| == |d.rows| && t.rows[id] == StoredFile(row.tenant, row.key, row.sha, row.size, false)
            && forall i :: 0 <= i < |d.rows| && i != id ==> t.rows[i] == d.rows[i]
  {}

  /* ---- bytes and rows stay in step ---- */

  ghost predicate UniqueKeys(rows: seq<StoredFile>) {
    forall i, j :: 0 <= i < j < |rows| ==> rows[i].key != rows[j].key
  }

  /** The row's bytes are there and hash to the digest in the row. */
  ghost predicate Matches(sha: Bytes -> string, d: Disk, i: nat)
    requires i < |d.rows|
  {
    d.rows[i].key in d.bytes && sha(d.bytes[d.rows[i].key]) == d.rows[i].sha
  }

  ghost predicate Intact(sha: Bytes -> string, d: Disk) {
    UniqueKeys(d.rows) && forall i: nat :: i < |d.rows| && d.rows[i].live ==> Matches(sha, d, i)
  }

  ghost predicate HeldLive(rows: seq<StoredFile>, key: string, i: nat) {
    i < |rows| && rows[i].live && rows[i].key == key
  }

  /** The upload is put under a key that some live row holds. */
  ghost predicate Clashes(cfg: Settings, rows: seq<StoredFile>, current: Option<nat>, u: Upload, generated: string,
      i: nat) {
    var k := FinalKey(cfg, rows, current, u, generated);
    k.Ok? && HeldLive(rows, k.value, i)
  }

  lemma UnseenIsForeign(rows: seq<StoredFile>, current: Option<nat>, key: string, i: nat)
    requires !Taken(rows, current, key) && HeldLive(rows, key, i)
    ensures current.Some? && rows[i].tenant != current.value
  {
    assert !Seen(rows[i], current);
  }

  lemma FinalKeyIsFree(cfg: Settings, rows: seq<StoredFile>, current: Option<nat>, u: Upload, generated: string)
    ensures u.key.Some? && FinalKey(cfg, rows, current, u, generated).Ok? ==>
              !Taken(rows, current, FinalKey(cfg, rows, current, u, generated).value)
  {
    if u.key.Some? {
      DedupedIsFree(rows, current, u.key.value);
    }
  }

  lemma DedupedIsFree(rows: seq<StoredFile>, current: Option<nat>, key: string)
    ensures DedupeKey(rows, current, key).Ok? ==> !Taken(rows, current, DedupeKey(rows, current, key).value)
  {
    DedupeContract(rows, current, key);
  }

  /** With a caller's key the row that is overwritten belongs to another tenant than the current one. */
  lemma ClashIsForeign(cfg: Settings, rows: seq<StoredFile>, current: Option<nat>, u: Upload, generated: string, i: nat)
    ensures Clashes(cfg, rows, current, u, generated, i) && u.key.Some? ==>
              current.Some? && rows[i].tenant != current.value
  {
    FinalKeyIsFree(cfg, rows, current, u, generated);
    if Clashes(cfg, rows, current, u, generated, i) && u.key.Some? {
      UnseenIsForeign(rows, current, FinalKey(cfg, rows, current, u, generated).value, i);
    }
  }

  /** A store keeps every live file intact exactly when it does not land on a live row's key with bytes of
      another digest. A creation refused by the unique key is included: its bytes were already put. */
  lemma StoreIntactIff(sha: Bytes -> string, cfg: Settings, d: Disk, current: Option<nat>, u: Upload, generated: string)
    requires Intact(sha, d)
    ensures Intact(sha, Store(sha, cfg, d, current, u, generated).0) <==>
              forall i: nat :: Clashes(cfg, d.rows, current, u, generated, i) ==> sha(u.data) == d.rows[i].sha
  {
    var after := Store(sha, cfg, d, current, u, generated).0;
    var k := FinalKey(cfg, d.rows, current, u, generated);
    if k.Ok? {
      if Intact(sha, after) {
        forall i: nat | Clashes(cfg, d.rows, current, u, generated, i)
          ensures sha(u.data) == d.rows[i].sha
        {
          assert after.rows[i] == d.rows[i] && Matches(sha, after, i);
        }
      }
      if forall i: nat :: Clashes(cfg, d.rows, current, u, generated, i) ==> sha(u.data) == d.rows[i].sha {
        forall i: nat | i < |after.rows| && after.rows[i].live ensures Matches(sha, after, i) {
          assert i < |d.rows| ==> after.rows[i] == d.rows[i] && Matches(sha, d, i);
          if i < |d.rows| && d.rows[i].key == k.value {
            assert Clashes(cfg, d.rows, current, u, generated, i);
          }
        }
      }
    }
  }

  lemma DeleteIntact(sha: Bytes -> string, d: Disk, id: nat)
    requires Intact(sha, d) && id < |d.rows|
    ensures Intact(sha, Delete(d, id))
  {
    var after := Delete(d, id);
    forall i: nat | i < |after.rows| && after.rows[i].live ensures Matches(sha, after, i) {
      assert Matches(sha, d, i) && i != id && d.rows[i].key != d.rows[id].key;
    }
  }

  /* ---- histories ---- */

  datatype Op = StoreOp(current: Option<nat>, upload: Upload, generated: string) | DeleteOp(id: nat)

  function Apply(sha: Bytes -> string, cfg: Settings, d: Disk, op: Op): Disk {
    match op
    case StoreOp(current, u, generated) => Store(sha, cfg, d, current, u, generated).0
    case DeleteOp(id) => if id < |d.rows| then Delete(d, id) else d
  }

  function Run(sha: Bytes -> string, cfg: Settings, ops: seq<Op>): Disk {
    if ops == [] then Disk(map[], []) else Apply(sha, cfg, Run(sha, cfg, ops[..|ops| - 1]), ops[|ops| - 1])
  }

  ghost predicate Clear(cfg: Settings, rows: seq<StoredFile>, op: Op) {
    op.StoreOp? ==> forall i: nat :: !Clashes(cfg, rows, op.current, op.upload, op.generated, i)
  }

  /** No upload lands on a live row's key; creations refused over a deleted row's key may happen. */
  ghost predicate AllClear(sha: Bytes -> string, cfg: Settings, ops: seq<Op>) {
    forall n :: 0 <= n < |ops| ==> Clear(cfg, Run(sha, cfg, ops[..n]).rows, ops[n])
  }

  lemma ClearPrefix(sha: Bytes -> string, cfg: Settings, ops: seq<Op>)
    requires ops != [] && AllClear(sha, cfg, ops)
    ensures AllClear(sha, cfg, ops[..|ops| - 1])
    ensures Clear(cfg, Run(sha, cfg, ops[..|ops| - 1]).rows, ops[|ops| - 1])
  {
    var most := ops[..|ops| - 1];
    forall n | 0 <= n < |most| ensures Clear(cfg, Run(sha, cfg, most[..n]).rows, most[n]) {
      assert most[..n] == ops[..n];
    }
  }

  lemma {:induction false} AlwaysIntact(sha: Bytes -> string, cfg: Settings, ops: seq<Op>)
    requires AllClear(sha, cfg, ops)
    ensures Intact(sha, Run(sha, cfg, ops))
  {
    if ops != [] {
      ClearPrefix(sha, cfg, ops);
      AlwaysIntact(sha, cfg, ops[..|ops| - 1]);
      var d, op := Run(sha, cfg, ops[..|ops| - 1]), ops[|ops| - 1];
      match op
      case StoreOp(current, u, generated) => StoreIntactIff(sha, cfg, d, current, u, generated);
      case DeleteOp(id) =>
        if id < |d.rows| {
          DeleteIntact(sha, d, id);
        }
    }
  }

  /** A step that is clear leaves the bytes of every row still live after it, and only deletes mark rows. */
  lemma StepKeepsBytes(sha: Bytes -> string, cfg: Settings, d: Disk, op: Op, id: nat)
    requires Intact(sha, d) && Clear(cfg, d.rows, op) && id < |d.rows|
    ensures var after := Apply(sha, cfg, d, op);
            && id < |after.rows| && after.rows[id].key == d.rows[id].key
            && (after.rows[id].live ==> d.rows[id].live && d.rows[id].key in after.bytes && d.rows[id].key in d.bytes &&
                                        after.bytes[d.rows[id].key] == d.bytes[d.rows[id].key])
  {
    assert d.rows[id].live ==> Matches(sha, d, id);
    if op.StoreOp? {
      assert !Clashes(cfg, d.rows, op.current, op.upload, op.generated, id);
    } else if op.id < |d.rows| && op.id != id {
      assert d.rows[op.id].key != d.rows[id].key;
    }
  }

  /** Whatever happens after a successful store, as long as its row is live the file opens with exactly the
      bytes that were stored. */
  lemma {:induction false} OpenReturnsStored(sha: Bytes -> string, cfg: Settings, ops: seq<Op>, n: nat)
    requires AllClear(sha, cfg, ops) && n < |ops| && ops[n].StoreOp?
    requires Store(sha, cfg, Run(sha, cfg, ops[..n]), ops[n].current, ops[n].upload, ops[n].generated).1.Ok?
    ensures var id := |Run(sha, cfg, ops[..n]).rows|;
            var d := Run(sha, cfg, ops);
            && id < |d.rows|
            && (d.rows[id].live ==> d.rows[id].key in d.bytes && d.bytes[d.rows[id].key] == ops[n].upload.data)
  {
    var most := ops[..|ops| - 1];
    var id := |Run(sha, cfg, ops[..n]).rows|;
    if n == |most| {
      assert ops[..n] == most;
    } else {
      assert most[..n] == ops[..n];
      ClearPrefix(sha, cfg, ops);
      OpenReturnsStored(sha, cfg, most, n);
      LastKeepsBytes(sha, cfg, ops, id);
    }
  }

  lemma LastKeepsBytes(sha: Bytes -> string, cfg: Settings, ops: seq<Op>, id: nat)
    requires ops != [] && AllClear(sha, cfg, ops) && id < |Run(sha, cfg, ops[..|ops| - 1]).rows|
    ensures var d, after := Run(sha, cfg, ops[..|ops| - 1]), Run(sha, cfg, ops);
            && id < |after.rows| && after.rows[id].key == d.rows[id].key
            && (after.rows[id].live ==> d.rows[id].live && d.rows[id].key in after.bytes && d.rows[id].key in d.bytes &&
                                        after.bytes[d.rows[id].key] == d.bytes[d.rows[id].key])
  {
    ClearPrefix(sha, cfg, ops);
    AlwaysIntact(sha, cfg, ops[..|ops| - 1]);
    StepKeepsBytes(sha, cfg, Run(sha, cfg, ops[..|ops| - 1]), ops[|ops| - 1], id);
  }

  /** The clash is real: with tenant 2 current, a key that tenant 1 holds passes deduplication, its bytes
      are replaced and the row is refused. */
  lemma ForeignKeyBreaksIntegrity(sha: Bytes -> string, cfg: Settings, u: Upload, before: Bytes)
    requires u.key == Some("a/b.pdf") && !Unacceptable(cfg, u) && sha(u.data) != sha(before)
    ensures var d := Disk(map["a/b.pdf" := before], [StoredFile(1, "a/b.pdf", sha(before), |before|, true)]);
            && Intact(sha, d)
            && Store(sha, cfg, d, Some(2), u, "").1 == Err(KeyTaken)
            && !Intact(sha, Store(sha, cfg, d, Some(2), u, "").0)
  {
    var d := Disk(map["a/b.pdf" := before], [StoredFile(1, "a/b.pdf", sha(before), |before|, true)]);
    assert !Taken(d.rows, Some(2), "a/b.pdf");
    assert d.rows[0].key == "a/b.pdf" && InTable(d.rows, "a/b.pdf");
    assert Clashes(cfg, d.rows, Some(2), u, "", 0);
    StoreIntactIff(sha, cfg, d, Some(2), u, "");
  }
}
