/** Stored files over histories in which callers keep to their own tenant's directory, as the keys built by
    platform/periods/resolution.py do: deduplication then keeps every live file intact. */
module TenantFiles {
  import opened Wrappers
  import opened StorageKeys
  import opened Storage

  /* ---- paths below a directory ---- */

  /** A slug: not empty, no dot alone, no slash in it. */
  ghost predicate Proper(slug: string) {
    slug != "" && slug != "." && Free(slug, '/')
  }

  function Home(slug: string): string {
    slug + "/"
  }

  /** A path that names something below a slug's directory. */
  ghost predicate Below(slug: string, key: string) {
    Home(slug) <= key && Parts(key[|Home(slug)|..]) != []
  }

  lemma PartsBelow(slug: string, key: string)
    requires Proper(slug) && Below(slug, key)
    ensures Parts(key) == [slug] + Parts(key[|Home(slug)|..]) && |Parts(key)| >= 2
  {
    assert key == slug + "/" + key[|Home(slug)|..];
    PartsSplit(slug, key[|Home(slug)|..]);
    SolePart(slug);
  }

  lemma RelativeHasNoRoot(slug: string, key: string)
    requires Proper(slug) && Home(slug) <= key
    ensures Root(key) == ""
  {
    assert key[0] == Home(slug)[0] == slug[0];
  }

  /** The directory of such a path, and so every candidate for it, starts with the slug's directory. */
  lemma CandidateStaysBelow(slug: string, key: string, n: nat)
    requires Proper(slug) && Below(slug, key)
    ensures Home(slug) <= Candidate(key, n)
  {
    DirectoryStaysBelow(slug, key);
    PrefixOf(Home(slug), Directory(key), NumberedName(Name(key), n));
  }

  /** The directory of a path, given its components. */
  lemma DirectoryFrom(slug: string, key: string, rest: seq<string>)
    requires Root(key) == "" && Parts(key) == [slug] + rest && rest != []
    ensures Home(slug) <= Directory(key)
  {
    var most := rest[..|rest| - 1];
    assert ([slug] + rest)[..|rest|] == [slug] + most;
    JoinAppends([slug], most, slug);
  }

  lemma DirectoryStaysBelow(slug: string, key: string)
    requires Proper(slug) && Below(slug, key)
    ensures Home(slug) <= Directory(key)
  {
    PartsBelow(slug, key);
    RelativeHasNoRoot(slug, key);
    DirectoryFrom(slug, key, Parts(key[|Home(slug)|..]));
  }

  lemma PrefixOf(a: string, b: string, c: string)
    requires a <= b
    ensures a <= b + c
  {}

  lemma FirstSlash(slug: string, key: string)
    requires Proper(slug) && Home(slug) <= key
    ensures |slug| < |key| && key[|slug|] == '/' && slug == key[..|slug|]
    ensures forall j :: 0 <= j < |slug| ==> key[j] != '/'
  {
    assert forall j :: 0 <= j < |slug| ==> key[j] == Home(slug)[j] == slug[j];
    assert key[|slug|] == Home(slug)[|slug|];
  }

  /** No path starts with the directories of two slugs. */
  lemma HomesApart(a: string, b: string, key: string)
    requires Proper(a) && Proper(b) && Home(a) <= key && Home(b) <= key
    ensures a == b
  {
    FirstSlash(a, key);
    FirstSlash(b, key);
    assert |a| == |b|;
  }

  /* ---- callers that keep to their own directory ---- */

  /** Where generated keys live; no tenant's slug is this one. */
  const AUTO := "t"

  /** Every tenant has its own slug. */
  ghost predicate SlugsFit(slug: nat -> string) {
    && (forall a: nat :: Proper(slug(a)) && slug(a) != AUTO)
    && (forall a: nat, b: nat :: slug(a) == slug(b) ==> a == b)
  }

  function Owner(op: Op): Option<nat>
    requires op.StoreOp?
  {
    if op.upload.tenant.Some? then op.upload.tenant else op.current
  }

  predicate Generates(op: Op) {
    op.StoreOp? && op.upload.key.None?
  }

  /** A caller's key lies below the directory of the tenant it stores for, which is the current one when
      there is one; a generated key lies below its own. */
  ghost predicate KeepsHome(slug: nat -> string, op: Op) {
    op.StoreOp? ==>
      && (Generates(op) ==> Home(AUTO) <= op.generated)
      && (op.upload.key.Some? && Owner(op).Some? ==>
            (op.current.Some? ==> Owner(op) == op.current) && Below(slug(Owner(op).value), op.upload.key.value))
  }

  /** What is asked of a history, said of its inputs alone: callers keep home, generated keys differ. */
  ghost predicate WellKept(slug: nat -> string, ops: seq<Op>) {
    && (forall n :: 0 <= n < |ops| ==> KeepsHome(slug, ops[n]))
    && (forall m, n :: 0 <= m < n < |ops| && Generates(ops[m]) && Generates(ops[n]) ==>
        ops[m].generated != ops[n].generated)
  }

  ghost predicate GeneratedIn(ops: seq<Op>, key: string) {
    exists m :: 0 <= m < |ops| && Generates(ops[m]) && ops[m].generated == key
  }

  /** Every row's key lies below its tenant's directory, or was generated in this history. */
  ghost predicate RowOwned(slug: nat -> string, ops: seq<Op>, row: StoredFile) {
    Home(slug(row.tenant)) <= row.key || (Home(AUTO) <= row.key && GeneratedIn(ops, row.key))
  }

  ghost predicate RowsOwned(slug: nat -> string, ops: seq<Op>, rows: seq<StoredFile>) {
    forall i :: 0 <= i < |rows| ==> RowOwned(slug, ops, rows[i])
  }

  lemma AutoIsApart(slug: nat -> string, tenant: nat, key: string)
    requires SlugsFit(slug) && Home(AUTO) <= key
    ensures !(Home(slug(tenant)) <= key)
  {
    if Home(slug(tenant)) <= key {
      HomesApart(AUTO, slug(tenant), key);
    }
  }

  /** The key that is put for a caller's key stays below the owner's directory. */
  lemma FinalKeyAtHome(slug: nat -> string, cfg: Settings, rows: seq<StoredFile>, op: Op)
    requires SlugsFit(slug) && KeepsHome(slug, op) && op.StoreOp? && op.upload.key.Some?
    ensures var k := FinalKey(cfg, rows, op.current, op.upload, op.generated);
            k.Ok? ==> Owner(op).Some? && Home(slug(Owner(op).value)) <= k.value
  {
    var k := FinalKey(cfg, rows, op.current, op.upload, op.generated);
    if k.Ok? {
      assert Owner(op).Some?;
      DedupedAtHome(slug(Owner(op).value), rows, op.current, op.upload.key.value);
    }
  }

  lemma DedupedAtHome(slug: string, rows: seq<StoredFile>, current: Option<nat>, key: string)
    requires Proper(slug) && Below(slug, key)
    ensures DedupeKey(rows, current, key).Ok? ==> Home(slug) <= DedupeKey(rows, current, key).value
  {
    var m := FirstFreeShape(rows, current, key, 2);
    CandidateStaysBelow(slug, key, m);
  }

  /** The next upload lands on no live row. */
  lemma NextIsClear(slug: nat -> string, cfg: Settings, ops: seq<Op>, rows: seq<StoredFile>, op: Op)
    requires SlugsFit(slug) && RowsOwned(slug, ops, rows) && WellKept(slug, ops + [op])
    ensures Clear(cfg, rows, op)
  {
    assert (ops + [op])[|ops|] == op;
    if op.StoreOp? {
      forall i: nat
        ensures !Clashes(cfg, rows, op.current, op.upload, op.generated, i)
      {
        if Clashes(cfg, rows, op.current, op.upload, op.generated, i) {
          assert RowOwned(slug, ops, rows[i]);
          if Generates(op) {
            NewIsNotOld(slug, ops, op, rows[i]);
          } else {
            ClashIsForeign(cfg, rows, op.current, op.upload, op.generated, i);
            FinalKeyAtHome(slug, cfg, rows, op);
            OnlyOneHome(slug, ops, Owner(op).value, rows[i]);
          }
        }
      }
    }
  }

  lemma GeneratedIsNew(slug: nat -> string, ops: seq<Op>, op: Op)
    requires WellKept(slug, ops + [op]) && Generates(op)
    ensures !GeneratedIn(ops, op.generated) && Home(AUTO) <= op.generated
  {
    var more := ops + [op];
    assert more[|ops|] == op && KeepsHome(slug, more[|ops|]);
    forall m | 0 <= m < |ops| && Generates(ops[m]) ensures ops[m].generated != op.generated {
      assert more[m] == ops[m];
    }
  }

  lemma NewIsNotOld(slug: nat -> string, ops: seq<Op>, op: Op, row: StoredFile)
    requires SlugsFit(slug) && WellKept(slug, ops + [op]) && Generates(op) && RowOwned(slug, ops, row)
    ensures row.key != op.generated
  {
    GeneratedIsNew(slug, ops, op);
    AutoIsApart(slug, row.tenant, op.generated);
  }

  lemma OnlyOneHome(slug: nat -> string, ops: seq<Op>, tenant: nat, row: StoredFile)
    requires SlugsFit(slug) && RowOwned(slug, ops, row) && Home(slug(tenant)) <= row.key
    ensures row.tenant == tenant
  {
    if Home(AUTO) <= row.key {
      AutoIsApart(slug, tenant, row.key);
    } else {
      HomesApart(slug(tenant), slug(row.tenant), row.key);
    }
  }

  lemma RowsStayOwned(slug: nat -> string, sha: Bytes -> string, cfg: Settings, ops: seq<Op>, d: Disk, op: Op)
    requires SlugsFit(slug) && RowsOwned(slug, ops, d.rows) && KeepsHome(slug, op)
    ensures RowsOwned(slug, ops + [op], Apply(sha, cfg, d, op).rows)
  {
    var more := ops + [op];
    var after := Apply(sha, cfg, d, op);
    assert more[|ops|] == op;
    forall i | 0 <= i < |after.rows| ensures RowOwned(slug, more, after.rows[i]) {
      if i < |d.rows| {
        assert RowOwned(slug, ops, d.rows[i]);
        if GeneratedIn(ops, d.rows[i].key) {
          var m :| 0 <= m < |ops| && Generates(ops[m]) && ops[m].generated == d.rows[i].key;
          assert more[m] == ops[m];
        }
      } else if op.upload.key.Some? {
        FinalKeyAtHome(slug, cfg, d.rows, op);
      }
    }
  }

  lemma {:induction false} AlwaysOwned(slug: nat -> string, sha: Bytes -> string, cfg: Settings, ops: seq<Op>)
    requires SlugsFit(slug) && WellKept(slug, ops)
    ensures RowsOwned(slug, ops, Run(sha, cfg, ops).rows) && AllClear(sha, cfg, ops)
  {
    if ops != [] {
      var most, op := ops[..|ops| - 1], ops[|ops| - 1];
      assert ops == most + [op];
      AlwaysOwned(slug, sha, cfg, most);
      NextIsClear(slug, cfg, most, Run(sha, cfg, most).rows, op);
      RowsStayOwned(slug, sha, cfg, most, Run(sha, cfg, most), op);
      forall n | 0 <= n < |ops| ensures Clear(cfg, Run(sha, cfg, ops[..n]).rows, ops[n]) {
        if n < |most| {
          assert most[..n] == ops[..n];
        } else {
          assert ops[..n] == most;
        }
      }
    }
  }

  /** Over every history whose callers keep to their own tenant's directory and whose generated keys differ,
      creations refused by the unique key included, every live file's bytes hash to its digest. */
  lemma FilesStayIntact(slug: nat -> string, sha: Bytes -> string, cfg: Settings, ops: seq<Op>)
    requires SlugsFit(slug) && WellKept(slug, ops)
    ensures Intact(sha, Run(sha, cfg, ops))
  {
    AlwaysOwned(slug, sha, cfg, ops);
    AlwaysIntact(sha, cfg, ops);
  }

  /** And a live file opens with exactly the bytes its store was given. */
  lemma FilesOpenAsStored(slug: nat -> string, sha: Bytes -> string, cfg: Settings, ops: seq<Op>, n: nat)
    requires SlugsFit(slug) && WellKept(slug, ops) && n < |ops| && ops[n].StoreOp?
    ensures var before := Run(sha, cfg, ops[..n]);
            var d := Run(sha, cfg, ops);
            Store(sha, cfg, before, ops[n].current, ops[n].upload, ops[n].generated).1.Ok? ==>
              && |before.rows| < |d.rows|
              && (d.rows[|before.rows|].live ==>
                    d.rows[|before.rows|].key in d.bytes && d.bytes[d.rows[|before.rows|].key] == ops[n].upload.data)
  {
    AlwaysOwned(slug, sha, cfg, ops);
    var before := Run(sha, cfg, ops[..n]);
    if Store(sha, cfg, before, ops[n].current, ops[n].upload, ops[n].generated).1.Ok? {
      OpenReturnsStored(sha, cfg, ops, n);
    }
  }
}
