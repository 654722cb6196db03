/** The candidate keys of _dedupe_key (platform/storage/services.py): a pure POSIX path whose name gets a
    number before its suffix. */
module StorageKeys {

  /** The index of the last slash, -1 when there is none. */
  function LastSlash(s: string): (i: int)
    ensures -1 <= i < |s|
    ensures i >= 0 ==> s[i] == '/'
    ensures forall j :: i < j < |s| ==> s[j] != '/'
  {
    if s == "" then -1 else if s[|s| - 1] == '/' then |s| - 1 else LastSlash(s[..|s| - 1])
  }

  /** The components of a path: empty ones and single dots are dropped. */
  function Parts(s: string): seq<string> {
    var i := LastSlash(s);
    var tail := s[i + 1..];
    (if i < 0 then [] else Parts(s[..i])) + if tail == "" || tail == "." then [] else [tail]
  }

  function Root(s: string): string {
    if |s| >= 2 && s[..2] == "//" && !(|s| >= 3 && s[2] == '/') then "//"
    else if s != "" && s[0] == '/' then "/"
    else ""
  }

  function Join(parts: seq<string>): string {
    if parts == [] then "" else Join(parts[..|parts| - 1]) + parts[|parts| - 1] + "/"
  }

  function Name(s: string): string {
    var parts := Parts(s);
    if parts == [] then "" else parts[|parts| - 1]
  }

  /** Everything before the name, as the path prints it. */
  function Directory(s: string): string {
    var parts := Parts(s);
    Root(s) + if parts == [] then "" else Join(parts[..|parts| - 1])
  }

  function LastDot(name: string): (i: int)
    ensures -1 <= i < |name|
    ensures i >= 0 ==> name[i] == '.'
    ensures forall j :: i < j < |name| ==> name[j] != '.'
  {
    if name == "" then -1 else if name[|name| - 1] == '.' then |name| - 1 else LastDot(name[..|name| - 1])
  }

  /** Where the suffix starts: at the last dot, unless that is the first or the last character. */
  function SuffixStart(name: string): (i: nat)
    ensures i <= |name|
  {
    if 0 < LastDot(name) < |name| - 1 then LastDot(name) else |name|
  }

  const DIGITS := "0123456789"

  function Decimal(n: nat): string {
    (if n < 10 then "" else Decimal(n / 10)) + [DIGITS[n % 10]]
  }

  function NumberedName(name: string, n: nat): string {
    name[..SuffixStart(name)] + "-" + Decimal(n) + name[SuffixStart(name)..]
  }

  function Candidate(key: string, n: nat): string {
    Directory(key) + NumberedName(Name(key), n)
  }

  /* ---- the candidates are distinct from each other and from the key ---- */

  function Value(s: string): int {
    if s == "" then 0
    else Value(s[..|s| - 1]) * 10 + (s[|s| - 1] as int - '0' as int)
  }

  lemma {:induction false} DecimalValue(n: nat)
    ensures Value(Decimal(n)) == n
  {
    var d := Decimal(n);
    assert DIGITS[n % 10] as int - '0' as int == n % 10;
    if n < 10 {
      assert d[..|d| - 1] == "";
    } else {
      assert d[..|d| - 1] == Decimal(n / 10);
      DecimalValue(n / 10);
    }
  }

  lemma Middle(a: string, x: string, y: string, b: string)
    requires a + x + b == a + y + b
    ensures x == y
  {
    assert |x| == |y|;
    assert x == (a + x + b)[|a|..|a| + |x|];
    assert y == (a + y + b)[|a|..|a| + |y|];
  }

  lemma Regroup(directory: string, stem: string, number: string, suffix: string)
    ensures directory + (stem + "-" + number + suffix) == (directory + stem + "-") + number + suffix
  {}

  lemma CandidatesDistinct(key: string, m: nat, n: nat)
    requires Candidate(key, m) == Candidate(key, n)
    ensures m == n
  {
    SameNumber(Directory(key), Name(key), m, n);
    DecimalValue(m);
    DecimalValue(n);
  }

  lemma SameNumber(directory: string, name: string, m: nat, n: nat)
    requires directory + NumberedName(name, m) == directory + NumberedName(name, n)
    ensures Decimal(m) == Decimal(n)
  {
    var stem, suffix := name[..SuffixStart(name)], name[SuffixStart(name)..];
    Regroup(directory, stem, Decimal(m), suffix);
    Regroup(directory, stem, Decimal(n), suffix);
    Middle(directory + stem + "-", Decimal(m), Decimal(n), suffix);
  }

  lemma {:induction false} PartsHaveNoSlash(s: string)
    ensures forall i :: 0 <= i < |Parts(s)| ==> Parts(s)[i] != "" && forall j :: 0 <= j < |Parts(s)[i]| ==>
        Parts(s)[i][j] != '/'
    decreases |s|
  {
    var i := LastSlash(s);
    if i >= 0 {
      PartsHaveNoSlash(s[..i]);
    }
  }

  ghost predicate Free(s: string, c: char) {
    forall j :: 0 <= j < |s| ==> s[j] != c
  }

  predicate SlashEnded(s: string) {
    s == "" || s[|s| - 1] == '/'
  }

  lemma {:induction false} LastSlashAt(front: string, tail: string)
    requires SlashEnded(front)
    requires Free(tail, '/')
    ensures LastSlash(front + tail) == |front| - 1
  {
    var s := front + tail;
    assert forall j :: |front| <= j < |s| ==> s[j] == tail[j - |front|];
    if front != "" {
      assert s[|front| - 1] == '/';
    }
  }

  lemma NameAfter(front: string, name: string)
    requires SlashEnded(front)
    requires |name| >= 2 && forall j :: 0 <= j < |name| ==> name[j] != '/'
    ensures Name(front + name) == name
  {
    LastSlashAt(front, name);
    assert (front + name)[|front|..] == name;
  }

  lemma {:induction false} DigitsAreNotSlashes(n: nat)
    ensures |Decimal(n)| >= 1 && forall j :: 0 <= j < |Decimal(n)| ==> Decimal(n)[j] != '/'
  {
    assert forall d :: 0 <= d < 10 ==> DIGITS[d] != '/';
    if n >= 10 {
      DigitsAreNotSlashes(n / 10);
    }
  }

  lemma NumberedShape(name: string, n: nat)
    requires Free(name, '/')
    ensures |NumberedName(name, n)| >= |name| + 2
    ensures forall j :: 0 <= j < |NumberedName(name, n)| ==> NumberedName(name, n)[j] != '/'
  {
    DigitsAreNotSlashes(n);
  }

  lemma SlashEndedTogether(a: string, b: string)
    requires SlashEnded(a) && SlashEnded(b)
    ensures SlashEnded(a + b)
  {}

  lemma RootEnds(s: string)
    ensures SlashEnded(Root(s))
  {}

  lemma JoinEnds(parts: seq<string>)
    ensures SlashEnded(Join(parts))
  {}

  lemma DirectoryEnds(key: string)
    ensures SlashEnded(Directory(key))
  {
    RootEnds(key);
    var parts := Parts(key);
    if parts == [] {
      SlashEndedTogether(Root(key), "");
    } else {
      JoinEnds(parts[..|parts| - 1]);
      SlashEndedTogether(Root(key), Join(parts[..|parts| - 1]));
    }
  }

  lemma NameHasNoSlash(s: string)
    ensures forall j :: 0 <= j < |Name(s)| ==> Name(s)[j] != '/'
  {
    PartsHaveNoSlash(s);
  }

  lemma NumberedNameStays(front: string, name: string, n: nat)
    requires SlashEnded(front)
    requires Free(name, '/')
    ensures Name(front + NumberedName(name, n)) == NumberedName(name, n) != name
  {
    NumberedShape(name, n);
    NameAfter(front, NumberedName(name, n));
  }

  /** The name of a candidate is the numbered name, so no candidate is the key itself. */
  lemma CandidateIsNotKey(key: string, n: nat)
    ensures Name(Candidate(key, n)) == NumberedName(Name(key), n)
    ensures Candidate(key, n) != key
  {
    NameHasNoSlash(key);
    DirectoryEnds(key);
    NumberedNameStays(Directory(key), Name(key), n);
  }

  /* ---- what a candidate looks like ---- */

  lemma SlashBetween(front: string, tail: string)
    requires Free(tail, '/')
    ensures LastSlash(front + "/" + tail) == |front|
    ensures (front + "/" + tail)[..|front|] == front && (front + "/" + tail)[|front| + 1..] == tail
  {
    var f := front + "/";
    LastSlashAt(f, tail);
    assert (f + tail)[..|f|] == f && (f + tail)[|f|..] == tail;
    assert (f + tail)[..|front|] == f[..|front|] == front;
  }

  lemma LastPart(front: string, tail: string)
    requires Free(tail, '/')
    ensures Parts(front + "/" + tail) == Parts(front) + (if tail == "" || tail == "." then [] else [tail])
  {
    SlashBetween(front, tail);
    PartsOnce(front + "/" + tail, front, tail);
  }

  lemma PartsOnce(s: string, front: string, tail: string)
    requires LastSlash(s) == |front| < |s| && s[..|front|] == front && s[|front| + 1..] == tail
    ensures Parts(s) == Parts(front) + (if tail == "" || tail == "." then [] else [tail])
  {}

  lemma SolePart(tail: string)
    requires Free(tail, '/')
    ensures Parts(tail) == if tail == "" || tail == "." then [] else [tail]
  {
    assert tail[0..] == tail;
  }

  lemma CutAtLastSlash(b: string) returns (front: string, tail: string)
    requires LastSlash(b) >= 0
    ensures b == front + "/" + tail && |front| < |b| && Free(tail, '/')
  {
    front, tail := b[..LastSlash(b)], b[LastSlash(b) + 1..];
  }

  /** A path is split at its slashes: the components of two paths put together are those of the one and then
      those of the other, and a text without a slash is one component, or none if it is empty or a dot. */
  lemma {:induction false} PartsSplit(a: string, b: string)
    ensures Parts(a + "/" + b) == Parts(a) + Parts(b)
    ensures Free(b, '/') ==> Parts(b) == if b == "" || b == "." then [] else [b]
    decreases |b|
  {
    if LastSlash(b) < 0 {
      SolePart(b);
      LastPart(a, b);
    } else {
      var front, tail := CutAtLastSlash(b);
      PartsSplit(a, front);
      assert !Free(b, '/') by { assert b[|front|] == '/'; }
      PartsOfThree(a, front, tail);
    }
  }

  lemma PartsOfThree(a: string, front: string, tail: string)
    requires Free(tail, '/') && Parts(a + "/" + front) == Parts(a) + Parts(front)
    ensures Parts(a + "/" + (front + "/" + tail)) == Parts(a) + Parts(front + "/" + tail)
  {
    LastPart(front, tail);
    LastPart(a + "/" + front, tail);
    Associates(a + "/", front + "/", tail);
    Associates(a + "/", front, "/");
    Associates(Parts(a), Parts(front), if tail == "" || tail == "." then [] else [tail]);
  }

  lemma Associates<T>(x: seq<T>, y: seq<T>, z: seq<T>)
    ensures x + (y + z) == x + y + z
  {}

  /** A joined list of components has a slash behind each. */
  lemma {:induction false} JoinAppends(a: seq<string>, b: seq<string>, x: string)
    ensures Join([x]) == x + "/"
    ensures Join(a + b) == Join(a) + Join(b)
    decreases |b|
  {
    assert [x][..0] == [];
    if b == [] {
      assert a + b == a;
    } else {
      assert (a + b)[..|a + b| - 1] == a + b[..|b| - 1];
      JoinAppends(a, b[..|b| - 1], x);
    }
  }

  /** The root of a path: two slashes when it begins with exactly two, else one when it begins with one. */
  lemma RootSays(s: string)
    ensures s == "" || s[0] != '/' ==> Root(s) == ""
    ensures s == "/" || (|s| >= 2 && s[0] == '/' && s[1] != '/') ==> Root(s) == "/"
    ensures |s| >= 3 && s[0] == s[1] == s[2] == '/' ==> Root(s) == "/"
    ensures s == "//" || (|s| >= 3 && s[0] == s[1] == '/' && s[2] != '/') ==> Root(s) == "//"
  {}

  /** The number goes in front of the last dot, or at the end of a name without a dot inside it. */
  lemma NumberedSays(stem: string, extension: string, n: nat)
    requires Free(extension, '.')
    ensures stem != "" && extension != "" ==>
              NumberedName(stem + "." + extension, n) == stem + "-" + Decimal(n) + "." + extension
    ensures NumberedName(extension, n) == extension + "-" + Decimal(n)
    ensures NumberedName("." + extension, n) == "." + extension + "-" + Decimal(n)
    ensures NumberedName(stem + ".", n) == stem + "." + "-" + Decimal(n)
  {
    var name := stem + "." + extension;
    assert name[|stem|] == '.' && forall j :: |stem| < j < |name| ==> name[j] == extension[j - |stem| - 1];
    assert LastDot(name) == |stem|;
    assert name[..|stem|] == stem && name[|stem|..] == "." + extension;
    WholeName(extension, n);
    WholeName("." + extension, n);
    WholeName(stem + ".", n);
  }

  lemma WholeName(name: string, n: nat)
    requires SuffixStart(name) == |name|
    ensures NumberedName(name, n) == name + "-" + Decimal(n)
  {
    assert name[..|name|] == name && name[|name|..] == "";
  }

  /** Numbers are written in decimal digits, without leading zeros. */
  lemma {:induction false} DecimalPlain(n: nat)
    ensures Decimal(n) != "" && forall j :: 0 <= j < |Decimal(n)| ==> '0' <= Decimal(n)[j] <= '9'
    ensures n > 0 ==> Decimal(n)[0] != '0'
  {
    assert forall d :: 0 <= d < 10 ==> '0' <= DIGITS[d] <= '9' && (d > 0 ==> DIGITS[d] != '0');
    if n >= 10 {
      DecimalPlain(n / 10);
    }
  }

  /** A candidate is the path as it prints, root and components, with the last of them numbered. */
  lemma CandidateSays(key: string, parts: seq<string>, name: string, n: nat)
    requires Parts(key) == parts + [name]
    ensures Candidate(key, n) == Root(key) + Join(parts) + NumberedName(name, n)
  {
    assert (parts + [name])[..|parts|] == parts;
  }
}
