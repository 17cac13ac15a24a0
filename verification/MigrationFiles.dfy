/** Loading the migration directory: names, versions, contents and order. */
module MigrationFiles {
  import opened Basics
  import opened SortedLists
  import opened SqlScanner
  import opened MigrationRunner

  datatype Entry = Entry(name: string, isDir: bool, text: string)

  const MAX_VERSION := 0x7FFF_FFFF_FFFF_FFFF

  predicate IsRelevant(e: Entry) {
    !e.isDir && EndsWith(e.name, ".sql")
  }

  /** The length of the leading run of digits. */
  function Digits(s: string): (n: nat)
    ensures n <= |s| && forall i | 0 <= i < n :: '0' <= s[i] <= '9'
    ensures n < |s| ==> !('0' <= s[n] <= '9')
  {
    if s != "" && '0' <= s[0] <= '9' then Digits(s[1..]) + 1 else 0
  }

  function Number(digits: string): int {
    if digits == "" then 0 else 10 * Number(digits[..|digits| - 1]) + (digits[|digits| - 1] as int - '0' as int)
  }

  /** <digits>_<letters, digits, underscores>.sql */
  predicate IsMigrationName(name: string) {
    var d := Digits(name);
    && 0 < d < |name| - 5 && name[d] == '_' && EndsWith(name, ".sql")
    && forall i | d < i < |name| - 4 :: IsTagChar(name[i])
  }

  function Version(name: string): int {
    Number(name[..Digits(name)])
  }

  /** CRLF becomes LF. */
  function Normalized(text: string): string {
    if text == "" then ""
    else if StartsWith(text, 0, "\r\n") then "\n" + Normalized(text[2..])
    else [text[0]] + Normalized(text[1..])
  }

  predicate IsAcceptable(e: Entry) {
    && IsMigrationName(e.name) && 1 <= Version(e.name) <= MAX_VERSION
    && AtomicSql(Normalized(e.text)).Accepted?
  }

  function MigrationOf(e: Entry, digest: string -> string): Migration
    requires IsAcceptable(e)
  {
    Migration(Version(e.name), e.name, digest(Normalized(e.text)), AtomicSql(Normalized(e.text)).sql)
  }

  /** m is what a relevant entry of the directory says. */
  ghost predicate FromDirectory(m: Migration, entries: seq<Entry>, digest: string -> string) {
    exists i :: 0 <= i < |entries| && IsRelevant(entries[i]) && IsAcceptable(entries[i])
                && MigrationOf(entries[i], digest) == m
  }

  /** Every relevant entry is acceptable and no two share a version. */
  ghost predicate IsConsistent(entries: seq<Entry>) {
    && (forall i | 0 <= i < |entries| && IsRelevant(entries[i]) :: IsAcceptable(entries[i]))
    && (forall i, j | 0 <= i < j < |entries| && IsRelevant(entries[i]) && IsRelevant(entries[j]) ::
          Version(entries[i].name) != Version(entries[j].name))
  }

  ghost predicate IsLoadable(entries: seq<Entry>) {
    IsConsistent(entries) && exists i :: 0 <= i < |entries| && IsRelevant(entries[i])
  }

  /** ms are the migrations of these entries, in order. */
  ghost predicate Loaded(entries: seq<Entry>, ms: seq<Migration>, digest: string -> string) {
    && IsConsistent(entries) && Sorted(ms)
    && forall m :: m in ms <==> FromDirectory(m, entries, digest)
  }

  lemma OneMoreEntry(entries: seq<Entry>, e: Entry, m: Migration, digest: string -> string)
    ensures FromDirectory(m, entries + [e], digest) <==>
              FromDirectory(m, entries, digest) || (IsRelevant(e) && IsAcceptable(e) && m == MigrationOf(e, digest))
  {
    var more := entries + [e];
    assert more[|entries|] == e;
    if FromDirectory(m, entries, digest) {
      var i :| 0 <= i < |entries| && IsRelevant(entries[i]) && IsAcceptable(entries[i])
               && MigrationOf(entries[i], digest) == m;
      assert more[i] == entries[i];
    }
  }

  lemma SkippingKeepsLoaded(entries: seq<Entry>, e: Entry, ms: seq<Migration>, digest: string -> string)
    requires Loaded(entries, ms, digest) && !IsRelevant(e)
    ensures Loaded(entries + [e], ms, digest)
  {
    forall m ensures FromDirectory(m, entries + [e], digest) <==> FromDirectory(m, entries, digest) {
      OneMoreEntry(entries, e, m, digest);
    }
  }

  lemma VersionsSoFar(entries: seq<Entry>, ms: seq<Migration>, i: nat, digest: string -> string) returns (k: nat)
    requires Loaded(entries, ms, digest) && i < |entries| && IsRelevant(entries[i])
    ensures k < |ms| && ms[k].version == Version(entries[i].name)
  {
    assert FromDirectory(MigrationOf(entries[i], digest), entries, digest);
    assert MigrationOf(entries[i], digest) in ms;
    k :| 0 <= k < |ms| && ms[k] == MigrationOf(entries[i], digest);
  }

  lemma AddingIsConsistent(entries: seq<Entry>, e: Entry, ms: seq<Migration>, digest: string -> string)
    requires Loaded(entries, ms, digest) && IsRelevant(e) && IsAcceptable(e)
    requires forall i | 0 <= i < |ms| :: ms[i].version != Version(e.name)
    ensures IsConsistent(entries + [e])
  {
    forall i | 0 <= i < |entries| && IsRelevant(entries[i]) ensures Version(entries[i].name) != Version(e.name) {
      var k := VersionsSoFar(entries, ms, i, digest);
    }
  }

  lemma AddingKeepsLoaded(entries: seq<Entry>, e: Entry, ms: seq<Migration>, digest: string -> string)
    requires Loaded(entries, ms, digest) && IsRelevant(e) && IsAcceptable(e)
    requires forall i | 0 <= i < |ms| :: ms[i].version != Version(e.name)
    ensures Loaded(entries + [e], InsertBy(ms, MigrationOf(e, digest), ByVersion()), digest)
  {
    AddingIsConsistent(entries, e, ms, digest);
    var more, added := entries + [e], MigrationOf(e, digest);
    var after := InsertBy(ms, added, ByVersion());
    forall m ensures m in after <==> FromDirectory(m, more, digest) {
      OneMoreEntry(entries, e, m, digest);
      assert m in ms <==> FromDirectory(m, entries, digest);
    }
  }

  lemma ClashIsInconsistent(entries: seq<Entry>, k: nat, ms: seq<Migration>, i: nat, digest: string -> string)
    requires k < |entries| && Loaded(entries[..k], ms, digest) && IsRelevant(entries[k])
    requires i < |ms| && ms[i].version == Version(entries[k].name)
    ensures !IsConsistent(entries)
  {
    assert ms[i] in ms;
    var before := entries[..k];
    var j :| 0 <= j < |before| && IsRelevant(before[j]) && IsAcceptable(before[j]) && MigrationOf(before[j], digest) == ms[i];
    assert before[j] == entries[j];
  }

  /**
   * Loads exactly the loadable directories; the result is the directory's migrations in strictly
   * ascending version order.
   */
  method Load(entries: seq<Entry>, digest: string -> string) returns (r: Option<seq<Migration>>)
    ensures r.Some? <==> IsLoadable(entries)
    ensures r.Some? ==> Loaded(entries, r.value, digest)
  {
    var migrations: seq<Migration> := [];
    for i := 0 to |entries|
      invariant Loaded(entries[..i], migrations, digest)
    {
      var e := entries[i];
      assert entries[..i + 1] == entries[..i] + [e];
      if IsRelevant(e) {
        if !IsAcceptable(e) {
          return None;
        }
        if exists k | 0 <= k < |migrations| :: migrations[k].version == Version(e.name) {
          ghost var k :| 0 <= k < |migrations| && migrations[k].version == Version(e.name);
          ClashIsInconsistent(entries, i, migrations, k, digest);
          return None;
        }
        AddingKeepsLoaded(entries[..i], e, migrations, digest);
        migrations := InsertBy(migrations, MigrationOf(e, digest), ByVersion());
      } else {
        SkippingKeepsLoaded(entries[..i], e, migrations, digest);
      }
    }
    assert entries[..|entries|] == entries;
    EmptyExactlyWithoutEntries(entries, migrations, digest);
    r := if |migrations| == 0 then None else Some(migrations);
  }

  lemma EmptyExactlyWithoutEntries(entries: seq<Entry>, ms: seq<Migration>, digest: string -> string)
    requires Loaded(entries, ms, digest)
    ensures ms != [] <==> IsLoadable(entries)
  {
    if ms != [] {
      HasMember(ms);
    }
    if i :| 0 <= i < |entries| && IsRelevant(entries[i]) {
      assert FromDirectory(MigrationOf(entries[i], digest), entries, digest);
    }
  }

  /** A directory's listing order does not matter. */
  lemma LoadIgnoresListingOrder(a: seq<Entry>, b: seq<Entry>, digest: string -> string,
                                x: seq<Migration>, y: seq<Migration>)
    requires multiset(a) == multiset(b)
    requires Loaded(a, x, digest) && Loaded(b, y, digest)
    ensures x == y
  {
    forall m | FromDirectory(m, a, digest) ensures FromDirectory(m, b, digest) {
      SameDirectory(m, a, b, digest);
    }
    forall m | FromDirectory(m, b, digest) ensures FromDirectory(m, a, digest) {
      SameDirectory(m, b, a, digest);
    }
    AscendingIsUnique(x, y, ByVersion());
  }

  lemma SameDirectory(m: Migration, a: seq<Entry>, b: seq<Entry>, digest: string -> string)
    requires multiset(a) == multiset(b) && FromDirectory(m, a, digest)
    ensures FromDirectory(m, b, digest)
  {
    var i :| 0 <= i < |a| && IsRelevant(a[i]) && IsAcceptable(a[i]) && MigrationOf(a[i], digest) == m;
    assert a[i] in multiset(a);
    assert a[i] in b;
  }
}
