/** Which files are migrations, in which order they are applied, and that a run applies them. */
module MigrationOutcomes {
  import opened Basics
  import opened EventKeys
  import opened SortedLists
  import opened SqlScanner
  import opened MigrationRunner
  import opened MigrationFiles

  // ----- file names

  function Zeros(n: nat): string {
    if n == 0 then "" else "0" + Zeros(n - 1)
  }

  lemma {:induction false} NumberOfPrefix(s: string, t: string)
    requires Number(s) == 0
    ensures Number(s + t) == Number(t)
  {
    if t == "" {
      assert s + t == s;
    } else {
      assert (s + t)[..|s + t| - 1] == s + t[..|t| - 1];
      NumberOfPrefix(s, t[..|t| - 1]);
    }
  }

  lemma {:induction false} NumberOfZeros(n: nat)
    ensures Number(Zeros(n)) == 0
  {
    if n > 0 {
      assert Number("0") == 0 by {
        assert "0"[..0] == "";
      }
      NumberOfZeros(n - 1);
      NumberOfPrefix("0", Zeros(n - 1));
    }
  }

  lemma {:induction false} NumberOfDecimal(n: nat)
    ensures Number(Decimal(n)) == n
  {
    if n < 10 {
      assert Decimal(n)[..0] == "";
    } else {
      NumberOfDecimal(n / 10);
      assert Decimal(n)[..|Decimal(n)| - 1] == Decimal(n / 10);
    }
  }

  predicate AllDigits(s: string) {
    forall i | 0 <= i < |s| :: '0' <= s[i] <= '9'
  }

  lemma {:induction false} DecimalIsDigits(n: nat)
    ensures AllDigits(Decimal(n)) && Decimal(n) != ""
  {
    if n >= 10 {
      DecimalIsDigits(n / 10);
    }
  }

  lemma {:induction false} ZerosAreDigits(n: nat)
    ensures AllDigits(Zeros(n)) && |Zeros(n)| == n
  {
    if n > 0 {
      ZerosAreDigits(n - 1);
    }
  }

  lemma {:induction false} DigitsEnd(digits: string, rest: string)
    requires AllDigits(digits) && (rest == "" || !('0' <= rest[0] <= '9'))
    ensures Digits(digits + rest) == |digits|
  {
    if digits == "" {
      assert digits + rest == rest;
    } else {
      assert (digits + rest)[1..] == digits[1..] + rest;
      DigitsEnd(digits[1..], rest);
    }
  }

  /** A file name as the project writes them: padded number, underscore, tail, extension. */
  function FileName(zeros: nat, n: nat, tail: string): string {
    Zeros(zeros) + Decimal(n) + "_" + tail + ".sql"
  }

  predicate IsTail(tail: string) {
    tail != "" && forall j | 0 <= j < |tail| ::
      'a' <= tail[j] <= 'z' || 'A' <= tail[j] <= 'Z' || '0' <= tail[j] <= '9' || tail[j] == '_'
  }

  lemma Middle(a: string, b: string, c: string, s: string)
    requires s == a + b + c
    ensures s[..|a|] == a && s[|a|..|s| - |c|] == b && s[|s| - |c|..] == c
  {
  }

  lemma Regrouped(a: string, b: string, c: string, d: string)
    ensures a + b + c + d == a + (b + c + d)
    ensures b != "" ==> (b + c + d)[0] == b[0]
  {
  }

  lemma NameParts(digits: string, tail: string, name: string)
    requires AllDigits(digits) && digits != "" && name == digits + "_" + tail + ".sql"
    ensures |name| == |digits| + |tail| + 5 && Digits(name) == |digits| && name[..|digits|] == digits
    ensures name[|digits|] == '_' && EndsWith(name, ".sql")
    ensures name[|digits| + 1..|name| - 4] == tail
  {
    Middle(digits + "_", tail, ".sql", name);
    Regrouped(digits, "_", tail, ".sql");
    DigitsEnd(digits, "_" + tail + ".sql");
  }

  lemma NameIsRightExactlyIfTheTailIs(digits: string, tail: string, name: string)
    requires AllDigits(digits) && digits != "" && name == digits + "_" + tail + ".sql"
    ensures IsMigrationName(name) <==> IsTail(tail)
  {
    NameParts(digits, tail, name);
    var d := |digits|;
    if IsMigrationName(name) {
      forall j | 0 <= j < |tail| ensures IsTagChar(tail[j]) {
        assert IsTagChar(name[d + 1 + j]);
      }
    }
    if IsTail(tail) {
      forall i | d < i < |name| - 4 ensures IsTagChar(name[i]) {
        assert name[i] == tail[i - d - 1];
      }
    }
  }

  /** Such a name is read as the number it shows, however many zeros pad it. */
  lemma NamesShowTheirVersion(zeros: nat, n: nat, tail: string)
    ensures Version(FileName(zeros, n, tail)) == n
    ensures IsMigrationName(FileName(zeros, n, tail)) <==> IsTail(tail)
  {
    var digits, name := Zeros(zeros) + Decimal(n), FileName(zeros, n, tail);
    ZerosAreDigits(zeros);
    DecimalIsDigits(n);
    NameParts(digits, tail, name);
    NameIsRightExactlyIfTheTailIs(digits, tail, name);
    NumberOfZeros(zeros);
    NumberOfDecimal(n);
    NumberOfPrefix(Zeros(zeros), Decimal(n));
  }

  /** Every migration name has that form: digits, underscore, a tail of letters, digits and underscores. */
  lemma MigrationNamesHaveTheForm(name: string) returns (digits: string, tail: string)
    requires IsMigrationName(name)
    ensures name == digits + "_" + tail + ".sql"
    ensures digits != "" && AllDigits(digits) && tail != ""
    ensures Version(name) == Number(digits)
  {
    var d := Digits(name);
    digits, tail := name[..d], name[d + 1..|name| - 4];
    assert name == name[..d] + [name[d]] + name[d + 1..|name| - 4] + name[|name| - 4..];
  }

  // ----- loading

  /**
   * A directory of files named in this way loads exactly when there is one, every tail is made of letters,
   * digits and underscores, every number is positive and fits an int, no two are the same, and every text
   * passes the scanner.
   */
  lemma DirectoryLoadsExactly(entries: seq<Entry>, zeros: seq<nat>, numbers: seq<nat>, tails: seq<string>)
    requires |zeros| == |numbers| == |tails| == |entries|
    requires forall i | 0 <= i < |entries| ::
               !entries[i].isDir && entries[i].name == FileName(zeros[i], numbers[i], tails[i])
    ensures IsLoadable(entries) <==>
              && entries != []
              && (forall i | 0 <= i < |entries| ::
                    && IsTail(tails[i]) && 1 <= numbers[i] <= 0x7FFF_FFFF_FFFF_FFFF
                    && AtomicSql(Normalized(entries[i].text)).Accepted?)
              && (forall i, j | 0 <= i < j < |entries| :: numbers[i] != numbers[j])
  {
    forall i | 0 <= i < |entries|
      ensures IsRelevant(entries[i]) && Version(entries[i].name) == numbers[i]
      ensures IsMigrationName(entries[i].name) <==> IsTail(tails[i])
    {
      NamesShowTheirVersion(zeros[i], numbers[i], tails[i]);
      Middle(Zeros(zeros[i]) + Decimal(numbers[i]) + "_" + tails[i], "", ".sql", entries[i].name);
    }
    if entries != [] {
      assert IsRelevant(entries[0]);
    }
  }

  /** The longer directory has one entry more, at position k. */
  ghost predicate OneMoreAt(less: seq<Entry>, more: seq<Entry>, k: nat) {
    && |more| == |less| + 1 && k <= |less|
    && (forall i | 0 <= i < k :: more[i] == less[i]) && (forall i | k < i < |more| :: more[i] == less[i - 1])
  }

  lemma WithoutIt(less: seq<Entry>, more: seq<Entry>, k: nat)
    requires OneMoreAt(less, more, k) && IsConsistent(more)
    ensures IsConsistent(less)
  {
    forall i | 0 <= i < |less| ensures less[i] == more[if i < k then i else i + 1] {
    }
  }

  lemma WithIt(less: seq<Entry>, more: seq<Entry>, k: nat)
    requires OneMoreAt(less, more, k) && !IsRelevant(more[k]) && IsConsistent(less)
    ensures IsConsistent(more)
  {
    forall i | 0 <= i < |more| && IsRelevant(more[i]) ensures i != k && more[i] == less[if i < k then i else i - 1] {
    }
  }

  ghost predicate AnyRelevant(entries: seq<Entry>) {
    exists i :: 0 <= i < |entries| && IsRelevant(entries[i])
  }

  lemma AsRelevant(less: seq<Entry>, more: seq<Entry>, k: nat)
    requires OneMoreAt(less, more, k) && !IsRelevant(more[k])
    ensures AnyRelevant(more) <==> AnyRelevant(less)
  {
    if i :| 0 <= i < |less| && IsRelevant(less[i]) {
      assert more[if i < k then i else i + 1] == less[i];
    }
    if i :| 0 <= i < |more| && IsRelevant(more[i]) {
      assert less[if i < k then i else i - 1] == more[i];
    }
  }

  lemma AsConsistent(less: seq<Entry>, more: seq<Entry>, k: nat)
    requires OneMoreAt(less, more, k) && !IsRelevant(more[k])
    ensures IsConsistent(more) <==> IsConsistent(less)
  {
    if IsConsistent(less) {
      WithIt(less, more, k);
    }
    if IsConsistent(more) {
      WithoutIt(less, more, k);
    }
  }

  lemma LoadableExactly(entries: seq<Entry>)
    ensures IsLoadable(entries) <==> IsConsistent(entries) && AnyRelevant(entries)
  {
  }

  /** Directories and files that do not end in .sql are passed over; a file that does must be a migration. */
  lemma OtherEntriesDoNotCount(a: seq<Entry>, e: Entry, b: seq<Entry>)
    requires e.isDir || |e.name| < 4 || e.name[|e.name| - 4..] != ".sql"
    ensures IsLoadable(a + [e] + b) <==> IsLoadable(a + b)
  {
    AsRelevant(a + b, a + [e] + b, |a|);
    AsConsistent(a + b, a + [e] + b, |a|);
    LoadableExactly(a + b);
    LoadableExactly(a + [e] + b);
  }

  lemma SqlFilesMustBeMigrations(entries: seq<Entry>, i: nat) returns (digits: string, tail: string)
    requires IsLoadable(entries) && i < |entries| && !entries[i].isDir
    requires |entries[i].name| >= 4 && entries[i].name[|entries[i].name| - 4..] == ".sql"
    ensures entries[i].name == digits + "_" + tail + ".sql"
    ensures digits != "" && AllDigits(digits) && IsTail(tail)
  {
    assert IsRelevant(entries[i]);
    digits, tail := MigrationNamesHaveTheForm(entries[i].name);
    NameIsRightExactlyIfTheTailIs(digits, tail, entries[i].name);
  }

  /** A file named for version n is loaded as migration n, with the digest of its text. */
  lemma FilesAreLoadedByNumber(entries: seq<Entry>, ms: seq<Migration>, digest: string -> string, i: nat, zeros: nat, n: nat,
                               tail: string)
    requires Loaded(entries, ms, digest) && i < |entries| && !entries[i].isDir && entries[i].name == FileName(zeros, n, tail)
    ensures exists k :: 0 <= k < |ms| && ms[k].version == n && ms[k].name == entries[i].name
                        && ms[k].checksum == digest(Normalized(entries[i].text))
    ensures 1 <= n <= 0x7FFF_FFFF_FFFF_FFFF
  {
    NamesShowTheirVersion(zeros, n, tail);
    var name := entries[i].name;
    assert name[|name| - 4..] == ".sql";
    assert IsRelevant(entries[i]);
    var m := MigrationOf(entries[i], digest);
    assert FromDirectory(m, entries, digest);
    var k :| 0 <= k < |ms| && ms[k] == m;
  }

  /** Of two files, the one with the numerically smaller version comes first, however the names are padded. */
  lemma SmallerNumbersComeFirst(entries: seq<Entry>, ms: seq<Migration>, digest: string -> string, j: nat, k: nat,
                                zeros: nat, n: nat, tail: string, zeros': nat, n': nat, tail': string)
    requires Loaded(entries, ms, digest) && j < |ms| && k < |ms|
    requires ms[j].name == FileName(zeros, n, tail) && ms[k].name == FileName(zeros', n', tail')
    ensures n < n' <==> j < k
  {
    LoadedVersion(entries, ms, digest, j, zeros, n, tail);
    LoadedVersion(entries, ms, digest, k, zeros', n', tail');
    assert ByVersion()(ms[j]) == n && ByVersion()(ms[k]) == n';
  }

  lemma LoadedVersion(entries: seq<Entry>, ms: seq<Migration>, digest: string -> string, j: nat, zeros: nat, n: nat,
                      tail: string)
    requires Loaded(entries, ms, digest) && j < |ms| && ms[j].name == FileName(zeros, n, tail)
    ensures ms[j].version == n
  {
    assert ms[j] in ms;
    var i :| 0 <= i < |entries| && IsRelevant(entries[i]) && IsAcceptable(entries[i])
             && MigrationOf(entries[i], digest) == ms[j];
    NamesShowTheirVersion(zeros, n, tail);
  }

  // ----- line ends

  /** The text as it looks when every line ends in CRLF. */
  function WithCrlf(text: string): string {
    if text == "" then "" else (if text[0] == '\n' then "\r\n" else [text[0]]) + WithCrlf(text[1..])
  }

  lemma NoCarriageReturn(text: string)
    requires text != "" && text[0] != '\r'
    ensures !StartsWith(text, 0, "\r\n")
  {
    if |text| >= 2 {
      assert text[0..2][0] == text[0];
    }
  }

  /** A text and its CRLF form have the same digest and the same statements: the ends of lines are made alike. */
  lemma {:induction false} LineEndsAreMadeAlike(text: string)
    requires '\r' !in text
    ensures Normalized(WithCrlf(text)) == text && Normalized(text) == text
  {
    if text != "" {
      LineEndsAreMadeAlike(text[1..]);
      var rest := WithCrlf(text[1..]);
      assert text == [text[0]] + text[1..];
      if text[0] == '\n' {
        assert WithCrlf(text)[0..2] == "\r\n" && WithCrlf(text)[2..] == rest;
      } else {
        assert WithCrlf(text)[0] == text[0] && WithCrlf(text)[1..] == rest;
        NoCarriageReturn(WithCrlf(text));
      }
      NoCarriageReturn(text);
    }
  }

  // ----- one run, from start to end

  /** The newest run is this far on, the others have not moved, and the database is this. */
  ghost predicate At(happenings: seq<Happening>, others: seq<Runner>, db: Database, list: seq<Migration>, phase: Phase) {
    Run(happenings) == Some(System(db, others + [Runner(list, phase)], if HoldsLock(phase) then Some(|others|) else None))
  }

  lemma Starts(happenings: seq<Happening>, list: seq<Migration>)
    requires Run(happenings).Some? && Run(happenings).value.holder.None? && Allowed(Run(happenings).value, Deploys(list))
    ensures At(happenings + [Deploys(list)], Run(happenings).value.runners, Run(happenings).value.db, list, Waiting)
    ensures Sorted(list)
  {
    assert (happenings + [Deploys(list)])[..|happenings|] == happenings;
  }

  lemma GoesOn(happenings: seq<Happening>, others: seq<Runner>, db: Database, list: seq<Migration>, phase: Phase,
               ending: Ending, later: Database, next: Phase)
    requires At(happenings, others, db, list, phase)
    requires phase == Waiting ==> later == db && next == Locked
    requires phase != Waiting ==> HoldsLock(phase) && Step(db, Runner(list, phase), ending) == (later, next)
    ensures At(happenings + [Advances(|others|, ending)], others, later, list, next)
  {
    assert (happenings + [Advances(|others|, ending)])[..|happenings|] == happenings;
    assert (others + [Runner(list, phase)])[|others| := Runner(list, next)] == others + [Runner(list, next)];
  }

  /** The happenings of a run on its own. */
  ghost predicate OfOneRun(more: seq<Happening>, k: nat, list: seq<Migration>, last: Ending) {
    && |more| >= 2 && more[0] == Deploys(list) && more[|more| - 1] == Advances(k, last)
    && forall i | 1 <= i < |more| - 1 :: more[i] == Advances(k, Committed)
  }

  /** The run gets the lock and asks whether the history table is there. */
  lemma Asks(happenings: seq<Happening>, list: seq<Migration>) returns (more: seq<Happening>)
    requires Run(happenings).Some? && Run(happenings).value.holder.None? && Allowed(Run(happenings).value, Deploys(list))
    ensures var sys := Run(happenings).value;
            && more == [Deploys(list), Advances(|sys.runners|, Committed), Advances(|sys.runners|, Committed)]
            && At(happenings + more, sys.runners, sys.db, list, if sys.db.tracked then MustReadHistory else MustBeEmpty)
  {
    var sys := Run(happenings).value;
    var go := Advances(|sys.runners|, Committed);
    Starts(happenings, list);
    var one := happenings + [Deploys(list)];
    GoesOn(one, sys.runners, sys.db, list, Waiting, Committed, sys.db, Locked);
    GoesOn(one + [go], sys.runners, sys.db, list, Locked, Committed, sys.db,
           if sys.db.tracked then MustReadHistory else MustBeEmpty);
    more := [Deploys(list), go, go];
    assert happenings + more == one + [go] + [go];
  }

  /** In an empty database it creates the table. */
  lemma ComesToHistory(happenings: seq<Happening>, list: seq<Migration>) returns (more: seq<Happening>)
    requires Run(happenings).Some? && Run(happenings).value.holder.None? && Allowed(Run(happenings).value, Deploys(list))
    requires var db := Run(happenings).value.db; db.tracked || (!db.foreign && db.schema == [])
    ensures var sys := Run(happenings).value;
            && OfOneRun(more, |sys.runners|, list, Committed)
            && At(happenings + more, sys.runners, sys.db.(tracked := true), list, MustReadHistory)
  {
    var sys := Run(happenings).value;
    var go := Advances(|sys.runners|, Committed);
    more := Asks(happenings, list);
    if sys.db.tracked {
      assert sys.db.(tracked := true) == sys.db;
    } else {
      var one := happenings + more;
      GoesOn(one, sys.runners, sys.db, list, MustBeEmpty, Committed, sys.db, MustCreateHistory);
      GoesOn(one + [go], sys.runners, sys.db, list, MustCreateHistory, Committed, sys.db.(tracked := true), MustReadHistory);
      assert happenings + (more + [go, go]) == one + [go] + [go];
      more := more + [go, go];
    }
  }

  /** The run finds what it needs and comes to the first migration that is not in. */
  lemma ComesToApplying(happenings: seq<Happening>, list: seq<Migration>, n: nat) returns (more: seq<Happening>)
    requires Run(happenings).Some? && Run(happenings).value.holder.None? && Allowed(Run(happenings).value, Deploys(list))
    requires n <= |list| && Run(happenings).value.db.history == Records(list[..n])
    requires var db := Run(happenings).value.db; db.tracked || (!db.foreign && db.schema == [])
    ensures var sys := Run(happenings).value;
            && OfOneRun(more, |sys.runners|, list, Committed)
            && At(happenings + more, sys.runners, sys.db.(tracked := true), list, Applying(n))
  {
    var sys := Run(happenings).value;
    var db, go := sys.db.(tracked := true), Advances(|sys.runners|, Committed);
    var before := ComesToHistory(happenings, list);
    assert Records(list)[..n] == Records(list[..n]);
    GoesOn(happenings + before, sys.runners, db, list, MustReadHistory, Committed, db, Applying(n));
    more := before + [go];
    assert happenings + before + [go] == happenings + more;
  }

  /** The database after the run has come from migration n to migration j. */
  function AppliedUpTo(db: Database, list: seq<Migration>, n: nat, j: nat): Database
    requires n <= j <= |list|
  {
    db.(tracked := true, history := Records(list[..j]), schema := db.schema + Texts(list[n..j]))
  }

  lemma OneMigration(db: Database, list: seq<Migration>, n: nat, j: nat, ending: Ending)
    requires n <= j < |list| && Sorted(list)
    ensures Step(AppliedUpTo(db, list, n, j), Runner(list, Applying(j)), ending)
            == (AppliedUpTo(db, list, n, if ending == RolledBack then j else j + 1),
                if ending == Committed then Applying(j + 1) else Ended)
  {
    var before, m := AppliedUpTo(db, list, n, j), list[j];
    NextVersionIsNew(list, list[..j]);
    assert list[..j + 1] == list[..j] + [m] && list[n..j + 1] == list[n..j] + [m];
    assert AppliedUpTo(db, list, n, j + 1).schema == before.schema + [m.sql];
    assert AppliedUpTo(db, list, n, j + 1).history == before.history + [RecordOf(m)];
  }

  lemma {:induction false} AppliesOnward(happenings: seq<Happening>, others: seq<Runner>, db: Database, list: seq<Migration>,
                                         n: nat, j: nat) returns (more: seq<Happening>)
    requires n <= j <= |list| && Sorted(list) && db.tracked && db.history == Records(list[..n])
    requires At(happenings, others, db, list, Applying(n))
    ensures forall i | 0 <= i < |more| :: more[i] == Advances(|others|, Committed)
    ensures At(happenings + more, others, AppliedUpTo(db, list, n, j), list, Applying(j))
    decreases j
  {
    if n == j {
      more := [];
      assert happenings + more == happenings && db.schema + Texts(list[n..n]) == db.schema;
    } else {
      more := AppliesOnward(happenings, others, db, list, n, j - 1);
      OneMigration(db, list, n, j - 1, Committed);
      GoesOn(happenings + more, others, AppliedUpTo(db, list, n, j - 1), list, Applying(j - 1), Committed,
             AppliedUpTo(db, list, n, j), Applying(j));
      assert happenings + more + [Advances(|others|, Committed)] == happenings + (more + [Advances(|others|, Committed)]);
      more := more + [Advances(|others|, Committed)];
    }
  }

  lemma ComesTo(happenings: seq<Happening>, list: seq<Migration>, n: nat, j: nat) returns (more: seq<Happening>)
    requires Run(happenings).Some? && Run(happenings).value.holder.None? && Allowed(Run(happenings).value, Deploys(list))
    requires n <= j <= |list| && Run(happenings).value.db.history == Records(list[..n])
    requires var db := Run(happenings).value.db; db.tracked || (!db.foreign && db.schema == [])
    ensures var sys := Run(happenings).value;
            && OfOneRun(more, |sys.runners|, list, Committed)
            && At(happenings + more, sys.runners, AppliedUpTo(sys.db, list, n, j), list, Applying(j))
  {
    var sys := Run(happenings).value;
    Starts(happenings, list);
    var first := ComesToApplying(happenings, list, n);
    var onward := AppliesOnward(happenings + first, sys.runners, sys.db.(tracked := true), list, n, j);
    more := first + onward;
    assert happenings + first + onward == happenings + more;
  }

  /**
   * With the lock free, on a database that is tracked or empty and whose history is the first part of
   * the list, a run can be carried out to the end, and then it has applied exactly what was missing, in
   * order, and nobody has the lock.
   */
  lemma RunAppliesWhatIsMissing(happenings: seq<Happening>, list: seq<Migration>, n: nat) returns (more: seq<Happening>)
    requires Run(happenings).Some? && Run(happenings).value.holder.None? && Allowed(Run(happenings).value, Deploys(list))
    requires n <= |list| && Run(happenings).value.db.history == Records(list[..n])
    requires var db := Run(happenings).value.db; db.tracked || (!db.foreign && db.schema == [])
    ensures var sys := Run(happenings).value;
            && OfOneRun(more, |sys.runners|, list, Committed)
            && Run(happenings + more) == Some(System(
                 sys.db.(tracked := true, history := Records(list), schema := sys.db.schema + Texts(list[n..])),
                 sys.runners + [Runner(list, Succeeded)], None))
  {
    var sys := Run(happenings).value;
    more := ComesTo(happenings, list, n, |list|);
    var db := AppliedUpTo(sys.db, list, n, |list|);
    assert list[..|list|] == list && list[n..|list|] == list[n..];
    GoesOn(happenings + more, sys.runners, db, list, Applying(|list|), Committed, db, Succeeded);
    var k := |sys.runners|;
    assert happenings + more + [Advances(k, Committed)] == happenings + (more + [Advances(k, Committed)]);
    more := more + [Advances(k, Committed)];
  }

  /** A migration the database rolls back ends the run right before it, one whose commit goes unheard right after it. */
  lemma RunStopsAtTheFirstFailure(happenings: seq<Happening>, list: seq<Migration>, n: nat, j: nat, ending: Ending)
    returns (more: seq<Happening>)
    requires Run(happenings).Some? && Run(happenings).value.holder.None? && Allowed(Run(happenings).value, Deploys(list))
    requires n <= j < |list| && Run(happenings).value.db.history == Records(list[..n])
    requires var db := Run(happenings).value.db; db.tracked || (!db.foreign && db.schema == [])
    requires ending != Committed
    ensures var sys := Run(happenings).value;
            var reached := if ending == RolledBack then j else j + 1;
            && OfOneRun(more, |sys.runners|, list, ending)
            && Run(happenings + more) == Some(System(
                 sys.db.(tracked := true, history := Records(list[..reached]),
                         schema := sys.db.schema + Texts(list[n..reached])),
                 sys.runners + [Runner(list, Ended)], None))
  {
    var sys := Run(happenings).value;
    more := ComesTo(happenings, list, n, j);
    Starts(happenings, list);
    OneMigration(sys.db, list, n, j, ending);
    GoesOn(happenings + more, sys.runners, AppliedUpTo(sys.db, list, n, j), list, Applying(j), ending,
           AppliedUpTo(sys.db, list, n, if ending == RolledBack then j else j + 1), Ended);
    var k := |sys.runners|;
    assert happenings + more + [Advances(k, ending)] == happenings + (more + [Advances(k, ending)]);
    more := more + [Advances(k, ending)];
  }

  /** A database somebody else uses, or one whose history is not the first part of the list, is left alone. */
  lemma RunLeavesOthersAlone(happenings: seq<Happening>, list: seq<Migration>) returns (more: seq<Happening>)
    requires Run(happenings).Some? && Run(happenings).value.holder.None? && Allowed(Run(happenings).value, Deploys(list))
    requires var db := Run(happenings).value.db;
             if db.tracked then !(db.history <= Records(list)) else db.foreign || db.schema != []
    ensures var sys := Run(happenings).value;
            && OfOneRun(more, |sys.runners|, list, Committed)
            && Run(happenings + more) == Some(sys.(runners := sys.runners + [Runner(list, Ended)]))
  {
    var sys := Run(happenings).value;
    var go := Advances(|sys.runners|, Committed);
    var before := Asks(happenings, list);
    GoesOn(happenings + before, sys.runners, sys.db, list, if sys.db.tracked then MustReadHistory else MustBeEmpty, Committed,
           sys.db, Ended);
    more := before + [go];
    assert happenings + before + [go] == happenings + more;
  }

  /** A run that dies ends and gives back the lock if it had it; history, schema and the other runs stay. */
  lemma DyingReleasesTheLock(sys: System, k: nat)
    requires k < |sys.runners|
    ensures Allowed(sys, Dies(k))
    ensures var after := Happen(sys, Dies(k));
            && after.db == sys.db && |after.runners| == |sys.runners|
            && after.runners[k] == Runner(sys.runners[k].list, Ended)
            && (forall j | 0 <= j < |sys.runners| && j != k :: after.runners[j] == sys.runners[j])
            && after.holder == match sys.holder case None => None case Some(j) => if j == k then None else Some(j)
  {
  }

  /** A waiting run gets the lock exactly when nobody has it. */
  lemma WaitingEndsWithTheLock(sys: System, k: nat, ending: Ending)
    requires k < |sys.runners| && sys.runners[k].phase == Waiting
    ensures Allowed(sys, Advances(k, ending)) <==> sys.holder.None?
    ensures sys.holder.None? ==>
              var after := Happen(sys, Advances(k, ending));
              && after.db == sys.db && after.holder == Some(k) && HoldsLock(after.runners[k].phase)
              && after.runners == sys.runners[k := Runner(sys.runners[k].list, after.runners[k].phase)]
  {
  }

  /** A table of somebody else's is all that such an event adds; an untracked database is left alone from then on. */
  lemma ForeignTableStays(happenings: seq<Happening>)
    requires Run(happenings).Some?
    ensures Run(happenings + [SomebodyCreatesATable]).Some?
    ensures var (before, after) := (Run(happenings).value, Run(happenings + [SomebodyCreatesATable]).value);
            && after.db.foreign && after.db.tracked == before.db.tracked && after.db.history == before.db.history
            && after.db.schema == before.db.schema && after.runners == before.runners && after.holder == before.holder
  {
    assert (happenings + [SomebodyCreatesATable])[..|happenings|] == happenings;
  }
}
