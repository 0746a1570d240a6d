/** The repository's migration files and what the database's records say about them. */
module MigrationFiles {
  import opened Wrappers
  import opened Sorting

  /* ---- Names ---- */

  predicate IsDigit(c: char) { '0' <= c <= '9' }
  predicate IsNameChar(c: char) { 'a' <= c <= 'z' || IsDigit(c) || c == '_' }

  /** Four digits, an underscore, a name and `.sql`. */
  predicate IsMigrationName(s: string) {
    && |s| >= 10
    && (forall k | 0 <= k < 4 :: IsDigit(s[k]))
    && s[4] == '_'
    && (forall k | 5 <= k < |s| - 4 :: IsNameChar(s[k]))
    && s[|s| - 4..] == ".sql"
  }

  function Digit(c: char): nat
    requires IsDigit(c)
  {
    c as int - '0' as int
  }

  function Rank(s: string): nat
    requires IsMigrationName(s)
  {
    10 * (10 * (10 * Digit(s[0]) + Digit(s[1])) + Digit(s[2])) + Digit(s[3])
  }

  /** Ranks tell prefixes apart. */
  lemma RankIsPrefix(a: string, b: string)
    requires IsMigrationName(a) && IsMigrationName(b)
    ensures Rank(a) == Rank(b) <==> a[..4] == b[..4]
  {
    var (m, n) := (10 * Digit(a[0]) + Digit(a[1]), 10 * Digit(b[0]) + Digit(b[1]));
    LastDigit(10 * m + Digit(a[2]), Digit(a[3]), 10 * n + Digit(b[2]), Digit(b[3]));
    LastDigit(m, Digit(a[2]), n, Digit(b[2]));
    LastDigit(Digit(a[0]), Digit(a[1]), Digit(b[0]), Digit(b[1]));
    FourCharacters(a, b);
  }

  lemma LastDigit(m: nat, d: nat, n: nat, e: nat)
    requires d < 10 && e < 10
    ensures 10 * m + d == 10 * n + e <==> m == n && d == e
    ensures 10 * m + d < 10 * n + e <==> m < n || (m == n && d < e)
  {
  }

  lemma FourCharacters(a: string, b: string)
    requires |a| >= 4 && |b| >= 4
    ensures a[..4] == b[..4] <==> a[0] == b[0] && a[1] == b[1] && a[2] == b[2] && a[3] == b[3]
  {
    var (p, q) := (a[..4], b[..4]);
    assert p == [a[0], a[1], a[2], a[3]] && q == [b[0], b[1], b[2], b[3]];
  }

  /** The `<=` of JavaScript strings. */
  predicate CodeUnitLessEq(a: string, b: string) {
    a == [] || (b != [] && (a[0] < b[0] || (a[0] == b[0] && CodeUnitLessEq(a[1..], b[1..]))))
  }

  lemma {:induction false} CodeUnitDiffers(a: string, b: string, k: nat)
    requires k < |a| && k < |b| && a[..k] == b[..k] && a[k] < b[k]
    ensures CodeUnitLessEq(a, b) && !CodeUnitLessEq(b, a)
  {
    if k > 0 {
      assert a[0] == a[..k][0] && b[0] == b[..k][0];
      assert a[1..][..k - 1] == a[..k][1..] && b[1..][..k - 1] == b[..k][1..];
      CodeUnitDiffers(a[1..], b[1..], k - 1);
    }
  }

  lemma {:induction false} CodeUnitReflexive(a: string)
    ensures CodeUnitLessEq(a, a)
  {
    if a != [] { CodeUnitReflexive(a[1..]); }
  }

  /** On names with different prefixes the code-unit order is the order of the prefixes. */
  lemma CodeUnitOrderIsRank(a: string, b: string)
    requires IsMigrationName(a) && IsMigrationName(b) && Rank(a) < Rank(b)
    ensures CodeUnitLessEq(a, b) && !CodeUnitLessEq(b, a)
  {
    if a[0] != b[0] { CodeUnitDiffers(a, b, 0); }
    else if a[1] != b[1] { assert a[..1] == b[..1]; CodeUnitDiffers(a, b, 1); }
    else if a[2] != b[2] { assert a[..2] == b[..2]; CodeUnitDiffers(a, b, 2); }
    else { assert a[..3] == b[..3]; CodeUnitDiffers(a, b, 3); }
  }

  /** What the runner needs of the locale's order: it is total, and on migration names with different
      prefixes it is the order of the prefixes. */
  ghost predicate LocaleOrder(leq: (string, string) -> bool) {
    && (forall a, b :: leq(a, b) || leq(b, a))
    && (forall a, b, c :: leq(a, b) && leq(b, c) ==> leq(a, c))
    && (forall a, b :: IsMigrationName(a) && IsMigrationName(b) && Rank(a) < Rank(b) ==> !leq(b, a))
  }

  /* ---- Reading the directory ---- */

  datatype Entry = Entry(name: string, isFile: bool)

  datatype FilesError = NoMigrations | DuplicatePrefix

  function MigrationNames(entries: seq<Entry>): (names: seq<string>)
    ensures forall name | name in names :: IsMigrationName(name)
  {
    if entries == [] then []
    else
      (if entries[0].isFile && IsMigrationName(entries[0].name) then [entries[0].name] else [])
      + MigrationNames(entries[1..])
  }

  function ReadNames(entries: seq<Entry>, leq: (string, string) -> bool): Result<seq<string>, FilesError> {
    var names := Sort(MigrationNames(entries), leq);
    if names == [] then Err(NoMigrations)
    else if exists k | 0 < k < |names| :: names[k][..Four(names[k])] == names[k - 1][..Four(names[k - 1])] then Err(DuplicatePrefix)
    else Ok(names)
  }

  /** `slice(0, 4)`. */
  function Four(s: string): nat { if |s| < 4 then |s| else 4 }

  /** In order of their prefixes, which are all different. */
  ghost predicate ByRank(names: seq<string>) {
    && (forall k | 0 <= k < |names| :: IsMigrationName(names[k]))
    && (forall i, j | 0 <= i < j < |names| :: Rank(names[i]) < Rank(names[j]))
  }

  /** No two entries of the directory share a prefix. */
  ghost predicate UniquePrefixes(names: multiset<string>) {
    forall a, b | a in names && b in names && a[..Four(a)] == b[..Four(b)] :: a == b && names[a] == 1
  }

  lemma {:induction false} NeighboursDecide(names: seq<string>, i: nat, j: nat)
    requires forall k | 0 <= k < |names| :: IsMigrationName(names[k])
    requires forall k | 0 < k < |names| :: Rank(names[k - 1]) < Rank(names[k])
    requires i < j < |names|
    ensures Rank(names[i]) < Rank(names[j])
  {
    if i + 1 < j { NeighboursDecide(names, i, j - 1); }
  }

  lemma OccursOnce(names: seq<string>, i: nat)
    requires ByRank(names) && i < |names|
    ensures multiset(names)[names[i]] == 1
  {
    var a := names[i];
    assert names == names[..i] + [a] + names[i + 1..];
    assert a !in names[..i] && a !in names[i + 1..];
  }

  lemma ByRankIsUnique(names: seq<string>)
    requires ByRank(names)
    ensures UniquePrefixes(multiset(names))
  {
    forall a, b | a in multiset(names) && b in multiset(names) && a[..Four(a)] == b[..Four(b)]
      ensures a == b && multiset(names)[a] == 1
    {
      var i :| 0 <= i < |names| && names[i] == a;
      var j :| 0 <= j < |names| && names[j] == b;
      RankIsPrefix(a, b);
      OccursOnce(names, i);
    }
  }

  lemma TwiceMeansNotUnique(names: seq<string>, k: nat)
    requires 0 < k < |names| && names[k][..Four(names[k])] == names[k - 1][..Four(names[k - 1])]
    ensures !UniquePrefixes(multiset(names))
  {
    var (a, b) := (names[k - 1], names[k]);
    assert names == names[..k - 1] + [a] + [b] + names[k + 1..];
    assert a in multiset(names) && b in multiset(names);
    if a == b { assert multiset(names)[a] >= 2; }
  }

  /** Comparing neighbours of the sorted names finds every shared prefix, in whatever way the locale
      orders names that share one; what is read is every migration, in the order of the prefixes. */
  lemma ReadNamesExactly(entries: seq<Entry>, leq: (string, string) -> bool)
    requires LocaleOrder(leq)
    ensures var found := multiset(MigrationNames(entries));
            match ReadNames(entries, leq)
            case Ok(names) => names != [] && multiset(names) == found && ByRank(names) && UniquePrefixes(found)
            case Err(NoMigrations) => found == multiset{}
            case Err(DuplicatePrefix) => !UniquePrefixes(found)
  {
    var names := Sort(MigrationNames(entries), leq);
    SortKeeps(MigrationNames(entries), leq);
    SameMembers(names, MigrationNames(entries));
    match ReadNames(entries, leq) {
      case Err(DuplicatePrefix) =>
        var k :| 0 < k < |names| && names[k][..Four(names[k])] == names[k - 1][..Four(names[k - 1])];
        TwiceMeansNotUnique(names, k);
      case Err(NoMigrations) => assert multiset(names) == multiset{};
      case Ok(_) => SortedNamesAreByRank(names, leq);
    }
  }

  lemma SortedNamesAreByRank(names: seq<string>, leq: (string, string) -> bool)
    requires LocaleOrder(leq) && Sorted(names, leq)
    requires forall k | 0 <= k < |names| :: IsMigrationName(names[k])
    requires forall k | 0 < k < |names| :: names[k][..Four(names[k])] != names[k - 1][..Four(names[k - 1])]
    ensures ByRank(names) && UniquePrefixes(multiset(names))
  {
    forall k | 0 < k < |names| ensures Rank(names[k - 1]) < Rank(names[k]) {
      RankIsPrefix(names[k - 1], names[k]);
      assert leq(names[k - 1], names[k]);
    }
    forall i, j | 0 <= i < j < |names| ensures Rank(names[i]) < Rank(names[j]) { NeighboursDecide(names, i, j); }
    ByRankIsUnique(names);
  }

  /* ---- Names and entries, spelled out ---- */

  predicate IsDecimal(c: char) { 48 <= c as int <= 57 }
  predicate IsLowerOrDecimal(c: char) { 97 <= c as int <= 122 || IsDecimal(c) || c as int == 95 }

  /** A migration's name is four digits, an underscore, a name of lower-case letters, digits and
      underscores, and `.sql`. */
  lemma NamesAreExactly(s: string)
    ensures IsMigrationName(s) <==>
              exists prefix, name ::
                && s == prefix + ("_" + (name + ".sql")) && |prefix| == 4 && name != []
                && (forall k | 0 <= k < 4 :: IsDecimal(prefix[k])) && (forall k | 0 <= k < |name| :: IsLowerOrDecimal(name[k]))
  {
    if IsMigrationName(s) {
      var (prefix, name) := (s[..4], s[5..|s| - 4]);
      assert s == prefix + ("_" + (name + ".sql"));
      forall k | 0 <= k < |name| ensures IsLowerOrDecimal(name[k]) { assert IsNameChar(s[k + 5]); }
    }
    forall prefix, name
      | s == prefix + ("_" + (name + ".sql")) && |prefix| == 4 && name != []
        && (forall k | 0 <= k < 4 :: IsDecimal(prefix[k])) && (forall k | 0 <= k < |name| :: IsLowerOrDecimal(name[k]))
      ensures IsMigrationName(s)
    {
      BuiltName(prefix, name);
    }
  }

  lemma BuiltName(prefix: string, name: string)
    requires |prefix| == 4 && name != []
    requires (forall k | 0 <= k < 4 :: IsDecimal(prefix[k])) && (forall k | 0 <= k < |name| :: IsLowerOrDecimal(name[k]))
    ensures IsMigrationName(prefix + ("_" + (name + ".sql")))
  {
    var s := prefix + ("_" + (name + ".sql"));
    assert s[|s| - 4..] == ".sql";
    forall k | 5 <= k < |s| - 4 ensures IsNameChar(s[k]) { assert s[k] == name[k - 5]; }
  }

  /** How many of the entries are files with this name. */
  function Occurrences(entries: seq<Entry>, name: string): nat {
    if entries == [] then 0
    else (if entries[0].isFile && entries[0].name == name then 1 else 0) + Occurrences(entries[1..], name)
  }

  /** Every file of the directory with a migration's name is read, as often as it is there, and nothing else. */
  lemma {:induction false} FilesAreRead(entries: seq<Entry>, name: string)
    ensures multiset(MigrationNames(entries))[name] == if IsMigrationName(name) then Occurrences(entries, name) else 0
  {
    if entries != [] {
      FilesAreRead(entries[1..], name);
      var head := if entries[0].isFile && IsMigrationName(entries[0].name) then [entries[0].name] else [];
      assert multiset(MigrationNames(entries)) == multiset(head) + multiset(MigrationNames(entries[1..]));
    }
  }
}
