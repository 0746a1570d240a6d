/** Reading a table page by page, each page starting after the last key of the one before. */
module Keyset {
  import opened Wrappers
  import opened Sorting

  ghost predicate StrictOrder<K(!new)>(less: (K, K) -> bool) {
    && (forall a :: !less(a, a))
    && (forall a, b, c :: less(a, b) && less(b, c) ==> less(a, c))
    && (forall a, b :: less(a, b) || a == b || less(b, a))
  }

  function Select<T>(rows: seq<T>, keep: T -> bool): seq<T> {
    if rows == [] then [] else (if keep(rows[0]) then [rows[0]] else []) + Select(rows[1..], keep)
  }

  function NoLater<T, K>(key: T -> K, less: (K, K) -> bool): (T, T) -> bool {
    (a: T, b: T) => !less(key(b), key(a))
  }

  ghost predicate DistinctKeys<T, K>(rows: seq<T>, key: T -> K) {
    forall i, j | 0 <= i < j < |rows| :: key(rows[i]) != key(rows[j])
  }

  /** All wanted rows in the order of their keys. */
  function Listing<T, K>(rows: seq<T>, wanted: T -> bool, key: T -> K, less: (K, K) -> bool): seq<T> {
    Sort(Select(rows, wanted), NoLater(key, less))
  }

  function Beyond<T, K(==)>(wanted: T -> bool, key: T -> K, less: (K, K) -> bool, after: Option<K>): T -> bool {
    (row: T) => wanted(row) && (after.None? || less(after.value, key(row)))
  }

  function Take<T>(n: nat, rows: seq<T>): seq<T> { if n < |rows| then rows[..n] else rows }

  /** `where wanted and key > after order by key limit n`. */
  function Page<T, K(==)>(rows: seq<T>, wanted: T -> bool, key: T -> K, less: (K, K) -> bool, after: Option<K>, n: nat): seq<T> {
    Take(n, Listing(rows, Beyond(wanted, key, less, after), key, less))
  }

  /* ---- Selecting ---- */

  lemma {:induction false} SelectCounts<T>(rows: seq<T>, keep: T -> bool, x: T)
    ensures multiset(Select(rows, keep))[x] == if keep(x) then multiset(rows)[x] else 0
  {
    if rows != [] {
      SelectCounts(rows[1..], keep, x);
      assert rows == [rows[0]] + rows[1..];
    }
  }

  lemma SelectOfPermutation<T>(a: seq<T>, b: seq<T>, keep: T -> bool)
    requires multiset(a) == multiset(b)
    ensures multiset(Select(a, keep)) == multiset(Select(b, keep))
  {
    var (p, q) := (multiset(Select(a, keep)), multiset(Select(b, keep)));
    forall x ensures p[x] == q[x] {
      SelectCounts(a, keep, x);
      SelectCounts(b, keep, x);
    }
    assert p == q;
  }

  lemma {:induction false} SelectTwice<T>(rows: seq<T>, first: T -> bool, both: T -> bool)
    requires forall x :: both(x) ==> first(x)
    ensures Select(Select(rows, first), both) == Select(rows, both)
  {
    if rows != [] {
      SelectTwice(rows[1..], first, both);
      assert both(rows[0]) ==> first(rows[0]);
      var once := Select(rows, first);
      if first(rows[0]) {
        assert once[0] == rows[0] && once[1..] == Select(rows[1..], first);
      } else {
        assert once == Select(rows[1..], first);
      }
    }
  }

  lemma {:induction false} SelectSuffix<T>(rows: seq<T>, keep: T -> bool, k: nat)
    requires k <= |rows| && forall j | 0 <= j < |rows| :: keep(rows[j]) <==> k <= j
    ensures Select(rows, keep) == rows[k..]
  {
    if rows != [] {
      SelectSuffix(rows[1..], keep, if k > 0 then k - 1 else 0);
      assert k > 0 ==> rows[1..][k - 1..] == rows[k..];
    }
  }

  lemma {:induction false} SelectMembers<T>(rows: seq<T>, keep: T -> bool)
    ensures forall x | x in Select(rows, keep) :: x in rows && keep(x)
    ensures forall x | x in rows && keep(x) :: x in Select(rows, keep)
  {
    if rows != [] { SelectMembers(rows[1..], keep); }
  }

  lemma {:induction false} SelectKeepsDistinct<T, K>(rows: seq<T>, keep: T -> bool, key: T -> K)
    requires DistinctKeys(rows, key)
    ensures DistinctKeys(Select(rows, keep), key)
  {
    if rows != [] {
      var rest := Select(rows[1..], keep);
      assert DistinctKeys(rows[1..], key) by {
        forall i, j | 0 <= i < j < |rows[1..]| ensures key(rows[1..][i]) != key(rows[1..][j]) {
          assert rows[1..][i] == rows[i + 1] && rows[1..][j] == rows[j + 1];
        }
      }
      SelectKeepsDistinct(rows[1..], keep, key);
      SelectMembers(rows[1..], keep);
      forall j | 0 <= j < |rest| ensures key(rest[j]) != key(rows[0]) {
        assert rest[j] in rows[1..];
        var i :| 0 <= i < |rows[1..]| && rows[1..][i] == rest[j];
        assert rows[i + 1] == rest[j];
      }
    }
  }

  /* ---- The listing is strictly ordered ---- */

  lemma OrderIsTotal<T(!new), K(!new)>(key: T -> K, less: (K, K) -> bool)
    requires StrictOrder(less)
    ensures forall a, b :: NoLater(key, less)(a, b) || NoLater(key, less)(b, a)
    ensures forall a, b, c :: NoLater(key, less)(a, b) && NoLater(key, less)(b, c) ==> NoLater(key, less)(a, c)
  {
    forall a, b ensures NoLater(key, less)(a, b) || NoLater(key, less)(b, a) {
      assert less(key(b), key(a)) && less(key(a), key(b)) ==> less(key(a), key(a));
    }
    forall a, b, c | NoLater(key, less)(a, b) && NoLater(key, less)(b, c) ensures NoLater(key, less)(a, c) {
      var (x, y, z) := (key(a), key(b), key(c));
      assert less(x, y) || x == y || less(y, x);
      assert less(y, z) || y == z || less(z, y);
    }
  }

  lemma DistinctCount<T, K>(rows: seq<T>, key: T -> K, i: nat)
    requires DistinctKeys(rows, key) && i < |rows|
    ensures multiset(rows)[rows[i]] == 1
  {
    assert rows == rows[..i] + [rows[i]] + rows[i + 1..];
    assert rows[i] !in rows[..i] && rows[i] !in rows[i + 1..];
  }

  lemma PermutationKeepsDistinct<T, K>(a: seq<T>, b: seq<T>, key: T -> K)
    requires multiset(a) == multiset(b) && DistinctKeys(a, key)
    ensures DistinctKeys(b, key)
  {
    SameMembers(b, a);
    forall i, j | 0 <= i < j < |b| ensures key(b[i]) != key(b[j]) {
      assert b[i] in a && b[j] in a;
      var p :| 0 <= p < |a| && a[p] == b[i];
      var q :| 0 <= q < |a| && a[q] == b[j];
      if p == q {
        DistinctCount(a, key, p);
        TwiceCounts(b, i, j);
      }
    }
  }

  lemma TwiceCounts<T>(s: seq<T>, i: nat, j: nat)
    requires i < j < |s| && s[i] == s[j]
    ensures multiset(s)[s[i]] >= 2
  {
    assert s == s[..i] + [s[i]] + s[i + 1..j] + [s[j]] + s[j + 1..];
  }

  lemma ListingIsStrict<T(!new), K(!new)>(rows: seq<T>, wanted: T -> bool, key: T -> K, less: (K, K) -> bool)
    requires StrictOrder(less) && DistinctKeys(rows, key)
    ensures var all := Listing(rows, wanted, key, less);
            && multiset(all) == multiset(Select(rows, wanted))
            && Sorted(all, NoLater(key, less)) && DistinctKeys(all, key)
            && forall i, j | 0 <= i < j < |all| :: less(key(all[i]), key(all[j]))
  {
    var all := Listing(rows, wanted, key, less);
    OrderIsTotal(key, less);
    SortKeeps(Select(rows, wanted), NoLater(key, less));
    SelectKeepsDistinct(rows, wanted, key);
    PermutationKeepsDistinct(Select(rows, wanted), all, key);
    forall i, j | 0 <= i < j < |all| ensures less(key(all[i]), key(all[j])) {
      SortedReaches(all, NoLater(key, less), i, j);
      assert key(all[i]) != key(all[j]);
    }
  }

  /** The first `k` rows of the listing have been read when `after` is the key of the last of them. */
  predicate ReadUpTo<T, K(==)>(all: seq<T>, key: T -> K, after: Option<K>, k: nat) {
    k <= |all| && (if k == 0 then after.None? else after == Some(key(all[k - 1])))
  }

  /** Asking for what lies beyond the last key read gives exactly what has not been read. */
  lemma BeyondIsTheRest<T(!new), K(!new)>(rows: seq<T>, wanted: T -> bool, key: T -> K, less: (K, K) -> bool, after: Option<K>, k: nat)
    requires StrictOrder(less) && DistinctKeys(rows, key)
    requires ReadUpTo(Listing(rows, wanted, key, less), key, after, k)
    ensures Listing(rows, Beyond(wanted, key, less, after), key, less) == Listing(rows, wanted, key, less)[k..]
  {
    var all := Listing(rows, wanted, key, less);
    var beyond := Beyond(wanted, key, less, after);
    var rest := Listing(rows, beyond, key, less);
    ListingIsStrict(rows, wanted, key, less);
    ListingIsStrict(rows, beyond, key, less);
    SelectMembers(rows, wanted);
    SameMembers(all, Select(rows, wanted));
    forall j | 0 <= j < |all| ensures beyond(all[j]) <==> k <= j {
      assert all[j] in Select(rows, wanted);
      if k > 0 && j < k - 1 { assert less(key(all[j]), key(all[k - 1])); }
    }
    SelectSuffix(all, beyond, k);
    SelectTwice(rows, wanted, beyond);
    SelectOfPermutation(all, Select(rows, wanted), beyond);
    SuffixIsTheListing(all, k, rest, key, less);
  }

  lemma SuffixIsTheListing<T(!new), K(!new)>(all: seq<T>, k: nat, rest: seq<T>, key: T -> K, less: (K, K) -> bool)
    requires StrictOrder(less) && k <= |all| && multiset(rest) == multiset(all[k..]) && Sorted(rest, NoLater(key, less))
    requires forall i, j | 0 <= i < j < |all| :: less(key(all[i]), key(all[j]))
    ensures rest == all[k..]
  {
    OrderIsTotal(key, less);
    StrictOrderIsUnique(rest, all[k..], NoLater(key, less));
  }

  /** A page after `k` rows is the next rows of the listing. */
  lemma PageIsNext<T(!new), K(!new)>(rows: seq<T>, wanted: T -> bool, key: T -> K, less: (K, K) -> bool, after: Option<K>, k: nat, n: nat)
    requires StrictOrder(less) && DistinctKeys(rows, key)
    requires ReadUpTo(Listing(rows, wanted, key, less), key, after, k)
    ensures Page(rows, wanted, key, less, after, n) == Take(n, Listing(rows, wanted, key, less)[k..])
  {
    BeyondIsTheRest(rows, wanted, key, less, after, k);
  }

  /* ---- Following cursors ---- */

  datatype Slice<T, C> = Slice(items: seq<T>, next: Option<C>)

  /** Serves the page behind a cursor, or the first page, with at most so many rows. */
  type Lister<!T, !C, !E> = (Option<C>, nat) -> Result<Slice<T, C>, E>

  /** Follows next cursors, with `limits(n)` for the page that has `n` pages to go, for at most `pages`
      pages. */
  function Follow<T, C, E>(lister: Lister<T, C, E>, cursor: Option<C>, limits: nat -> nat, pages: nat): Result<seq<T>, E>
    decreases pages
  {
    if pages == 0 then Ok([])
    else
      match lister(cursor, limits(pages))
      case Err(e) => Err(e)
      case Ok(page) =>
        if page.next.None? then Ok(page.items)
        else
          match Follow(lister, page.next, limits, pages - 1)
          case Err(e) => Err(e)
          case Ok(rest) => Ok(page.items + rest)
  }

  /** `leads(cursor, k)` says that the first `k` rows lie before the cursor. */
  ghost predicate IsSlice<T, C(!new)>(page: Slice<T, C>, all: seq<T>, leads: (Option<C>, nat) -> bool, limit: nat, k: nat)
    requires k <= |all|
  {
    if |all| - k > limit
    then page.items == all[k..k + limit] && page.next.Some? && leads(page.next, k + limit)
    else page == Slice(all[k..], None)
  }

  ghost predicate Serves<T, C(!new), E>(lister: Lister<T, C, E>, all: seq<T>, leads: (Option<C>, nat) -> bool) {
    forall cursor, k: nat, limit: nat | k <= |all| && limit >= 1 && leads(cursor, k) ::
      lister(cursor, limit).Ok? && IsSlice(lister(cursor, limit).value, all, leads, limit, k)
  }

  /** Following the cursors of a lister reads all rows that are left, each once and in order, and ends. */
  lemma {:induction false} FollowFrom<T, C(!new), E>(lister: Lister<T, C, E>, all: seq<T>, leads: (Option<C>, nat) -> bool,
                                                     cursor: Option<C>, limits: nat -> nat, pages: nat, k: nat)
    requires Serves(lister, all, leads) && k <= |all| < k + pages && leads(cursor, k)
    requires forall n :: limits(n) >= 1
    ensures Follow(lister, cursor, limits, pages) == Ok(all[k..])
    decreases pages
  {
    var limit := limits(pages);
    var page := lister(cursor, limit);
    assert page.Ok? && IsSlice(page.value, all, leads, limit, k);
    if |all| - k > limit {
      FollowFrom(lister, all, leads, page.value.next, limits, pages - 1, k + limit);
      assert all[k..] == all[k..k + limit] + all[k + limit..];
    }
  }
}
