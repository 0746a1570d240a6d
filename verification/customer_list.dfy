/** Listing customers page by page with opaque cursors. */
module CustomerList {
  import opened Wrappers
  import opened Sorting
  import opened Keyset
  import opened LikePrefix
  import opened CustomerCursor

  datatype Customer = Customer(id: string, name: string, phone: string, status: Status)

  datatype Key = Key(name: string, id: string)

  /** The database's orders of names and of ids. */
  datatype Orders = Orders(name: (string, string) -> bool, id: (string, string) -> bool)

  datatype ListError = BadCursor(error: CursorError) | CursorScope | CursorNotRepresentable

  type ListPage = Slice<Customer, string>

  /** How cursors are written and read. */
  datatype Codec = Codec(write: Cursor -> Result<string, CursorError>, read: string -> Result<Cursor, CursorError>)

  function CodecOf(reader: Reader): Codec { Codec((c: Cursor) => Encode(c), (text: string) => Decode(reader, text)) }

  function KeyOf(): Customer -> Key { (c: Customer) => Key(c.name, c.id) }

  function Less(orders: Orders): (Key, Key) -> bool {
    (a: Key, b: Key) => orders.name(a.name, b.name) || (a.name == b.name && orders.id(a.id, b.id))
  }

  /** The rows of a status that a search finds by name prefix or by phone. */
  function Wanted(status: Status, search: Option<Scope>): Customer -> bool {
    (c: Customer) =>
      && c.status == status
      && (search.None?
          || Like(c.name, EscapeCustomerNamePrefix(search.value.prefix) + "%")
          || (search.value.phone.Some? && search.value.phone.value != "" && c.phone == search.value.phone.value))
  }

  function Customers(rows: seq<Customer>, orders: Orders, status: Status, search: Option<Scope>): seq<Customer> {
    Listing(rows, Wanted(status, search), KeyOf(), Less(orders))
  }

  function AfterPosition(position: Option<Position>): Option<Key> {
    if position.Some? then Some(Key(position.value.name, position.value.id)) else None
  }

  /** The repository's query: one row more than the page, to see whether another page follows. */
  function Query(rows: seq<Customer>, orders: Orders, status: Status, search: Option<Scope>, position: Option<Position>, limit: nat): seq<Customer> {
    Page(rows, Wanted(status, search), KeyOf(), Less(orders), AfterPosition(position), limit + 1)
  }

  /** The page and the cursor of the next one. */
  function Cut(found: seq<Customer>, status: Status, search: Option<Scope>, limit: nat, codec: Codec): Result<ListPage, ListError> {
    var items := if |found| > limit then found[..limit] else found;
    if |found| > limit && items != [] then
      var last := items[|items| - 1];
      match codec.write(Cursor(status, search, Position(last.name, last.id)))
      case Ok(next) => Ok(Slice(items, Some(next)))
      case Err(_) => Err(CursorNotRepresentable)
    else Ok(Slice(items, None))
  }

  function List(rows: seq<Customer>, orders: Orders, status: Status, search: Option<Scope>, cursor: Option<string>, limit: nat, codec: Codec): Result<ListPage, ListError> {
    if cursor.None? then Cut(Query(rows, orders, status, search, None, limit), status, search, limit, codec)
    else
      match codec.read(cursor.value)
      case Err(e) => Err(BadCursor(e))
      case Ok(c) =>
        if !MatchesScope(c, status, search) then Err(CursorScope)
        else Cut(Query(rows, orders, status, search, Some(c.position), limit), status, search, limit, codec)
  }

  function ListerOf(rows: seq<Customer>, orders: Orders, status: Status, search: Option<Scope>, codec: Codec): Lister<Customer, string, ListError> {
    (cursor: Option<string>, limit: nat) => List(rows, orders, status, search, cursor, limit, codec)
  }

  /* ---- What is stored ---- */

  predicate Storable(c: Customer) {
    NameIsRepresentable(c.name) && IsCustomerId(c.id) && CanonicalId(c.id) == c.id
  }

  ghost predicate DistinctIds(rows: seq<Customer>) {
    forall i, j | 0 <= i < j < |rows| :: rows[i].id != rows[j].id
  }

  /** Ids are unique, and every name passed its guard. */
  ghost predicate IsTable(rows: seq<Customer>) {
    DistinctIds(rows) && forall c | c in rows :: Storable(c)
  }

  lemma KeysAreOrdered(orders: Orders)
    requires StrictOrder(orders.name) && StrictOrder(orders.id)
    ensures StrictOrder(Less(orders))
  {
    var (less, names, ids) := (Less(orders), orders.name, orders.id);
    forall a ensures !less(a, a) {
      assert !names(a.name, a.name) && !ids(a.id, a.id);
    }
    forall a, b, c | less(a, b) && less(b, c) ensures less(a, c) {
      assert names(a.name, b.name) && names(b.name, c.name) ==> names(a.name, c.name);
      assert ids(a.id, b.id) && ids(b.id, c.id) ==> ids(a.id, c.id);
    }
    forall a, b ensures less(a, b) || a == b || less(b, a) {
      assert names(a.name, b.name) || a.name == b.name || names(b.name, a.name);
      assert ids(a.id, b.id) || a.id == b.id || ids(b.id, a.id);
    }
  }

  /** A codec that writes and reads back the position of every customer of a listing. */
  ghost predicate Faithful(codec: Codec, all: seq<Customer>, status: Status, search: Option<Scope>) {
    forall c | c in all ::
      var cursor := Cursor(status, search, Position(c.name, c.id));
      codec.write(cursor).Ok? && codec.read(codec.write(cursor).value) == Ok(cursor)
  }

  lemma CodecIsFaithful(reader: Reader, all: seq<Customer>, status: Status, search: Option<Scope>)
    requires search.Some? ==> SearchIsRepresentable(search.value)
    requires ReadsEncoded(reader) && forall c | c in all :: Storable(c)
    ensures Faithful(CodecOf(reader), all, status, search)
  {
    forall c | c in all
      ensures var cursor := Cursor(status, search, Position(c.name, c.id));
              CodecOf(reader).write(cursor).Ok? && CodecOf(reader).read(CodecOf(reader).write(cursor).value) == Ok(cursor)
    {
      GuardedCursorsEncode(reader, status, search, c.name, c.id);
    }
  }

  /** The first `k` customers of the listing lie before the cursor. */
  function LeadsPast(all: seq<Customer>, status: Status, search: Option<Scope>, codec: Codec): (Option<string>, nat) -> bool {
    (cursor: Option<string>, k: nat) =>
      k <= |all|
      && if k == 0 then cursor.None?
         else cursor.Some? && codec.read(cursor.value) == Ok(Cursor(status, search, Position(all[k - 1].name, all[k - 1].id)))
  }

  /** The rows of a page that another one follows. */
  lemma PageRows(all: seq<Customer>, limit: nat, k: nat)
    requires k + limit < |all| && limit >= 1
    ensures var found := Take(limit + 1, all[k..]);
            |found| == limit + 1 && found[..limit] == all[k..k + limit] && found[..limit][limit - 1] == all[k + limit - 1]
  {
  }

  /** The cursor behind a page that another one follows. */
  lemma PageCursor(all: seq<Customer>, status: Status, search: Option<Scope>, n: nat, codec: Codec)
    requires Faithful(codec, all, status, search) && 1 <= n <= |all|
    ensures var written := codec.write(Cursor(status, search, Position(all[n - 1].name, all[n - 1].id)));
            written.Ok? && LeadsPast(all, status, search, codec)(Some(written.value), n)
  {
    assert all[n - 1] in all;
  }

  lemma CutIsSlice(all: seq<Customer>, status: Status, search: Option<Scope>, limit: nat, k: nat, codec: Codec)
    requires Faithful(codec, all, status, search) && k <= |all| && limit >= 1
    ensures var page := Cut(Take(limit + 1, all[k..]), status, search, limit, codec);
            page.Ok? && IsSlice(page.value, all, LeadsPast(all, status, search, codec), limit, k)
  {
    if k + limit < |all| {
      PageRows(all, limit, k);
      PageCursor(all, status, search, k + limit, codec);
    }
  }

  /** The page behind the cursor of the first `k` customers is the next ones. */
  lemma ListIsSlice(rows: seq<Customer>, orders: Orders, status: Status, search: Option<Scope>, cursor: Option<string>, limit: nat, k: nat, codec: Codec)
    requires DistinctIds(rows) && StrictOrder(orders.name) && StrictOrder(orders.id) && limit >= 1
    requires Faithful(codec, Customers(rows, orders, status, search), status, search)
    requires LeadsPast(Customers(rows, orders, status, search), status, search, codec)(cursor, k)
    ensures var all := Customers(rows, orders, status, search);
            var page := List(rows, orders, status, search, cursor, limit, codec);
            page.Ok? && IsSlice(page.value, all, LeadsPast(all, status, search, codec), limit, k)
  {
    ListIsCut(rows, orders, status, search, cursor, limit, k, codec);
    CutIsSlice(Customers(rows, orders, status, search), status, search, limit, k, codec);
  }

  /** A cursor that leads past the first `k` customers passes the scope check and cuts the rest. */
  lemma ListIsCut(rows: seq<Customer>, orders: Orders, status: Status, search: Option<Scope>, cursor: Option<string>, limit: nat, k: nat, codec: Codec)
    requires DistinctIds(rows) && StrictOrder(orders.name) && StrictOrder(orders.id)
    requires LeadsPast(Customers(rows, orders, status, search), status, search, codec)(cursor, k)
    ensures List(rows, orders, status, search, cursor, limit, codec)
         == Cut(Take(limit + 1, Customers(rows, orders, status, search)[k..]), status, search, limit, codec)
  {
    var all := Customers(rows, orders, status, search);
    if k == 0 {
      QueryIsNext(rows, orders, status, search, None, k, limit);
    } else {
      var position := Position(all[k - 1].name, all[k - 1].id);
      QueryIsNext(rows, orders, status, search, Some(position), k, limit);
      ListReads(rows, orders, status, search, cursor.value, limit, codec, position);
    }
  }

  /** A cursor that reads back in its own scope asks for what lies behind its position. */
  lemma ListReads(rows: seq<Customer>, orders: Orders, status: Status, search: Option<Scope>, cursor: string, limit: nat, codec: Codec, position: Position)
    requires codec.read(cursor) == Ok(Cursor(status, search, position))
    ensures List(rows, orders, status, search, Some(cursor), limit, codec)
         == Cut(Query(rows, orders, status, search, Some(position), limit), status, search, limit, codec)
  {
  }

  lemma QueryIsNext(rows: seq<Customer>, orders: Orders, status: Status, search: Option<Scope>, position: Option<Position>, k: nat, limit: nat)
    requires DistinctIds(rows) && StrictOrder(orders.name) && StrictOrder(orders.id)
    requires ReadUpTo(Customers(rows, orders, status, search), KeyOf(), AfterPosition(position), k)
    ensures Query(rows, orders, status, search, position, limit) == Take(limit + 1, Customers(rows, orders, status, search)[k..])
  {
    KeysAreOrdered(orders);
    forall i, j | 0 <= i < j < |rows| ensures KeyOf()(rows[i]) != KeyOf()(rows[j]) {
      assert rows[i].id != rows[j].id;
    }
    PageIsNext(rows, Wanted(status, search), KeyOf(), Less(orders), AfterPosition(position), k, limit + 1);
  }

  lemma ListedAreRows(rows: seq<Customer>, orders: Orders, status: Status, search: Option<Scope>)
    requires StrictOrder(orders.name) && StrictOrder(orders.id)
    ensures forall c :: c in Customers(rows, orders, status, search) <==> c in rows && Wanted(status, search)(c)
  {
    var (all, wanted) := (Customers(rows, orders, status, search), Wanted(status, search));
    KeysAreOrdered(orders);
    OrderIsTotal(KeyOf(), Less(orders));
    SortKeeps(Select(rows, wanted), NoLater(KeyOf(), Less(orders)));
    SameMembers(all, Select(rows, wanted));
    SameMembers(Select(rows, wanted), all);
    SelectMembers(rows, wanted);
  }

  lemma ListerServes(rows: seq<Customer>, orders: Orders, status: Status, search: Option<Scope>, codec: Codec)
    requires DistinctIds(rows) && StrictOrder(orders.name) && StrictOrder(orders.id)
    requires Faithful(codec, Customers(rows, orders, status, search), status, search)
    ensures var all := Customers(rows, orders, status, search);
            Serves(ListerOf(rows, orders, status, search, codec), all, LeadsPast(all, status, search, codec))
  {
    var (lister, all) := (ListerOf(rows, orders, status, search, codec), Customers(rows, orders, status, search));
    var leads := LeadsPast(all, status, search, codec);
    forall cursor, k: nat, limit: nat | k <= |all| && limit >= 1 && leads(cursor, k)
      ensures lister(cursor, limit).Ok? && IsSlice(lister(cursor, limit).value, all, leads, limit, k)
    {
      ListIsSlice(rows, orders, status, search, cursor, limit, k, codec);
    }
  }

  /** Following next cursors, with any limits of at least one, reads every wanted customer exactly once
      in order and ends, and never meets an error: no cursor fails to encode, to decode or to match. */
  lemma FollowReadsAll(reader: Reader, rows: seq<Customer>, orders: Orders, status: Status, search: Option<Scope>, limits: nat -> nat, pages: nat)
    requires ReadsEncoded(reader) && IsTable(rows) && StrictOrder(orders.name) && StrictOrder(orders.id)
    requires search.Some? ==> SearchIsRepresentable(search.value)
    requires forall n :: limits(n) >= 1
    requires pages > |Customers(rows, orders, status, search)|
    ensures Follow(ListerOf(rows, orders, status, search, CodecOf(reader)), None, limits, pages) == Ok(Customers(rows, orders, status, search))
  {
    ListedAreRows(rows, orders, status, search);
    CodecIsFaithful(reader, Customers(rows, orders, status, search), status, search);
    FollowWith(rows, orders, status, search, limits, pages, CodecOf(reader));
  }

  lemma FollowWith(rows: seq<Customer>, orders: Orders, status: Status, search: Option<Scope>, limits: nat -> nat, pages: nat, codec: Codec)
    requires DistinctIds(rows) && StrictOrder(orders.name) && StrictOrder(orders.id)
    requires Faithful(codec, Customers(rows, orders, status, search), status, search)
    requires forall n :: limits(n) >= 1
    requires pages > |Customers(rows, orders, status, search)|
    ensures Follow(ListerOf(rows, orders, status, search, codec), None, limits, pages) == Ok(Customers(rows, orders, status, search))
  {
    var all := Customers(rows, orders, status, search);
    ListerServes(rows, orders, status, search, codec);
    FollowFrom(ListerOf(rows, orders, status, search, codec), all, LeadsPast(all, status, search, codec), None, limits, pages, 0);
    assert all[0..] == all;
  }

  /** What is read is exactly the stored customers of the status that the search means: those whose
      name starts with the prefix, or whose phone is the searched one. */
  lemma CustomersAreTheWanted(rows: seq<Customer>, orders: Orders, status: Status, search: Option<Scope>, c: Customer)
    requires StrictOrder(orders.name) && StrictOrder(orders.id)
    ensures c in Customers(rows, orders, status, search) <==>
              && c in rows && c.status == status
              && (search.None?
                  || (|search.value.prefix| <= |c.name| && c.name[..|search.value.prefix|] == search.value.prefix)
                  || (search.value.phone.Some? && search.value.phone.value != "" && c.phone == search.value.phone.value))
  {
    ListedAreRows(rows, orders, status, search);
    if search.Some? { SearchIsPrefix(c.name, search.value.prefix); }
  }

  /** The listing is in the order of names, and of ids where names are the same. */
  lemma CustomersInOrder(rows: seq<Customer>, orders: Orders, status: Status, search: Option<Scope>, i: nat, j: nat)
    requires DistinctIds(rows) && StrictOrder(orders.name) && StrictOrder(orders.id)
    requires i < j < |Customers(rows, orders, status, search)|
    ensures var all := Customers(rows, orders, status, search);
            orders.name(all[i].name, all[j].name) || (all[i].name == all[j].name && orders.id(all[i].id, all[j].id))
  {
    KeysAreOrdered(orders);
    forall m, n | 0 <= m < n < |rows| ensures KeyOf()(rows[m]) != KeyOf()(rows[n]) { assert rows[m].id != rows[n].id; }
    ListingIsStrict(rows, Wanted(status, search), KeyOf(), Less(orders));
    var all := Customers(rows, orders, status, search);
    assert Less(orders)(KeyOf()(all[i]), KeyOf()(all[j]));
  }

  /** The page behind the cursor of the first `k` customers holds the next `limit` of them, or all that are
      left, and it leads on exactly when some are left behind it. */
  lemma PageIsExact(rows: seq<Customer>, orders: Orders, status: Status, search: Option<Scope>, cursor: Option<string>, limit: nat, k: nat, codec: Codec)
    requires DistinctIds(rows) && StrictOrder(orders.name) && StrictOrder(orders.id) && limit >= 1
    requires Faithful(codec, Customers(rows, orders, status, search), status, search)
    requires LeadsPast(Customers(rows, orders, status, search), status, search, codec)(cursor, k)
    ensures var all := Customers(rows, orders, status, search);
            var page := List(rows, orders, status, search, cursor, limit, codec);
            && page.Ok? && page.value.items == (if |all| - k > limit then all[k..k + limit] else all[k..])
            && (page.value.next.None? <==> |all| - k <= limit)
  {
    ListIsSlice(rows, orders, status, search, cursor, limit, k, codec);
  }

  /** A cursor that does not decode is refused, and so is one of another status or another search. */
  lemma ForeignCursorsAreRefused(reader: Reader, rows: seq<Customer>, orders: Orders, status: Status, search: Option<Scope>, text: string, limit: nat)
    ensures var (page, c) := (List(rows, orders, status, search, Some(text), limit, CodecOf(reader)), Decode(reader, text));
            && (c.Err? ==> page == Err(BadCursor(c.error)))
            && (c.Ok? && (c.value.status != status || c.value.search != search) ==> page == Err(CursorScope))
            && (c.Ok? && c.value.status == status && c.value.search == search ==>
                  page == Cut(Query(rows, orders, status, search, Some(c.value.position), limit), status, search, limit, CodecOf(reader)))
  {
    if Decode(reader, text).Ok? { ScopesMatch(Decode(reader, text).value, status, search); }
  }
}
