/** Listing a snapshot's active attachments page by page into an inventory with an exact count and
    an exact byte total. */
module AttachmentInventory {
  import opened Wrappers
  import opened Sorting
  import opened Keyset

  /** A UUID by its 128 bits, which is how the database orders them. */
  type Uuid = nat

  datatype Row = Row(
    store: Uuid, id: Uuid, removed: bool,
    objectKey: Option<string>, mediaType: Option<string>, sizeBytes: Option<int>, sha256: Option<string>)

  datatype Entry = Entry(store: Uuid, id: Uuid, objectKey: string, mediaType: string, sizeBytes: int, sha256: string)

  datatype Key = Key(store: Uuid, id: Uuid)

  datatype InventoryError = InvalidBatchSize | MissingMetadata | InvalidEntry | InvalidFooter

  datatype Capture = Capture(entries: seq<Entry>, count: nat, totalBytes: int)

  function KeyOf(): Row -> Key { (row: Row) => Key(row.store, row.id) }

  /** `(store_id, id) < (store_id, id)`. */
  function Less(): (Key, Key) -> bool {
    (a: Key, b: Key) => a.store < b.store || (a.store == b.store && a.id < b.id)
  }

  function Active(): Row -> bool { (row: Row) => !row.removed }

  /* ---- What an entry must be ---- */

  function HexDigit(n: nat): char
    requires n < 16
  {
    if n < 10 then ('0' as int + n) as char else ('a' as int + n - 10) as char
  }

  function Hex(n: nat, width: nat): (s: string)
    ensures |s| == width
  {
    if width == 0 then [] else Hex(n / 16, width - 1) + [HexDigit(n % 16)]
  }

  function UuidText(u: Uuid): string {
    var h := Hex(u, 32);
    h[..8] + "-" + h[8..12] + "-" + h[12..16] + "-" + h[16..20] + "-" + h[20..]
  }

  /** The versions and the variant of RFC 9562, and its two special values. */
  predicate IsUuid(u: Uuid) {
    var h := Hex(u, 32);
    || ('1' <= h[12] <= '8' && (h[16] == '8' || h[16] == '9' || h[16] == 'a' || h[16] == 'b'))
    || (forall k | 0 <= k < 32 :: h[k] == '0') || (forall k | 0 <= k < 32 :: h[k] == 'f')
  }

  predicate IsDigest(s: string) {
    |s| == 64 && forall k | 0 <= k < |s| :: '0' <= s[k] <= '9' || 'a' <= s[k] <= 'f'
  }

  /** At most nineteen decimal digits. */
  predicate IsByteCount(n: int) { 0 <= n < 10_000_000_000_000_000_000 }

  const MEDIA_TYPES: set<string> := {"application/pdf", "image/jpeg", "image/png"}
  const MAX_SAFE_INTEGER := 9_007_199_254_740_991

  function ObjectKey(row: Row): string { "stores/" + UuidText(row.store) + "/attachments/" + UuidText(row.id) }

  predicate Complete(row: Row) { row.objectKey.Some? && row.mediaType.Some? && row.sizeBytes.Some? && row.sha256.Some? }

  predicate HasEntryForm(row: Row)
    requires Complete(row)
  {
    && IsUuid(row.store) && IsUuid(row.id) && row.objectKey.value == ObjectKey(row)
    && row.mediaType.value in MEDIA_TYPES && IsByteCount(row.sizeBytes.value) && IsDigest(row.sha256.value)
  }

  predicate Acceptable(row: Row) { Complete(row) && HasEntryForm(row) }

  function EntryOf(row: Row): Entry
    requires Complete(row)
  {
    Entry(row.store, row.id, row.objectKey.value, row.mediaType.value, row.sizeBytes.value, row.sha256.value)
  }

  function ParseInventoryRow(row: Row): (parsed: Result<Entry, InventoryError>)
    ensures parsed.Ok? <==> Acceptable(row)
  {
    if !Complete(row) then Err(MissingMetadata)
    else if !HasEntryForm(row) then Err(InvalidEntry)
    else Ok(EntryOf(row))
  }

  function EntriesOf(rows: seq<Row>): (entries: seq<Entry>)
    requires forall row | row in rows :: Acceptable(row)
  {
    if rows == [] then []
    else
      var last := rows[|rows| - 1];
      assert Acceptable(last);
      EntriesOf(rows[..|rows| - 1]) + [EntryOf(last)]
  }

  function TotalBytes(rows: seq<Row>): int {
    if rows == [] then 0
    else
      var last := rows[|rows| - 1];
      TotalBytes(rows[..|rows| - 1]) + (if last.sizeBytes.Some? then last.sizeBytes.value else 0)
  }

  /** The active attachments in the order of their store and id. */
  function Attachments(snapshot: seq<Row>): seq<Row> { Listing(snapshot, Active(), KeyOf(), Less()) }

  lemma LessIsStrict()
    ensures StrictOrder(Less())
  {
  }

  lemma AttachmentsAreActive(snapshot: seq<Row>)
    requires DistinctKeys(snapshot, KeyOf())
    ensures forall row | row in Attachments(snapshot) :: row in snapshot && !row.removed
    ensures forall row | row in snapshot && !row.removed :: row in Attachments(snapshot)
  {
    LessIsStrict();
    ListingIsStrict(snapshot, Active(), KeyOf(), Less());
    SelectMembers(snapshot, Active());
    SameMembers(Attachments(snapshot), Select(snapshot, Active()));
    SameMembers(Select(snapshot, Active()), Attachments(snapshot));
  }

  function ReadInventoryPage(snapshot: seq<Row>, cursor: Option<Key>, limit: nat): seq<Row> {
    Page(snapshot, Active(), KeyOf(), Less(), cursor, limit)
  }

  lemma PageIsTheNextRows(snapshot: seq<Row>, cursor: Option<Key>, n: nat, limit: nat)
    requires DistinctKeys(snapshot, KeyOf()) && ReadUpTo(Attachments(snapshot), KeyOf(), cursor, n)
    ensures ReadInventoryPage(snapshot, cursor, limit) == Take(limit, Attachments(snapshot)[n..])
  {
    LessIsStrict();
    PageIsNext(snapshot, Active(), KeyOf(), Less(), cursor, n, limit);
  }

  lemma PrefixGrows(rows: seq<Row>, k: nat)
    requires k < |rows| && forall j | 0 <= j <= k :: Acceptable(rows[j])
    ensures forall row | row in rows[..k + 1] :: Acceptable(row)
    ensures EntriesOf(rows[..k + 1]) == EntriesOf(rows[..k]) + [EntryOf(rows[k])]
    ensures TotalBytes(rows[..k + 1]) == TotalBytes(rows[..k]) + rows[k].sizeBytes.value
  {
    assert rows[..k + 1][..k] == rows[..k];
  }

  /** What has been captured when the first `n` attachments have been written. */
  ghost predicate Captured(all: seq<Row>, n: nat, c: Capture, cursor: Option<Key>) {
    && n <= |all| && (forall row | row in all[..n] :: Acceptable(row))
    && c == Capture(EntriesOf(all[..n]), n, TotalBytes(all[..n]))
    && ReadUpTo(all, KeyOf(), cursor, n)
  }

  function Written(c: Capture, entry: Entry): Capture {
    Capture(c.entries + [entry], c.count + 1, c.totalBytes + entry.sizeBytes)
  }

  lemma RowIsWritten(all: seq<Row>, n: nat, c: Capture, cursor: Option<Key>)
    requires Captured(all, n, c, cursor) && n < |all| && Acceptable(all[n])
    ensures Captured(all, n + 1, Written(c, EntryOf(all[n])), Some(KeyOf()(all[n])))
  {
    assert forall j | 0 <= j < n :: all[j] in all[..n];
    PrefixGrows(all, n);
  }

  /** Writes one page. */
  method WritePage(ghost all: seq<Row>, ghost n: nat, page: seq<Row>, written: Capture, last: Option<Key>)
    returns (result: Result<Capture, InventoryError>, cursor: Option<Key>)
    requires Captured(all, n, written, last) && page <= all[n..]
    ensures result.Ok? ==> Captured(all, n + |page|, result.value, cursor)
    ensures result.Err? ==> exists row | row in all :: ParseInventoryRow(row) == Err(result.error)
  {
    var capture := written;
    cursor := last;
    for k := 0 to |page|
      invariant Captured(all, n + k, capture, cursor)
    {
      assert page[k] == all[n..][k] == all[n + k];
      var entry := ParseInventoryRow(page[k]);
      if entry.Err? {
        return Err(entry.error), cursor;
      }
      RowIsWritten(all, n + k, capture, cursor);
      capture := Written(capture, entry.value);
      cursor := Some(Key(entry.value.store, entry.value.id));
    }
    return Ok(capture), cursor;
  }

  /** Pages through the snapshot until a page comes back short. */
  method CapturePages(snapshot: seq<Row>, batchSize: nat) returns (result: Result<Capture, InventoryError>)
    requires DistinctKeys(snapshot, KeyOf()) && 1 <= batchSize
    ensures var all := Attachments(snapshot);
            if result.Ok? then
              (forall row | row in all :: Acceptable(row)) && result.value == Capture(EntriesOf(all), |all|, TotalBytes(all))
            else exists row | row in all :: ParseInventoryRow(row) == Err(result.error)
  {
    ghost var all := Attachments(snapshot);
    var cursor: Option<Key> := None;
    var capture := Capture([], 0, 0);
    ghost var n := 0;
    while true
      invariant Captured(all, n, capture, cursor)
      decreases |all| - n
    {
      PageIsTheNextRows(snapshot, cursor, n, batchSize);
      var page := ReadInventoryPage(snapshot, cursor, batchSize);
      var written, next := WritePage(all, n, page, capture, cursor);
      if written.Err? {
        return Err(written.error);
      }
      capture, cursor := written.value, next;
      n := n + |page|;
      if |page| < batchSize {
        break;
      }
    }
    assert all[..n] == all;
    return Ok(capture);
  }

  /** The footer's count and total are numbers it may hold. */
  predicate FooterFits(rows: seq<Row>) { |rows| <= MAX_SAFE_INTEGER && IsByteCount(TotalBytes(rows)) }

  /** Succeeds exactly when the batch size is in range, every active attachment makes an entry and the
      totals fit the footer; the inventory then lists each active attachment once, in order, with the
      exact totals. */
  method CaptureInventory(snapshot: seq<Row>, batchSize: int) returns (result: Result<Capture, InventoryError>)
    requires DistinctKeys(snapshot, KeyOf())
    ensures result.Ok? <==>
              && 1 <= batchSize <= 500
              && (forall row | row in snapshot && !row.removed :: Acceptable(row))
              && FooterFits(Attachments(snapshot))
    ensures result.Ok? ==>
              var all := Attachments(snapshot);
              && (forall row | row in all :: Acceptable(row))
              && result.value == Capture(EntriesOf(all), |all|, TotalBytes(all))
  {
    if batchSize < 1 || batchSize > 500 {
      return Err(InvalidBatchSize);
    }
    AttachmentsAreActive(snapshot);
    var capture :- CapturePages(snapshot, batchSize);
    if capture.count > MAX_SAFE_INTEGER || !IsByteCount(capture.totalBytes) {
      return Err(InvalidFooter);
    }
    return Ok(capture);
  }

  /* ---- The rules in numbers and texts ---- */

  /** What makes a complete row an entry. */
  lemma EntryRules(row: Row)
    requires Complete(row)
    ensures HasEntryForm(row) <==>
              && IsUuid(row.store) && IsUuid(row.id)
              && row.objectKey.value == "stores/" + UuidText(row.store) + "/attachments/" + UuidText(row.id)
              && (row.mediaType.value == "application/pdf" || row.mediaType.value == "image/jpeg" || row.mediaType.value == "image/png")
              && 0 <= row.sizeBytes.value <= 9_999_999_999_999_999_999
              && |row.sha256.value| == 64
              && forall k | 0 <= k < 64 :: 48 <= row.sha256.value[k] as int <= 57 || 97 <= row.sha256.value[k] as int <= 102
  {
    DigestRule(row.sha256.value);
  }

  lemma DigestRule(s: string)
    ensures IsDigest(s) <==> |s| == 64 && forall k | 0 <= k < 64 :: 48 <= s[k] as int <= 57 || 97 <= s[k] as int <= 102
  {
  }

  /** The footer holds a count of up to 9,007,199,254,740,991 and a total of up to nineteen digits. */
  lemma FooterRule(rows: seq<Row>)
    ensures FooterFits(rows) <==> |rows| <= 9_007_199_254_740_991 && 0 <= TotalBytes(rows) <= 9_999_999_999_999_999_999
  {
  }

  function Sixteenths(n: nat, places: nat): nat { if places == 0 then n else Sixteenths(n / 16, places - 1) }

  /** Each hexadecimal digit stands for its place of the number. */
  lemma {:induction false} HexPlaces(n: nat, width: nat, k: nat)
    requires k < width
    ensures Hex(n, width)[k] == HexDigit(Sixteenths(n, width - 1 - k) % 16)
  {
    if k < width - 1 { HexPlaces(n / 16, width - 1, k); }
  }

  /** A UUID is written in groups of 8, 4, 4, 4 and 12 of its 32 digits. */
  lemma UuidGroups(u: Uuid)
    ensures var (t, h) := (UuidText(u), Hex(u, 32));
            && |t| == 36 && t[8] == '-' && t[13] == '-' && t[18] == '-' && t[23] == '-'
            && t[..8] == h[..8] && t[9..13] == h[8..12] && t[14..18] == h[12..16] && t[19..23] == h[16..20] && t[24..] == h[20..]
  {
  }

  /** An inventory is in the order of stores, and of attachments within a store; its entries carry what
      their rows say. */
  lemma EntriesInOrder(snapshot: seq<Row>, i: nat, j: nat)
    requires DistinctKeys(snapshot, KeyOf()) && i < j < |Attachments(snapshot)|
    ensures var all := Attachments(snapshot); all[i].store < all[j].store || (all[i].store == all[j].store && all[i].id < all[j].id)
  {
    LessIsStrict();
    ListingIsStrict(snapshot, Active(), KeyOf(), Less());
    assert Less()(KeyOf()(Attachments(snapshot)[i]), KeyOf()(Attachments(snapshot)[j]));
  }

  lemma {:induction false} EntriesCarryRows(rows: seq<Row>, k: nat)
    requires k < |rows| && forall row | row in rows :: Acceptable(row)
    ensures |EntriesOf(rows)| == |rows| && rows[k] in rows
    ensures var (e, row) := (EntriesOf(rows)[k], rows[k]);
            && e.store == row.store && e.id == row.id && row.objectKey == Some(e.objectKey) && row.mediaType == Some(e.mediaType)
            && row.sizeBytes == Some(e.sizeBytes) && row.sha256 == Some(e.sha256)
  {
    var front := rows[..|rows| - 1];
    assert forall row | row in front :: row in rows;
    EntriesCount(front);
    if k < |front| { EntriesCarryRows(front, k); }
  }

  lemma {:induction false} EntriesCount(rows: seq<Row>)
    requires forall row | row in rows :: Acceptable(row)
    ensures |EntriesOf(rows)| == |rows|
  {
    if rows != [] { EntriesCount(rows[..|rows| - 1]); }
  }
}
