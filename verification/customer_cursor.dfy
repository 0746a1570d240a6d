/** The opaque cursor of the customer list: a JSON object in UTF-8 in base64url, within byte budgets. */
module CustomerCursor {
  import opened Wrappers
  import Base64Url
  import opened JsonText

  datatype Status = ActiveCustomer | ArchivedCustomer

  datatype Scope = Scope(prefix: string, phone: Option<string>)
  datatype Position = Position(name: string, id: string)
  datatype Cursor = Cursor(status: Status, search: Option<Scope>, position: Position)

  datatype CursorError = InvalidCursor | InvalidId | PayloadTooLarge | CursorTooLong

  datatype Payload = Payload(
    status: Status, searchName: Option<string>, searchPhone: Option<string>, lastName: string, lastId: string)

  const MAX_ENCODED_LENGTH := 2048
  const MAX_DECODED_BYTES := 1536
  const MAX_NAME_LENGTH := 1024
  const MAX_PHONE_LENGTH := 32
  const NAME_BUDGET := 699
  const SEARCH_BUDGET := 699

  /* ---- Values ---- */

  function StatusText(status: Status): string { if status.ActiveCustomer? then "active" else "archived" }

  function StatusOf(text: string): Option<Status> {
    if text == "active" then Some(ActiveCustomer) else if text == "archived" then Some(ArchivedCustomer) else None
  }

  lemma StatusReads(status: Status)
    ensures StatusOf(StatusText(status)) == Some(status)
  {
    assert "active"[1] != "archived"[1];
  }

  /** The length of a string in UTF-16 code units. */
  function Utf16Length(s: string): nat {
    if s == [] then 0 else (if s[0] as int < 0x10000 then 1 else 2) + Utf16Length(s[1..])
  }

  predicate IsIdChar(c: char, k: nat) {
    if k == 8 || k == 13 || k == 18 || k == 23 then c == '-'
    else '0' <= c <= '9' || 'a' <= c <= 'f' || 'A' <= c <= 'F'
  }

  predicate IsCustomerId(s: string) { |s| == 36 && forall k | 0 <= k < 36 :: IsIdChar(s[k], k) }

  function LowerChar(c: char): char { if 'A' <= c <= 'Z' then (c as int + 32) as char else c }

  function CanonicalId(s: string): (t: string)
    ensures |t| == |s| && forall k | 0 <= k < |s| :: t[k] == LowerChar(s[k])
  {
    seq(|s|, k requires 0 <= k < |s| => LowerChar(s[k]))
  }

  predicate Bounded(s: Option<string>, maximum: nat) { s.None? || Utf16Length(s.value) <= maximum }

  predicate IsPayload(p: Payload) {
    && Bounded(p.searchName, MAX_NAME_LENGTH) && Bounded(p.searchPhone, MAX_PHONE_LENGTH)
    && p.lastName != "" && Utf16Length(p.lastName) <= MAX_NAME_LENGTH
    && IsCustomerId(p.lastId)
    && (p.searchName.None? ==> p.searchPhone.None?)
  }

  function PayloadOf(c: Cursor): Payload {
    Payload(c.status, if c.search.Some? then Some(c.search.value.prefix) else None,
            if c.search.Some? then c.search.value.phone else None, c.position.name, CanonicalId(c.position.id))
  }

  function CursorOf(p: Payload): Cursor {
    Cursor(p.status, if p.searchName.Some? then Some(Scope(p.searchName.value, p.searchPhone)) else None,
           Position(p.lastName, CanonicalId(p.lastId)))
  }

  /* ---- Text ---- */

  function Nullable(s: Option<string>): string { if s.Some? then Quote(s.value) else "null" }

  /** What stands in front of each value of the object. */
  datatype Keys = Keys(status: string, searchName: string, searchPhone: string, lastName: string, lastId: string)

  const KEYS := Keys("{\"v\":1,\"status\":", ",\"searchName\":", ",\"searchPhone\":", ",\"lastName\":", ",\"lastId\":")

  /** The object from its `lastId` on, from its `lastName` on, and so on back to its start. */
  function IdMember(k: Keys, p: Payload): string { k.lastId + (Quote(p.lastId) + "}") }
  function NameMember(k: Keys, p: Payload): string { k.lastName + (Quote(p.lastName) + IdMember(k, p)) }
  function PhoneMember(k: Keys, p: Payload): string { k.searchPhone + (Nullable(p.searchPhone) + NameMember(k, p)) }
  function SearchMember(k: Keys, p: Payload): string { k.searchName + (Nullable(p.searchName) + PhoneMember(k, p)) }
  function StatusMember(k: Keys, p: Payload): string { k.status + (Quote(StatusText(p.status)) + SearchMember(k, p)) }

  function Stringify(p: Payload): string { StatusMember(KEYS, p) }

  function Expect(s: string, literal: string): Result<string, CursorError> {
    if |literal| <= |s| && s[..|literal|] == literal then Ok(s[|literal|..]) else Err(InvalidCursor)
  }

  function ReadQuotedField(s: string): Result<(string, string), CursorError> {
    var inside :- Expect(s, "\"");
    match ReadString(inside)
    case None => Err(InvalidCursor)
    case Some((value, rest)) => Ok((value, rest))
  }

  function ReadNullableField(s: string): Result<(Option<string>, string), CursorError> {
    if Expect(s, "null").Ok? then Ok((None, Expect(s, "null").value))
    else
      var field :- ReadQuotedField(s);
      Ok((Some(field.0), field.1))
  }

  function QuotedMember(s: string, key: string): Result<(string, string), CursorError> {
    var rest :- Expect(s, key);
    ReadQuotedField(rest)
  }

  function NullableMember(s: string, key: string): Result<(Option<string>, string), CursorError> {
    var rest :- Expect(s, key);
    ReadNullableField(rest)
  }

  /** Reads the object as the encoder spells it, from its `lastId` on, from its `lastName` on, and so
      on back to its start. */
  function ReadId(k: Keys, s: string, status: Status, searchName: Option<string>, searchPhone: Option<string>, lastName: string): Result<Payload, CursorError> {
    var field :- QuotedMember(s, k.lastId);
    var _ :- Need(field.1 == "}", InvalidCursor);
    Ok(Payload(status, searchName, searchPhone, lastName, field.0))
  }

  function ReadName(k: Keys, s: string, status: Status, searchName: Option<string>, searchPhone: Option<string>): Result<Payload, CursorError> {
    var field :- QuotedMember(s, k.lastName);
    ReadId(k, field.1, status, searchName, searchPhone, field.0)
  }

  function ReadPhone(k: Keys, s: string, status: Status, searchName: Option<string>): Result<Payload, CursorError> {
    var field :- NullableMember(s, k.searchPhone);
    ReadName(k, field.1, status, searchName, field.0)
  }

  function ReadSearch(k: Keys, s: string, status: Status): Result<Payload, CursorError> {
    var field :- NullableMember(s, k.searchName);
    ReadPhone(k, field.1, status, field.0)
  }

  function ReadMembers(k: Keys, s: string): Result<Payload, CursorError> {
    var field :- QuotedMember(s, k.status);
    match StatusOf(field.0)
    case None => Err(InvalidCursor)
    case Some(status) => ReadSearch(k, field.1, status)
  }

  function ReadPayload(s: string): Result<Payload, CursorError> { ReadMembers(KEYS, s) }

  /* ---- Encoding and decoding ---- */

  function Encode(c: Cursor): Result<string, CursorError> {
    var _ :- Need(IsCustomerId(c.position.id), InvalidId);
    var p := PayloadOf(c);
    var _ :- Need(IsPayload(p), InvalidCursor);
    var bytes := Utf8(Stringify(p));
    var _ :- Need(|bytes| <= MAX_DECODED_BYTES, PayloadTooLarge);
    var text := Base64Url.Encode(bytes);
    var _ :- Need(|text| <= MAX_ENCODED_LENGTH, CursorTooLong);
    Ok(text)
  }

  /** Whatever reads the bytes of a JSON object with the cursor's members. */
  type Reader = seq<Base64Url.Byte> -> Option<Payload>

  /** It reads what the encoder spells; what else it reads is left open. */
  ghost predicate ReadsEncoded(reader: Reader) {
    forall p | IsPayload(p) :: reader(Utf8(Stringify(p))) == Some(p)
  }

  /** The reader of the encoder's own spelling and of no other. */
  function StrictReader(): Reader {
    (bytes: seq<Base64Url.Byte>) =>
      match FromUtf8(bytes)
      case None => None
      case Some(s) => if ReadPayload(s).Ok? then Some(ReadPayload(s).value) else None
  }

  function Decode(reader: Reader, text: string): Result<Cursor, CursorError> {
    if text == [] || |text| > MAX_ENCODED_LENGTH || !Base64Url.InAlphabet(text) then Err(InvalidCursor)
    else
      var bytes := Base64Url.Decode(text);
      if bytes == [] || |bytes| > MAX_DECODED_BYTES || Base64Url.Encode(bytes) != text then Err(InvalidCursor)
      else
        match reader(bytes)
        case None => Err(InvalidCursor)
        case Some(p) =>
          var _ :- Need(IsPayload(p), InvalidCursor);
          Ok(CursorOf(p))
  }

  predicate MatchesScope(c: Cursor, status: Status, search: Option<Scope>) {
    && c.status == status
    && (if c.search.Some? then Some(c.search.value.prefix) else None) == (if search.Some? then Some(search.value.prefix) else None)
    && (if c.search.Some? then c.search.value.phone else None) == (if search.Some? then search.value.phone else None)
  }

  /* ---- Reading back ---- */

  lemma ExpectLiteral(literal: string, rest: string)
    ensures Expect(literal + rest, literal) == Ok(rest)
  {
    assert (literal + rest)[..|literal|] == literal && (literal + rest)[|literal|..] == rest;
  }

  lemma ReadsQuoted(value: string, rest: string)
    ensures ReadQuotedField(Quote(value) + rest) == Ok((value, rest))
    ensures Expect(Quote(value) + rest, "null").Err?
  {
    var inside := Escape(value) + "\"" + rest;
    QuoteOpens(value, rest);
    ExpectLiteral("\"", inside);
    ReadQuoted(value, rest);
    NotNull(inside);
  }

  lemma QuoteOpens(value: string, rest: string)
    ensures Quote(value) + rest == "\"" + (Escape(value) + "\"" + rest)
  {
  }

  lemma NotNull(inside: string)
    ensures Expect("\"" + inside, "null").Err?
  {
    var s := "\"" + inside;
    if |s| >= 4 { assert s[..4][0] == '"' && "null"[0] == 'n'; }
  }

  lemma ReadsNullable(value: Option<string>, rest: string)
    ensures ReadNullableField(Nullable(value) + rest) == Ok((value, rest))
  {
    match value
    case None => ExpectLiteral("null", rest);
    case Some(v) => ReadsQuoted(v, rest);
  }

  lemma ReadsQuotedMember(key: string, value: string, rest: string)
    ensures QuotedMember(key + (Quote(value) + rest), key) == Ok((value, rest))
  {
    ExpectLiteral(key, Quote(value) + rest);
    ReadsQuoted(value, rest);
  }

  lemma ReadsNullableMember(key: string, value: Option<string>, rest: string)
    ensures NullableMember(key + (Nullable(value) + rest), key) == Ok((value, rest))
  {
    ExpectLiteral(key, Nullable(value) + rest);
    ReadsNullable(value, rest);
  }

  lemma ReadsId(k: Keys, p: Payload)
    ensures ReadId(k, IdMember(k, p), p.status, p.searchName, p.searchPhone, p.lastName) == Ok(p)
  {
    ReadsQuotedMember(k.lastId, p.lastId, "}");
  }

  lemma ReadsName(k: Keys, p: Payload)
    ensures ReadName(k, NameMember(k, p), p.status, p.searchName, p.searchPhone) == Ok(p)
  {
    ReadsQuotedMember(k.lastName, p.lastName, IdMember(k, p));
    ReadsId(k, p);
  }

  lemma ReadsPhone(k: Keys, p: Payload)
    ensures ReadPhone(k, PhoneMember(k, p), p.status, p.searchName) == Ok(p)
  {
    ReadsNullableMember(k.searchPhone, p.searchPhone, NameMember(k, p));
    ReadsName(k, p);
  }

  lemma ReadsSearch(k: Keys, p: Payload)
    ensures ReadSearch(k, SearchMember(k, p), p.status) == Ok(p)
  {
    ReadsNullableMember(k.searchName, p.searchName, PhoneMember(k, p));
    ReadsPhone(k, p);
  }

  lemma ReadsMembers(k: Keys, p: Payload)
    ensures ReadMembers(k, StatusMember(k, p)) == Ok(p)
  {
    ReadsQuotedMember(k.status, StatusText(p.status), SearchMember(k, p));
    ReadsSearch(k, p);
    StatusReads(p.status);
  }

  lemma CanonicalIsStable(s: string)
    requires IsCustomerId(s)
    ensures IsCustomerId(CanonicalId(s)) && CanonicalId(CanonicalId(s)) == CanonicalId(s)
  {
    forall k | 0 <= k < 36 ensures IsIdChar(CanonicalId(s)[k], k) {
      assert IsIdChar(s[k], k);
    }
  }

  /** Such readers exist. */
  lemma StrictReaderReads()
    ensures ReadsEncoded(StrictReader())
  {
    forall p | IsPayload(p) ensures StrictReader()(Utf8(Stringify(p))) == Some(p) {
      FromUtf8Undoes(Stringify(p));
      ReadsMembers(KEYS, p);
    }
  }

  lemma DecodesPayload(reader: Reader, p: Payload)
    requires ReadsEncoded(reader) && IsPayload(p)
    requires var bytes := Utf8(Stringify(p)); |bytes| <= MAX_DECODED_BYTES && |Base64Url.Encode(bytes)| <= MAX_ENCODED_LENGTH
    ensures Decode(reader, Base64Url.Encode(Utf8(Stringify(p)))) == Ok(CursorOf(p))
  {
    Base64Url.DecodeUndoes(Utf8(Stringify(p)));
    SomeBytes(p);
  }

  lemma SomeBytes(p: Payload)
    ensures |Utf8(Stringify(p))| > 0 && |Base64Url.Encode(Utf8(Stringify(p)))| > 0
  {
    assert KEYS.status[0] == '{';
    assert Stringify(p) != [];
    Base64Url.DecodeUndoes(Utf8(Stringify(p)));
  }

  /** What is encoded decodes to the same status, search and position, the id in lower case. */
  lemma DecodeUndoesEncode(reader: Reader, c: Cursor)
    requires ReadsEncoded(reader) && Encode(c).Ok?
    ensures Decode(reader, Encode(c).value) == Ok(c.(position := c.position.(id := CanonicalId(c.position.id))))
  {
    CanonicalIsStable(c.position.id);
    DecodesPayload(reader, PayloadOf(c));
  }

  /** However objects are read, only canonical base64url is accepted, so no two accepted texts hold the
      same bytes. */
  lemma AcceptsOnlyCanonical(reader: Reader, text: string)
    requires Decode(reader, text).Ok?
    ensures Base64Url.InAlphabet(text) && Base64Url.WholeBytes(Base64Url.Values(text)) && 0 < |text| <= MAX_ENCODED_LENGTH
    ensures forall other | Decode(reader, other).Ok? && Base64Url.Decode(other) == Base64Url.Decode(text) :: other == text
  {
    Base64Url.EncodeRestoresCanonical(text);
  }

  /* ---- Byte budgets ---- */

  /** The bytes that a string takes inside its quotes. */
  function JsonBytes(s: string): nat { ByteLength(Escape(s)) }

  function NullableBytes(s: Option<string>): nat { if s.Some? then JsonBytes(s.value) + 2 else 4 }

  lemma QuotedBytes(s: string)
    ensures ByteLength(Quote(s)) == JsonBytes(s) + 2
  {
    LengthAppend("\"", Escape(s));
    LengthAppend("\"" + Escape(s), "\"");
    AsciiSize("\"");
  }

  lemma NullableSize(s: Option<string>)
    ensures ByteLength(Nullable(s)) == NullableBytes(s)
  {
    match s
    case None => AsciiSize("null");
    case Some(v) => QuotedBytes(v);
  }

  /** Characters that stand for themselves in one byte each. */
  predicate IsPlain(s: string) {
    forall k | 0 <= k < |s| :: ' ' <= s[k] < '\U{0080}' && s[k] != '"' && s[k] != '\\'
  }

  lemma {:induction false} PlainBytes(s: string)
    requires IsPlain(s)
    ensures JsonBytes(s) == |s|
  {
    if s != [] {
      PlainBytes(s[1..]);
      LengthAppend(EscapeChar(s[0]), Escape(s[1..]));
      AsciiSize([s[0]]);
    }
  }

  lemma MemberBytes(key: string, value: string, size: nat, rest: string)
    requires IsAscii(key) && ByteLength(value) == size
    ensures ByteLength(key + (value + rest)) == |key| + size + ByteLength(rest)
  {
    LengthAppend(value, rest);
    LengthAppend(key, value + rest);
    AsciiSize(key);
  }

  predicate AsciiKeys(k: Keys) {
    IsAscii(k.status) && IsAscii(k.searchName) && IsAscii(k.searchPhone) && IsAscii(k.lastName) && IsAscii(k.lastId)
  }

  lemma NameMemberSize(k: Keys, p: Payload)
    requires IsCustomerId(p.lastId) && AsciiKeys(k)
    ensures ByteLength(NameMember(k, p)) == |k.lastName| + JsonBytes(p.lastName) + |k.lastId| + 41
  {
    QuotedBytes(p.lastId);
    IdBytes(p.lastId);
    AsciiSize("}");
    MemberBytes(k.lastId, Quote(p.lastId), 38, "}");
    QuotedBytes(p.lastName);
    MemberBytes(k.lastName, Quote(p.lastName), JsonBytes(p.lastName) + 2, IdMember(k, p));
  }

  lemma SearchMemberSize(k: Keys, p: Payload)
    requires AsciiKeys(k)
    ensures ByteLength(SearchMember(k, p))
         == |k.searchName| + NullableBytes(p.searchName) + |k.searchPhone| + NullableBytes(p.searchPhone) + ByteLength(NameMember(k, p))
  {
    NullableSize(p.searchPhone);
    MemberBytes(k.searchPhone, Nullable(p.searchPhone), NullableBytes(p.searchPhone), NameMember(k, p));
    NullableSize(p.searchName);
    MemberBytes(k.searchName, Nullable(p.searchName), NullableBytes(p.searchName), PhoneMember(k, p));
  }

  lemma StatusMemberSize(k: Keys, p: Payload)
    requires AsciiKeys(k)
    ensures ByteLength(StatusMember(k, p)) == |k.status| + |StatusText(p.status)| + 2 + ByteLength(SearchMember(k, p))
  {
    QuotedBytes(StatusText(p.status));
    PlainBytes(StatusText(p.status));
    MemberBytes(k.status, Quote(StatusText(p.status)), |StatusText(p.status)| + 2, SearchMember(k, p));
  }

  lemma KeysAreAscii()
    ensures AsciiKeys(KEYS)
    ensures |KEYS.status| + |KEYS.searchName| + |KEYS.searchPhone| + |KEYS.lastName| + |KEYS.lastId| == 67
  {
  }

  /** The exact size of an encoded payload in bytes. */
  lemma StringifySize(p: Payload)
    requires IsCustomerId(p.lastId)
    ensures ByteLength(Stringify(p))
         == 110 + |StatusText(p.status)| + NullableBytes(p.searchName) + NullableBytes(p.searchPhone) + JsonBytes(p.lastName)
  {
    KeysAreAscii();
    NameMemberSize(KEYS, p);
    SearchMemberSize(KEYS, p);
    StatusMemberSize(KEYS, p);
  }

  lemma IdBytes(id: string)
    requires IsCustomerId(id)
    ensures JsonBytes(id) == 36
  {
    forall k | 0 <= k < |id| ensures ' ' <= id[k] < '\U{0080}' && id[k] != '"' && id[k] != '\\' {
      assert IsIdChar(id[k], k);
    }
    PlainBytes(id);
  }

  /** An encoding fails only for the payload's own checks or for its size. */
  lemma EncodesExactly(c: Cursor)
    ensures Encode(c).Ok? <==>
              && IsCustomerId(c.position.id) && IsPayload(PayloadOf(c))
              && ByteLength(Stringify(PayloadOf(c))) <= MAX_DECODED_BYTES
  {
    var bytes := Utf8(Stringify(PayloadOf(c)));
    Utf8Size(Stringify(PayloadOf(c)));
    Base64Url.DecodeUndoes(bytes);
  }

  /* ---- The two guards ---- */

  function Repeat(n: nat, c: char): (s: string)
    ensures |s| == n && forall k | 0 <= k < n :: s[k] == c
  {
    seq(n, k => c)
  }

  const MAX_ID := "ffffffff-ffff-ffff-ffff-ffffffffffff"
  const MAX_PHONE := "+123456789012345"

  /** The guard on a name before it is stored. */
  predicate NameIsRepresentable(name: string) {
    && JsonBytes(name) <= NAME_BUDGET
    && Encode(Cursor(ArchivedCustomer, Some(Scope(Repeat(SEARCH_BUDGET, 's'), Some(MAX_PHONE))), Position(name, MAX_ID))).Ok?
  }

  /** The guard on a search before it is run. */
  predicate SearchIsRepresentable(search: Scope) {
    && JsonBytes(search.prefix) <= SEARCH_BUDGET
    && Encode(Cursor(ArchivedCustomer, Some(search), Position(Repeat(NAME_BUDGET, 'n'), MAX_ID))).Ok?
  }

  lemma MaxIdIsAnId()
    ensures IsCustomerId(MAX_ID)
  {
    assert forall k | 0 <= k < 36 :: IsIdChar(MAX_ID[k], k);
  }

  lemma {:induction false} UnitsWithinBytes(s: string)
    ensures Utf16Length(s) <= JsonBytes(s) && |s| <= JsonBytes(s)
  {
    if s != [] {
      UnitsWithinBytes(s[1..]);
      LengthAppend(EscapeChar(s[0]), Escape(s[1..]));
      CharBytes(s[0]);
    }
  }

  lemma CharBytes(c: char)
    ensures ByteLength(EscapeChar(c)) >= if c as int < 0x10000 then 1 else 2
  {
    assert ByteLength(EscapeChar(c)) >= |Utf8Char(EscapeChar(c)[0])|;
  }

  /** A size in budget is the only thing that decides over a well-formed cursor. */
  lemma EncodesWithinBudget(c: Cursor)
    requires IsCustomerId(c.position.id) && IsPayload(PayloadOf(c))
    ensures Encode(c).Ok? <==>
              110 + |StatusText(c.status)| + NullableBytes(PayloadOf(c).searchName) + NullableBytes(PayloadOf(c).searchPhone)
              + JsonBytes(c.position.name) <= MAX_DECODED_BYTES
  {
    EncodesExactly(c);
    StringifySize(PayloadOf(c));
  }

  lemma PlainText(n: nat, c: char)
    requires 'a' <= c <= 'z'
    ensures JsonBytes(Repeat(n, c)) == n && Utf16Length(Repeat(n, c)) <= n
  {
    PlainBytes(Repeat(n, c));
    UnitsWithinBytes(Repeat(n, c));
  }

  lemma MaxPhoneSize()
    ensures JsonBytes(MAX_PHONE) == 16 && Utf16Length(MAX_PHONE) <= 16
  {
    assert |MAX_PHONE| == 16 && IsPlain(MAX_PHONE);
    PlainBytes(MAX_PHONE);
    UnitsWithinBytes(MAX_PHONE);
  }

  /** The cursor with which the name guard tries the encoder. */
  function WidestFor(name: string): Cursor {
    Cursor(ArchivedCustomer, Some(Scope(Repeat(SEARCH_BUDGET, 's'), Some(MAX_PHONE))), Position(name, MAX_ID))
  }

  lemma WidestFits(name: string)
    requires name != "" && JsonBytes(name) <= NAME_BUDGET
    ensures Encode(WidestFor(name)).Ok?
  {
    MaxIdIsAnId();
    CanonicalIsStable(MAX_ID);
    PlainText(SEARCH_BUDGET, 's');
    MaxPhoneSize();
    UnitsWithinBytes(name);
    EncodesWithinBudget(WidestFor(name));
  }

  /** The name guard passes exactly the non-empty names within the byte budget. */
  lemma NameGuardIsTheBudget(name: string)
    ensures NameIsRepresentable(name) <==> name != "" && JsonBytes(name) <= NAME_BUDGET
  {
    if name != "" && JsonBytes(name) <= NAME_BUDGET {
      WidestFits(name);
    } else {
      EncodesExactly(WidestFor(name));
    }
  }

  /** Any stored name and any search that pass their guards fit one cursor together, whatever the
      status and the id, and within 1,536 bytes and 2,048 characters. */
  lemma GuardedCursorsEncode(reader: Reader, status: Status, search: Option<Scope>, name: string, id: string)
    requires ReadsEncoded(reader) && NameIsRepresentable(name) && IsCustomerId(id)
    requires search.Some? ==> SearchIsRepresentable(search.value)
    ensures var c := Cursor(status, search, Position(name, id));
            && Encode(c).Ok? && |Encode(c).value| <= MAX_ENCODED_LENGTH
            && ByteLength(Stringify(PayloadOf(c))) <= MAX_DECODED_BYTES
            && Decode(reader, Encode(c).value) == Ok(c.(position := Position(name, CanonicalId(id))))
  {
    var c := Cursor(status, search, Position(name, id));
    NameGuardIsTheBudget(name);
    UnitsWithinBytes(name);
    CanonicalIsStable(id);
    if search.Some? {
      SearchLeavesRoom(search.value);
    }
    EncodesWithinBudget(c);
    EncodesExactly(c);
    DecodeUndoesEncode(reader, c);
  }

  /** A search that passes its guard leaves room for every name within its budget. */
  lemma SearchLeavesRoom(search: Scope)
    requires SearchIsRepresentable(search)
    ensures 118 + JsonBytes(search.prefix) + 2 + NullableBytes(search.phone) + NAME_BUDGET <= MAX_DECODED_BYTES
    ensures Utf16Length(search.prefix) <= MAX_NAME_LENGTH && Bounded(search.phone, MAX_PHONE_LENGTH)
  {
    var c := Cursor(ArchivedCustomer, Some(search), Position(Repeat(NAME_BUDGET, 'n'), MAX_ID));
    EncodesExactly(c);
    PlainText(NAME_BUDGET, 'n');
    EncodesWithinBudget(c);
  }

  /* ---- The budgets in numbers ---- */

  predicate HasIdForm(s: string) {
    && |s| == 36
    && forall k | 0 <= k < 36 ::
         if k == 8 || k == 13 || k == 18 || k == 23 then s[k] as int == 45
         else 48 <= s[k] as int <= 57 || 65 <= s[k] as int <= 70 || 97 <= s[k] as int <= 102
  }

  lemma IdFormsAgree(s: string)
    ensures IsCustomerId(s) <==> HasIdForm(s)
  {
    if |s| == 36 {
      forall k | 0 <= k < 36
        ensures IsIdChar(s[k], k) <==>
                  if k == 8 || k == 13 || k == 18 || k == 23 then s[k] as int == 45
                  else 48 <= s[k] as int <= 57 || 65 <= s[k] as int <= 70 || 97 <= s[k] as int <= 102
      {
      }
    }
  }

  /** The lengths that a cursor's texts may have, in UTF-16 code units. */
  predicate WithinLengths(search: Option<Scope>, name: string) {
    && 1 <= |name| && Utf16Length(name) <= 1024
    && (search.Some? ==>
          && Utf16Length(search.value.prefix) <= 1024
          && (search.value.phone.Some? ==> Utf16Length(search.value.phone.value) <= 32))
  }

  function SearchBytes(search: Option<Scope>): nat {
    if search.None? then 8
    else JsonBytes(search.value.prefix) + 2 + (if search.value.phone.Some? then JsonBytes(search.value.phone.value) + 2 else 4)
  }

  /** The bytes of a cursor's object: 116 or 118 by its status, and its texts. */
  function CursorBytes(c: Cursor): nat {
    (if c.status == ActiveCustomer then 116 else 118) + SearchBytes(c.search) + JsonBytes(c.position.name)
  }

  /** A cursor encodes exactly when its id has the form of one, its texts are within their lengths and its
      object is no more than 1,536 bytes long; the text is then no longer than 2,048. */
  lemma EncodeDecides(c: Cursor)
    ensures Encode(c).Ok? <==> HasIdForm(c.position.id) && WithinLengths(c.search, c.position.name) && CursorBytes(c) <= 1536
    ensures Encode(c).Ok? ==> |Encode(c).value| <= 2048
  {
    IdFormsAgree(c.position.id);
    if IsCustomerId(c.position.id) {
      CanonicalIsStable(c.position.id);
      EncodesWhenItFits(c);
    }
  }

  lemma EncodesWhenItFits(c: Cursor)
    requires IsCustomerId(c.position.id) && IsCustomerId(CanonicalId(c.position.id))
    ensures Encode(c).Ok? <==> WithinLengths(c.search, c.position.name) && CursorBytes(c) <= 1536
    ensures Encode(c).Ok? ==> |Encode(c).value| <= 2048
  {
    LengthsDecide(c);
    EncodesExactly(c);
    StringifySize(PayloadOf(c));
    StatusTexts(c.status);
  }

  lemma StatusTexts(status: Status)
    ensures |StatusText(status)| == if status == ActiveCustomer then 6 else 8
  {
  }

  lemma LengthsDecide(c: Cursor)
    requires IsCustomerId(CanonicalId(c.position.id))
    ensures IsPayload(PayloadOf(c)) <==> WithinLengths(c.search, c.position.name)
  {
  }

  /** The search guard passes exactly the searches that leave room for every name within its budget. */
  lemma SearchGuardIsTheBudget(search: Scope)
    ensures SearchIsRepresentable(search) <==>
              && JsonBytes(search.prefix) <= 699 && Utf16Length(search.prefix) <= 1024
              && (search.phone.Some? ==> Utf16Length(search.phone.value) <= 32)
              && 118 + SearchBytes(Some(search)) + 699 <= 1536
  {
    var c := Cursor(ArchivedCustomer, Some(search), Position(Repeat(NAME_BUDGET, 'n'), MAX_ID));
    EncodeDecides(c);
    PlainText(NAME_BUDGET, 'n');
    MaxIdIsAnId();
    IdFormsAgree(MAX_ID);
  }

  /** What is decoded is within the lengths, and its id is in lower case. */
  lemma DecodedIsWithin(reader: Reader, text: string)
    requires Decode(reader, text).Ok?
    ensures var c := Decode(reader, text).value;
            && WithinLengths(c.search, c.position.name) && HasIdForm(c.position.id)
            && forall k | 0 <= k < |c.position.id| :: !(65 <= c.position.id[k] as int <= 90)
  {
    var p := reader(Base64Url.Decode(text)).value;
    CanonicalIsStable(p.lastId);
    IdFormsAgree(CanonicalId(p.lastId));
  }

  /** A text is refused when it is empty or longer than 2,048, has a character outside the alphabet, does not
      hold 1 to 1,536 whole bytes, or these are no object within the lengths; otherwise it is accepted. */
  lemma DecodeDecides(reader: Reader, text: string)
    ensures Decode(reader, text).Ok? <==>
              && 1 <= |text| <= 2048 && Base64Url.InAlphabet(text) && Base64Url.WholeBytes(Base64Url.Values(text))
              && var bytes := Base64Url.Decode(text);
                 && 1 <= |bytes| <= 1536 && reader(bytes).Some? && IsPayload(reader(bytes).value)
  {
    if Base64Url.InAlphabet(text) { Base64Url.EncodeRestoresCanonical(text); }
  }

  lemma StatusesAreSpelled(status: Status)
    ensures Quote(StatusText(status)) == if status == ActiveCustomer then "\"active\"" else "\"archived\""
  {
    PlainIsItself(StatusText(status));
  }

  lemma {:induction false} PlainIsItself(s: string)
    requires IsPlain(s)
    ensures Escape(s) == s
  {
    if s != [] { PlainIsItself(s[1..]); }
  }

  /** The object's text from its last member back to its first. */
  lemma ObjectIsSpelled(p: Payload)
    ensures var end := ",\"lastId\":" + (Quote(p.lastId) + "}");
            var names := ",\"lastName\":" + (Quote(p.lastName) + end);
            var phones := ",\"searchPhone\":" + ((if p.searchPhone.Some? then Quote(p.searchPhone.value) else "null") + names);
            var searches := ",\"searchName\":" + ((if p.searchName.Some? then Quote(p.searchName.value) else "null") + phones);
            Stringify(p) == "{\"v\":1,\"status\":" + ((if p.status == ActiveCustomer then "\"active\"" else "\"archived\"") + searches)
  {
    StatusesAreSpelled(p.status);
  }

  /** A cursor belongs to a request exactly when its status is the same and both search for nothing, or for
      the same prefix and the same phone. */
  lemma ScopesMatch(c: Cursor, status: Status, search: Option<Scope>)
    ensures MatchesScope(c, status, search) <==> c.status == status && c.search == search
  {
  }
}
