/** Which of the repository's migrations the database records, as executed rows or as a release
    baseline, and which are still pending. */
module MigrationState {
  import opened Wrappers
  import opened Sorting
  import opened MigrationFiles

  datatype Identity = Identity(filename: string, checksum: string)
  datatype MigrationFile = MigrationFile(filename: string, contents: string, checksum: string)

  datatype ProvenanceRow = ProvenanceRow(
    formatVersion: int, baselineIdentifier: string, sourceGitHead: string, artifactSha256: string,
    catalogFingerprintSha256: string, ceiling: string, manifest: seq<Identity>)

  datatype State = State(executed: seq<Identity>, baseline: Option<ProvenanceRow>, effective: seq<Identity>, pending: seq<MigrationFile>)

  datatype StateError =
    | FileMissing | ChecksumMismatch | MultipleBaselines | InvalidProvenance | InvalidCeiling | ManifestMismatch
    | BaselineOverlap | NotContiguous

  function IdentityOf(file: MigrationFile): Identity { Identity(file.filename, file.checksum) }

  function Identities(files: seq<MigrationFile>): (ids: seq<Identity>)
    ensures |ids| == |files| && forall k | 0 <= k < |files| :: ids[k] == IdentityOf(files[k])
  {
    seq(|files|, k requires 0 <= k < |files| => IdentityOf(files[k]))
  }

  function Names(files: seq<MigrationFile>): (names: seq<string>)
    ensures |names| == |files| && forall k | 0 <= k < |files| :: names[k] == files[k].filename
  {
    seq(|files|, k requires 0 <= k < |files| => files[k].filename)
  }

  predicate IsHex(s: string) { forall k | 0 <= k < |s| :: IsDigit(s[k]) || 'a' <= s[k] <= 'f' }

  predicate IsDigest(s: string) { |s| == 64 && IsHex(s) }

  predicate IsIdentifierStart(c: char) { 'a' <= c <= 'z' || IsDigit(c) }

  /** `^[a-z0-9][a-z0-9._-]{0,127}$`. */
  predicate IsBaselineIdentifier(s: string) {
    && 1 <= |s| <= 128 && IsIdentifierStart(s[0])
    && forall k | 1 <= k < |s| :: IsIdentifierStart(s[k]) || s[k] == '.' || s[k] == '_' || s[k] == '-'
  }

  /** A commit id of either length. */
  predicate IsGitHead(s: string) { (|s| == 40 || |s| == 64) && IsHex(s) }

  predicate WellFormed(row: ProvenanceRow) {
    && row.formatVersion == 1 && IsBaselineIdentifier(row.baselineIdentifier) && IsGitHead(row.sourceGitHead)
    && IsDigest(row.artifactSha256) && IsDigest(row.catalogFingerprintSha256)
  }

  /** Files as the directory yields them: in the order of their prefixes, each with its digest. */
  ghost predicate Sound(files: seq<MigrationFile>) {
    ByRank(Names(files)) && forall k | 0 <= k < |files| :: IsDigest(files[k].checksum)
  }

  /** The database records exactly the first `n` files, the first of them perhaps as a baseline. */
  ghost predicate Recorded(executed: seq<Identity>, provenance: seq<ProvenanceRow>, files: seq<MigrationFile>, n: nat)
    requires n <= |files|
  {
    || (provenance == [] && multiset(executed) == multiset(Identities(files[..n])))
    || (|provenance| == 1 && exists k: nat :: 1 <= k <= n && BaselineCovers(executed, provenance[0], files, k, n))
  }

  ghost predicate BaselineCovers(executed: seq<Identity>, row: ProvenanceRow, files: seq<MigrationFile>, k: nat, n: nat)
    requires 1 <= k <= n <= |files|
  {
    && WellFormed(row) && row.ceiling == files[k - 1].filename
    && row.manifest == Identities(files[..k])
    && multiset(executed) == multiset(Identities(files[k..n]))
  }

  /* ---- Checksums ---- */

  function FindFile(files: seq<MigrationFile>, name: string): Option<MigrationFile> {
    if files == [] then None
    else if files[|files| - 1].filename == name then Some(files[|files| - 1])
    else FindFile(files[..|files| - 1], name)
  }

  lemma {:induction false} FindFileAt(files: seq<MigrationFile>, k: nat)
    requires ByRank(Names(files)) && k < |files|
    ensures FindFile(files, files[k].filename) == Some(files[k])
  {
    var last := |files| - 1;
    if k < last {
      assert Names(files)[k] == files[k].filename && Names(files)[last] == files[last].filename;
      assert Names(files[..last]) == Names(files)[..last];
      FindFileAt(files[..last], k);
    }
  }

  lemma {:induction false} FindFileIsListed(files: seq<MigrationFile>, name: string)
    ensures FindFile(files, name).Some? ==> FindFile(files, name).value in files && FindFile(files, name).value.filename == name
  {
    if files != [] { FindFileIsListed(files[..|files| - 1], name); }
  }

  lemma ListedIdentity(files: seq<MigrationFile>, id: Identity)
    requires ByRank(Names(files))
    ensures id in Identities(files) <==> FindFile(files, id.filename).Some? && FindFile(files, id.filename).value.checksum == id.checksum
  {
    FindFileIsListed(files, id.filename);
    if id in Identities(files) {
      var k :| 0 <= k < |files| && Identities(files)[k] == id;
      FindFileAt(files, k);
    } else if FindFile(files, id.filename).Some? {
      var k :| 0 <= k < |files| && files[k] == FindFile(files, id.filename).value;
      assert Identities(files)[k] != id;
    }
  }

  lemma NameIsListed(files: seq<MigrationFile>, name: string)
    requires ByRank(Names(files))
    ensures FindFile(files, name).Some? <==> name in Names(files)
  {
    FindFileIsListed(files, name);
    if name in Names(files) {
      var k :| 0 <= k < |files| && Names(files)[k] == name;
      FindFileAt(files, k);
    }
    if FindFile(files, name).Some? {
      var k :| 0 <= k < |files| && files[k] == FindFile(files, name).value;
      assert Names(files)[k] == name;
    }
  }

  ghost predicate RefusesRecords(files: seq<MigrationFile>, recorded: seq<Identity>, error: StateError) {
    exists k :: IsFirstFault(files, recorded, k, error)
  }

  /** Record `k` is the first that is no file of the repository, by name or by checksum. */
  ghost predicate IsFirstFault(files: seq<MigrationFile>, recorded: seq<Identity>, k: int, error: StateError) {
    && 0 <= k < |recorded| && recorded[k] !in Identities(files) && (forall j | 0 <= j < k :: recorded[j] in Identities(files))
    && error == (if recorded[k].filename in Names(files) then ChecksumMismatch else FileMissing)
  }

  /** Every record must be a file of the repository, checksum included. The first that is none is refused,
      as missing or for its checksum. */
  method VerifyMigrationChecksums(files: seq<MigrationFile>, recorded: seq<Identity>) returns (checked: Result<(), StateError>)
    requires ByRank(Names(files))
    ensures checked.Ok? <==> AllListed(recorded, files)
    ensures checked.Err? ==> RefusesRecords(files, recorded, checked.error)
  {
    for k := 0 to |recorded|
      invariant forall id | id in recorded[..k] :: id in Identities(files)
    {
      ListedIdentity(files, recorded[k]);
      NameIsListed(files, recorded[k].filename);
      var file := FindFile(files, recorded[k].filename);
      if file.None? {
        assert IsFirstFault(files, recorded, k, FileMissing);
        return Err(FileMissing);
      }
      if file.value.checksum != recorded[k].checksum {
        assert IsFirstFault(files, recorded, k, ChecksumMismatch);
        return Err(ChecksumMismatch);
      }
    }
    return Ok(());
  }

  /* ---- Filters of an ordered list are its ends ---- */

  function Filter(files: seq<MigrationFile>, keep: MigrationFile -> bool): seq<MigrationFile> {
    if files == [] then []
    else Filter(files[..|files| - 1], keep) + (if keep(files[|files| - 1]) then [files[|files| - 1]] else [])
  }

  lemma {:induction false} FilterOfPrefix(files: seq<MigrationFile>, keep: MigrationFile -> bool, k: nat)
    requires k <= |files| && forall j | 0 <= j < |files| :: keep(files[j]) <==> j < k
    ensures Filter(files, keep) == files[..k]
  {
    if files != [] {
      var last := |files| - 1;
      FilterOfPrefix(files[..last], keep, if k <= last then k else last);
      if k == |files| { assert files[..k] == files[..last] + [files[last]]; }
      else { assert files[..last][..k] == files[..k]; }
    }
  }

  lemma {:induction false} FilterOfSuffix(files: seq<MigrationFile>, keep: MigrationFile -> bool, n: nat)
    requires n <= |files| && forall j | 0 <= j < |files| :: keep(files[j]) <==> j >= n
    ensures Filter(files, keep) == files[n..]
  {
    if files != [] {
      var last := |files| - 1;
      FilterOfSuffix(files[..last], keep, if n <= last then n else last);
      if n <= last { assert files[n..] == files[..last][n..] + [files[last]]; }
    }
  }

  function UpTo(ceiling: string): MigrationFile -> bool {
    (file: MigrationFile) => CodeUnitLessEq(file.filename, ceiling)
  }

  /** The code-unit ceiling cuts the files at a place in the order of their prefixes. */
  lemma CeilingIsAPlace(files: seq<MigrationFile>, k: nat)
    requires Sound(files) && 1 <= k <= |files|
    ensures Filter(files, UpTo(files[k - 1].filename)) == files[..k]
  {
    forall j | 0 <= j < |files| ensures UpTo(files[k - 1].filename)(files[j]) <==> j < k {
      assert Names(files)[j] == files[j].filename && Names(files)[k - 1] == files[k - 1].filename;
      if j < k - 1 { CodeUnitOrderIsRank(files[j].filename, files[k - 1].filename); }
      else if j == k - 1 { CodeUnitReflexive(files[j].filename); }
      else { CodeUnitOrderIsRank(files[k - 1].filename, files[j].filename); }
    }
    FilterOfPrefix(files, UpTo(files[k - 1].filename), k);
  }

  /* ---- The baseline ---- */

  predicate ParsesManifest(manifest: seq<Identity>) {
    forall k | 0 <= k < |manifest| :: IsMigrationName(manifest[k].filename) && IsDigest(manifest[k].checksum)
  }

  ghost predicate IsBaseline(row: ProvenanceRow, files: seq<MigrationFile>, k: nat)
    requires 1 <= k <= |files|
  {
    WellFormed(row) && row.ceiling == files[k - 1].filename && row.manifest == Identities(files[..k])
  }

  /** A baseline lists as many files as its manifest is long. */
  predicate ListsFiles(row: ProvenanceRow, files: seq<MigrationFile>) {
    var n := |row.manifest|;
    1 <= n <= |files| && row.ceiling == files[n - 1].filename && row.manifest == Identities(files[..n])
  }

  lemma BaselineIsItsList(row: ProvenanceRow, files: seq<MigrationFile>)
    requires Sound(files)
    ensures HasBaseline(row, files) <==> WellFormed(row) && ParsesManifest(row.manifest) && ListsFiles(row, files)
  {
    if HasBaseline(row, files) {
      var k: nat :| 1 <= k <= |files| && IsBaseline(row, files, k);
      BaselineParses(files, k);
      assert |row.manifest| == k;
    }
    if WellFormed(row) && ListsFiles(row, files) { assert IsBaseline(row, files, |row.manifest|); }
  }

  /** Why a baseline is refused: its own form, its ceiling and length, or else its list. */
  predicate RefusesBaseline(row: ProvenanceRow, files: seq<MigrationFile>, error: StateError) {
    var n := |row.manifest|;
    error == if !WellFormed(row) || !ParsesManifest(row.manifest) then InvalidProvenance
             else if n == 0 || n > |files| || files[n - 1].filename != row.ceiling then InvalidCeiling
             else ManifestMismatch
  }

  /** The list of a baseline whose own form is right. */
  method CompareManifest(row: ProvenanceRow, files: seq<MigrationFile>) returns (fault: Option<StateError>)
    requires Sound(files)
    ensures fault.None? <==> ListsFiles(row, files)
    ensures fault.Some? ==>
              var n := |row.manifest|;
              fault.value == if n == 0 || n > |files| || files[n - 1].filename != row.ceiling then InvalidCeiling else ManifestMismatch
  {
    var expected := Filter(files, UpTo(row.ceiling));
    CeilingDecides(files, row.ceiling, |row.manifest|);
    if expected == [] || expected[|expected| - 1].filename != row.ceiling || |row.manifest| != |expected| {
      return Some(InvalidCeiling);
    }
    var matches := ManifestMatches(row.manifest, expected);
    if !matches {
      return Some(ManifestMismatch);
    }
    return None;
  }

  /** A baseline is accepted exactly when it lists the files up to its ceiling, checksums included. */
  method ValidateBaselineProvenance(row: ProvenanceRow, files: seq<MigrationFile>) returns (checked: Result<ProvenanceRow, StateError>)
    requires Sound(files)
    ensures checked.Ok? <==> HasBaseline(row, files)
    ensures checked.Ok? ==> checked.value == row
    ensures checked.Err? ==> RefusesBaseline(row, files, checked.error)
  {
    BaselineIsItsList(row, files);
    if !WellFormed(row) || !ParsesManifest(row.manifest) {
      return Err(InvalidProvenance);
    }
    var fault := CompareManifest(row, files);
    return if fault.Some? then Err(fault.value) else Ok(row);
  }

  predicate EndsWith(expected: seq<MigrationFile>, ceiling: string, n: nat) {
    expected != [] && expected[|expected| - 1].filename == ceiling && n == |expected|
  }

  predicate IsPlace(files: seq<MigrationFile>, ceiling: string, n: nat) { 1 <= n <= |files| && files[n - 1].filename == ceiling }

  lemma PlaceIsTheEnd(files: seq<MigrationFile>, ceiling: string, n: nat)
    requires Sound(files) && IsPlace(files, ceiling, n)
    ensures Filter(files, UpTo(ceiling)) == files[..n] && EndsWith(Filter(files, UpTo(ceiling)), ceiling, n)
  {
    CeilingIsAPlace(files, n);
  }

  lemma EndIsAPlace(files: seq<MigrationFile>, ceiling: string, n: nat)
    requires Sound(files) && EndsWith(Filter(files, UpTo(ceiling)), ceiling, n)
    ensures IsPlace(files, ceiling, n)
  {
    var k := CeilingFound(files, ceiling);
  }

  /** The files up to a ceiling are `n` and end with it exactly when it is the `n`-th file. */
  lemma CeilingDecides(files: seq<MigrationFile>, ceiling: string, n: nat)
    requires Sound(files)
    ensures EndsWith(Filter(files, UpTo(ceiling)), ceiling, n) <==> IsPlace(files, ceiling, n)
    ensures IsPlace(files, ceiling, n) ==> Filter(files, UpTo(ceiling)) == files[..n]
  {
    if IsPlace(files, ceiling, n) { PlaceIsTheEnd(files, ceiling, n); }
    else if EndsWith(Filter(files, UpTo(ceiling)), ceiling, n) { EndIsAPlace(files, ceiling, n); }
  }

  method ManifestMatches(manifest: seq<Identity>, expected: seq<MigrationFile>) returns (matches: bool)
    requires |manifest| == |expected|
    ensures matches <==> manifest == Identities(expected)
  {
    for index := 0 to |expected|
      invariant forall j | 0 <= j < index :: manifest[j] == IdentityOf(expected[j])
    {
      if manifest[index].filename != expected[index].filename || manifest[index].checksum != expected[index].checksum {
        assert manifest[index] != Identities(expected)[index];
        return false;
      }
    }
    return true;
  }

  lemma BaselineParses(files: seq<MigrationFile>, k: nat)
    requires Sound(files) && k <= |files|
    ensures ParsesManifest(Identities(files[..k]))
  {
    forall j | 0 <= j < k ensures IsMigrationName(files[j].filename) { assert Names(files)[j] == files[j].filename; }
  }

  /** Where in the files the last one that passes a filter stands. */
  lemma {:induction false} LastFiltered(files: seq<MigrationFile>, keep: MigrationFile -> bool) returns (k: nat)
    requires Filter(files, keep) != []
    ensures 1 <= k <= |files| && files[k - 1] == Filter(files, keep)[|Filter(files, keep)| - 1]
  {
    var last := |files| - 1;
    if keep(files[last]) { k := |files|; } else { k := LastFiltered(files[..last], keep); }
  }

  lemma CeilingFound(files: seq<MigrationFile>, ceiling: string) returns (k: nat)
    requires Sound(files)
    requires var expected := Filter(files, UpTo(ceiling)); expected != [] && expected[|expected| - 1].filename == ceiling
    ensures 1 <= k <= |files| && files[k - 1].filename == ceiling && Filter(files, UpTo(ceiling)) == files[..k]
  {
    k := LastFiltered(files, UpTo(ceiling));
    CeilingIsAPlace(files, k);
  }

  /* ---- Sorting what is recorded ---- */

  function ByName(leq: (string, string) -> bool): (Identity, Identity) -> bool {
    (a: Identity, b: Identity) => leq(a.filename, b.filename)
  }

  lemma SortByName(s: seq<Identity>, leq: (string, string) -> bool)
    requires LocaleOrder(leq)
    ensures multiset(Sort(s, ByName(leq))) == multiset(s) && Sorted(Sort(s, ByName(leq)), ByName(leq))
  {
    forall a, b ensures ByName(leq)(a, b) || ByName(leq)(b, a) {
      assert leq(a.filename, b.filename) || leq(b.filename, a.filename);
    }
    SortKeeps(s, ByName(leq));
  }

  /** However the locale orders them, sorting the records of distinct prefixes gives the one order. */
  lemma SortedIsTheList(s: seq<Identity>, files: seq<MigrationFile>, leq: (string, string) -> bool)
    requires LocaleOrder(leq) && Sorted(s, ByName(leq)) && ByRank(Names(files))
    requires multiset(s) == multiset(Identities(files))
    ensures s == Identities(files)
  {
    var list := Identities(files);
    forall i, j | 0 <= i < j < |list| ensures !ByName(leq)(list[j], list[i]) {
      assert Names(files)[i] == list[i].filename && Names(files)[j] == list[j].filename;
    }
    forall a, b, c | ByName(leq)(a, b) && ByName(leq)(b, c) ensures ByName(leq)(a, c) {
      assert leq(a.filename, b.filename) && leq(b.filename, c.filename);
    }
    StrictOrderIsUnique(s, list, ByName(leq));
  }

  /** Records that are files, in the files' order, are those files with their checksums. */
  lemma NamesGiveIdentities(effective: seq<Identity>, files: seq<MigrationFile>)
    requires ByRank(Names(files)) && |effective| <= |files|
    requires forall id | id in effective :: id in Identities(files)
    requires forall k | 0 <= k < |effective| :: effective[k].filename == files[k].filename
    ensures effective == Identities(files[..|effective|])
  {
    forall k | 0 <= k < |effective| ensures effective[k] == IdentityOf(files[k]) {
      assert effective[k] in Identities(files);
      ListedIdentity(files, effective[k]);
      FindFileAt(files, k);
    }
  }

  /* ---- The whole reading ---- */

  function ManifestOf(baseline: Option<ProvenanceRow>): seq<Identity> {
    if baseline.Some? then baseline.value.manifest else []
  }

  predicate Overlaps(executed: seq<Identity>, baseline: Option<ProvenanceRow>) {
    baseline.Some? && exists id | id in executed :: CodeUnitLessEq(id.filename, baseline.value.ceiling)
  }

  function Unrecorded(effective: seq<Identity>): MigrationFile -> bool {
    (file: MigrationFile) => forall id | id in effective :: id.filename != file.filename
  }

  method IsContiguous(effective: seq<Identity>, files: seq<MigrationFile>) returns (contiguous: bool)
    ensures contiguous <==> Contiguous(effective, files)
  {
    for index := 0 to |effective|
      invariant index <= |files|
      invariant forall j | 0 <= j < index :: effective[j].filename == files[j].filename
    {
      if index >= |files| || effective[index].filename != files[index].filename {
        return false;
      }
    }
    return true;
  }

  /** The records are a prefix of the repository's files. */
  ghost predicate Readable(executed: seq<Identity>, provenance: seq<ProvenanceRow>, files: seq<MigrationFile>) {
    exists n: nat | n <= |files| :: Recorded(executed, provenance, files, n)
  }

  ghost predicate AllListed(executed: seq<Identity>, files: seq<MigrationFile>) { forall id | id in executed :: id in Identities(files) }

  ghost predicate HasBaseline(row: ProvenanceRow, files: seq<MigrationFile>) {
    exists k: nat | 1 <= k <= |files| :: IsBaseline(row, files, k)
  }

  /** Why records are refused, in the order in which it is looked for. */
  ghost predicate Refuses(executed: seq<Identity>, provenance: seq<ProvenanceRow>, files: seq<MigrationFile>, error: StateError) {
    if !AllListed(executed, files) then RefusesRecords(files, executed, error)
    else if |provenance| > 1 then error == MultipleBaselines
    else if |provenance| == 1 && !HasBaseline(provenance[0], files) then RefusesBaseline(provenance[0], files, error)
    else if Overlaps(executed, if provenance == [] then None else Some(provenance[0])) then error == BaselineOverlap
    else error == NotContiguous
  }

  lemma UnlistedIsUnreadable(executed: seq<Identity>, provenance: seq<ProvenanceRow>, files: seq<MigrationFile>, leq: (string, string) -> bool)
    requires LocaleOrder(leq) && Sound(files) && !AllListed(executed, files)
    ensures !Readable(executed, provenance, files)
  {
    RecordedIsAccepted(executed, provenance, files, leq);
  }

  lemma BadBaselineIsUnreadable(executed: seq<Identity>, provenance: seq<ProvenanceRow>, files: seq<MigrationFile>, leq: (string, string) -> bool)
    requires LocaleOrder(leq) && Sound(files) && (|provenance| > 1 || (|provenance| == 1 && !HasBaseline(provenance[0], files)))
    ensures !Readable(executed, provenance, files)
  {
    RecordedIsAccepted(executed, provenance, files, leq);
  }

  lemma OverlapIsUnreadable(executed: seq<Identity>, provenance: seq<ProvenanceRow>, files: seq<MigrationFile>, leq: (string, string) -> bool)
    requires LocaleOrder(leq) && Sound(files) && Overlaps(executed, if provenance == [] then None else Some(provenance[0]))
    ensures !Readable(executed, provenance, files)
  {
    RecordedIsAccepted(executed, provenance, files, leq);
  }

  ghost predicate Contiguous(effective: seq<Identity>, files: seq<MigrationFile>) {
    |effective| <= |files| && forall j | 0 <= j < |effective| :: effective[j].filename == files[j].filename
  }

  lemma GapIsUnreadable(executed: seq<Identity>, provenance: seq<ProvenanceRow>, files: seq<MigrationFile>, leq: (string, string) -> bool)
    requires LocaleOrder(leq) && Sound(files)
    requires var baseline := if provenance == [] then None else Some(provenance[0]);
             !Contiguous(Sort(ManifestOf(baseline) + executed, ByName(leq)), files)
    ensures !Readable(executed, provenance, files)
  {
    RecordedIsAccepted(executed, provenance, files, leq);
  }

  /** The one row of a baseline, checked, if there is one. */
  method ReadBaseline(provenance: seq<ProvenanceRow>, files: seq<MigrationFile>) returns (read: Result<Option<ProvenanceRow>, StateError>)
    requires Sound(files)
    ensures read.Ok? <==> provenance == [] || (|provenance| == 1 && HasBaseline(provenance[0], files))
    ensures read.Ok? ==> read.value == (if provenance == [] then None else Some(provenance[0])) && BaselineRead(provenance, read.value, files)
    ensures read.Err? ==> if |provenance| > 1 then read.error == MultipleBaselines else RefusesBaseline(provenance[0], files, read.error)
  {
    if |provenance| > 1 {
      return Err(MultipleBaselines);
    }
    if |provenance| == 1 {
      var row := ValidateBaselineProvenance(provenance[0], files);
      if row.Err? {
        return Err(row.error);
      }
      assert provenance == [provenance[0]];
      return Ok(Some(row.value));
    }
    return Ok(None);
  }

  /** Accepts the records exactly when they are a prefix of the repository's files; what is effective
      is then that prefix, checksums included, and what is pending is exactly the rest. */
  method ReadEffectiveMigrationState(executed: seq<Identity>, provenance: seq<ProvenanceRow>, files: seq<MigrationFile>,
                                     leq: (string, string) -> bool)
    returns (read: Result<State, StateError>)
    requires LocaleOrder(leq) && Sound(files)
    ensures read.Ok? <==> Readable(executed, provenance, files)
    ensures read.Ok? ==>
              var (s, n) := (read.value, |read.value.effective|);
              && n <= |files| && Recorded(executed, provenance, files, n)
              && s.effective == Identities(files[..n]) && s.pending == files[n..]
              && s.executed == executed && s.baseline == (if provenance == [] then None else Some(provenance[0]))
    ensures read.Err? ==> Refuses(executed, provenance, files, read.error)
  {
    var checked := VerifyMigrationChecksums(files, executed);
    if checked.Err? {
      UnlistedIsUnreadable(executed, provenance, files, leq);
      return Err(checked.error);
    }
    var found := ReadBaseline(provenance, files);
    if found.Err? {
      BadBaselineIsUnreadable(executed, provenance, files, leq);
      return Err(found.error);
    }
    var baseline := found.value;
    if Overlaps(executed, baseline) {
      OverlapIsUnreadable(executed, provenance, files, leq);
      return Err(BaselineOverlap);
    }
    var effective := Sort(ManifestOf(baseline) + executed, ByName(leq));
    var contiguous := IsContiguous(effective, files);
    if !contiguous {
      GapIsUnreadable(executed, provenance, files, leq);
      return Err(NotContiguous);
    }
    SortByName(ManifestOf(baseline) + executed, leq);
    AcceptedIsRecorded(executed, provenance, baseline, files, effective);
    PendingIsTheRest(effective, files);
    return Ok(State(executed, baseline, effective, Filter(files, Unrecorded(effective))));
  }

  /** What the reading has established about the baseline once it got that far. */
  ghost predicate BaselineRead(provenance: seq<ProvenanceRow>, baseline: Option<ProvenanceRow>, files: seq<MigrationFile>) {
    match baseline
    case None => provenance == []
    case Some(row) => provenance == [row] && exists k: nat | 1 <= k <= |files| :: IsBaseline(row, files, k)
  }

  lemma IdentitiesAppend(files: seq<MigrationFile>, k: nat, n: nat)
    requires k <= n <= |files|
    ensures Identities(files[..n]) == Identities(files[..k]) + Identities(files[k..n])
    ensures multiset(Identities(files[..n])) == multiset(Identities(files[..k])) + multiset(Identities(files[k..n]))
  {
  }

  lemma PrefixIsByRank(files: seq<MigrationFile>, n: nat)
    requires ByRank(Names(files)) && n <= |files|
    ensures ByRank(Names(files[..n]))
  {
    assert Names(files[..n]) == Names(files)[..n];
  }

  /** Records in the files' order are a repository prefix. */
  lemma AcceptedIsRecorded(executed: seq<Identity>, provenance: seq<ProvenanceRow>, baseline: Option<ProvenanceRow>,
                           files: seq<MigrationFile>, effective: seq<Identity>)
    requires Sound(files) && BaselineRead(provenance, baseline, files)
    requires forall id | id in executed :: id in Identities(files)
    requires multiset(effective) == multiset(ManifestOf(baseline) + executed) && |effective| <= |files|
    requires forall j | 0 <= j < |effective| :: effective[j].filename == files[j].filename
    ensures effective == Identities(files[..|effective|]) && Recorded(executed, provenance, files, |effective|)
  {
    if baseline.None? {
      assert ManifestOf(baseline) + executed == executed;
      PlainIsRecorded(executed, files, effective);
    } else {
      var k: nat :| 1 <= k <= |files| && IsBaseline(baseline.value, files, k);
      BaselineIsRecorded(executed, baseline.value, files, effective, k);
    }
  }

  lemma PlainIsRecorded(executed: seq<Identity>, files: seq<MigrationFile>, effective: seq<Identity>)
    requires Sound(files) && multiset(effective) == multiset(executed) && |effective| <= |files|
    requires forall id | id in executed :: id in Identities(files)
    requires forall j | 0 <= j < |effective| :: effective[j].filename == files[j].filename
    ensures effective == Identities(files[..|effective|]) && Recorded(executed, [], files, |effective|)
  {
    SameMembers(effective, executed);
    NamesGiveIdentities(effective, files);
  }

  lemma BaselineIsRecorded(executed: seq<Identity>, row: ProvenanceRow, files: seq<MigrationFile>, effective: seq<Identity>, k: nat)
    requires Sound(files) && 1 <= k <= |files| && IsBaseline(row, files, k)
    requires forall id | id in executed :: id in Identities(files)
    requires multiset(effective) == multiset(row.manifest + executed) && |effective| <= |files|
    requires forall j | 0 <= j < |effective| :: effective[j].filename == files[j].filename
    ensures effective == Identities(files[..|effective|]) && Recorded(executed, [row], files, |effective|)
  {
    BaselineListed(effective, executed, row, files, k);
    NamesGiveIdentities(effective, files);
    ExecutedIsTheRest(effective, executed, row, files, k);
    assert BaselineCovers(executed, [row][0], files, k, |effective|);
  }

  lemma BaselineListed(effective: seq<Identity>, executed: seq<Identity>, row: ProvenanceRow, files: seq<MigrationFile>, k: nat)
    requires 1 <= k <= |files| && IsBaseline(row, files, k) && multiset(effective) == multiset(row.manifest + executed)
    requires forall id | id in executed :: id in Identities(files)
    ensures forall id | id in effective :: id in Identities(files)
  {
    SameMembers(effective, row.manifest + executed);
    forall id | id in row.manifest ensures id in Identities(files) {
      var i :| 0 <= i < k && row.manifest[i] == id;
      assert Identities(files)[i] == id;
    }
  }

  lemma ExecutedIsTheRest(effective: seq<Identity>, executed: seq<Identity>, row: ProvenanceRow, files: seq<MigrationFile>, k: nat)
    requires 1 <= k <= |files| && IsBaseline(row, files, k) && multiset(effective) == multiset(row.manifest + executed)
    requires |effective| <= |files| && effective == Identities(files[..|effective|])
    ensures k <= |effective| && BaselineCovers(executed, row, files, k, |effective|)
  {
    var n := |effective|;
    assert n == |multiset(effective)| == |multiset(row.manifest + executed)| == k + |executed|;
    IdentitiesAppend(files, k, n);
    assert multiset(row.manifest + executed) == multiset(row.manifest) + multiset(executed);
    assert multiset(executed) == multiset(effective) - multiset(row.manifest);
  }

  lemma NamesDiffer(files: seq<MigrationFile>, i: nat, j: nat)
    requires ByRank(Names(files)) && i < j < |files|
    ensures files[i].filename != files[j].filename && IsMigrationName(files[i].filename) && IsMigrationName(files[j].filename)
    ensures Rank(files[i].filename) < Rank(files[j].filename)
  {
    assert Names(files)[i] == files[i].filename && Names(files)[j] == files[j].filename;
  }

  lemma EffectiveIsRecorded(effective: seq<Identity>, files: seq<MigrationFile>, j: nat)
    requires j < |effective| <= |files| && effective == Identities(files[..|effective|])
    ensures !Unrecorded(effective)(files[j])
  {
    assert effective[j] in effective && effective[j].filename == files[j].filename;
  }

  lemma LaterIsUnrecorded(effective: seq<Identity>, files: seq<MigrationFile>, j: nat)
    requires ByRank(Names(files)) && |effective| <= j < |files| && effective == Identities(files[..|effective|])
    ensures Unrecorded(effective)(files[j])
  {
    forall i | 0 <= i < |effective| ensures effective[i].filename != files[j].filename {
      NamesDiffer(files, i, j);
    }
  }

  lemma PendingIsTheRest(effective: seq<Identity>, files: seq<MigrationFile>)
    requires Sound(files) && |effective| <= |files| && effective == Identities(files[..|effective|])
    ensures Filter(files, Unrecorded(effective)) == files[|effective|..]
  {
    var n := |effective|;
    forall j | 0 <= j < |files| ensures Unrecorded(effective)(files[j]) <==> j >= n {
      if j < n { EffectiveIsRecorded(effective, files, j); } else { LaterIsUnrecorded(effective, files, j); }
    }
    FilterOfSuffix(files, Unrecorded(effective), n);
  }

  /** No check stops the reading of a repository prefix. */
  lemma RecordedIsAccepted(executed: seq<Identity>, provenance: seq<ProvenanceRow>, files: seq<MigrationFile>, leq: (string, string) -> bool)
    requires LocaleOrder(leq) && Sound(files)
    ensures forall n: nat | n <= |files| && Recorded(executed, provenance, files, n) :: Accepted(executed, provenance, files, leq, n)
  {
    forall n: nat | n <= |files| && Recorded(executed, provenance, files, n) ensures Accepted(executed, provenance, files, leq, n) {
      if provenance == [] {
        PlainIsAccepted(executed, files, leq, n);
      } else {
        var k: nat :| 1 <= k <= n && BaselineCovers(executed, provenance[0], files, k, n);
        BaselineIsAccepted(executed, provenance[0], files, leq, k, n);
      }
    }
  }

  ghost predicate Accepted(executed: seq<Identity>, provenance: seq<ProvenanceRow>, files: seq<MigrationFile>, leq: (string, string) -> bool, n: nat)
    requires n <= |files|
  {
    var baseline := if provenance == [] then None else Some(provenance[0]);
    && (forall id | id in executed :: id in Identities(files))
    && |provenance| <= 1
    && (provenance != [] ==> exists k: nat | 1 <= k <= |files| :: IsBaseline(provenance[0], files, k))
    && !Overlaps(executed, baseline)
    && Sort(ManifestOf(baseline) + executed, ByName(leq)) == Identities(files[..n])
  }

  lemma PlainIsAccepted(executed: seq<Identity>, files: seq<MigrationFile>, leq: (string, string) -> bool, n: nat)
    requires LocaleOrder(leq) && Sound(files) && n <= |files| && multiset(executed) == multiset(Identities(files[..n]))
    ensures Accepted(executed, [], files, leq, n)
  {
    SameMembers(executed, Identities(files[..n]));
    forall id | id in executed ensures id in Identities(files) {
      var i :| 0 <= i < n && Identities(files[..n])[i] == id;
      assert Identities(files)[i] == id;
    }
    SortByName(executed, leq);
    assert [] + executed == executed;
    PrefixIsByRank(files, n);
    SortedIsTheList(Sort(executed, ByName(leq)), files[..n], leq);
  }

  lemma BaselineIsAccepted(executed: seq<Identity>, row: ProvenanceRow, files: seq<MigrationFile>, leq: (string, string) -> bool, k: nat, n: nat)
    requires LocaleOrder(leq) && Sound(files) && 1 <= k <= n <= |files| && BaselineCovers(executed, row, files, k, n)
    ensures Accepted(executed, [row], files, leq, n)
  {
    var provenance := [row];
    assert provenance[0] == row && IsBaseline(provenance[0], files, k);
    forall id | id in executed ensures id in Identities(files) && !CodeUnitLessEq(id.filename, row.ceiling) {
      AboveTheCeiling(executed, files, k, n, id);
    }
    assert !Overlaps(executed, Some(provenance[0]));
    SortedBaseline(executed, row, files, leq, k, n);
    assert Accepted(executed, provenance, files, leq, n);
  }

  lemma AboveTheCeiling(executed: seq<Identity>, files: seq<MigrationFile>, k: nat, n: nat, id: Identity)
    requires Sound(files) && 1 <= k <= n <= |files| && multiset(executed) == multiset(Identities(files[k..n])) && id in executed
    ensures id in Identities(files) && !CodeUnitLessEq(id.filename, files[k - 1].filename)
  {
    SameMembers(executed, Identities(files[k..n]));
    assert id in Identities(files[k..n]);
    LaterIdentity(files, k, n, id);
  }

  lemma LaterIdentity(files: seq<MigrationFile>, k: nat, n: nat, id: Identity)
    requires Sound(files) && 1 <= k <= n <= |files| && id in Identities(files[k..n])
    ensures id in Identities(files) && !CodeUnitLessEq(id.filename, files[k - 1].filename)
  {
    var i :| 0 <= i < n - k && Identities(files[k..n])[i] == id;
    LaterFileIsAbove(files, k, k + i);
  }

  lemma LaterFileIsAbove(files: seq<MigrationFile>, k: nat, j: nat)
    requires Sound(files) && 1 <= k <= j < |files|
    ensures IdentityOf(files[j]) in Identities(files)
    ensures !CodeUnitLessEq(files[j].filename, files[k - 1].filename)
  {
    assert Identities(files)[j] == IdentityOf(files[j]);
    NamesDiffer(files, k - 1, j);
    CodeUnitOrderIsRank(files[k - 1].filename, files[j].filename);
  }

  lemma SortedBaseline(executed: seq<Identity>, row: ProvenanceRow, files: seq<MigrationFile>, leq: (string, string) -> bool, k: nat, n: nat)
    requires LocaleOrder(leq) && Sound(files) && 1 <= k <= n <= |files| && BaselineCovers(executed, row, files, k, n)
    ensures Sort(row.manifest + executed, ByName(leq)) == Identities(files[..n])
  {
    IdentitiesAppend(files, k, n);
    SortByName(row.manifest + executed, leq);
    assert multiset(row.manifest + executed) == multiset(row.manifest) + multiset(executed);
    PrefixIsByRank(files, n);
    SortedIsTheList(Sort(row.manifest + executed, ByName(leq)), files[..n], leq);
  }

  /* ---- The patterns of a baseline's row, spelled out ---- */

  predicate IsHexText(s: string) { forall k | 0 <= k < |s| :: 48 <= s[k] as int <= 57 || 97 <= s[k] as int <= 102 }

  predicate IsLowerOrDecimalChar(c: char) { 97 <= c as int <= 122 || 48 <= c as int <= 57 }

  /** A baseline's row is of version 1, has an identifier of up to 128 characters, a commit id of 40 or 64
      hexadecimal digits and two digests of 64. */
  lemma BaselineRules(row: ProvenanceRow)
    ensures WellFormed(row) <==>
              && row.formatVersion == 1
              && 1 <= |row.baselineIdentifier| <= 128 && IsLowerOrDecimalChar(row.baselineIdentifier[0])
              && (forall k | 1 <= k < |row.baselineIdentifier| ::
                    var c := row.baselineIdentifier[k]; IsLowerOrDecimalChar(c) || c as int == 46 || c as int == 95 || c as int == 45)
              && (|row.sourceGitHead| == 40 || |row.sourceGitHead| == 64) && IsHexText(row.sourceGitHead)
              && |row.artifactSha256| == 64 && IsHexText(row.artifactSha256)
              && |row.catalogFingerprintSha256| == 64 && IsHexText(row.catalogFingerprintSha256)
  {
    HexTexts(row.sourceGitHead);
    HexTexts(row.artifactSha256);
    HexTexts(row.catalogFingerprintSha256);
    IdentifierRule(row.baselineIdentifier);
  }

  lemma HexTexts(s: string)
    ensures IsHex(s) <==> IsHexText(s)
  {
  }

  lemma IdentifierRule(s: string)
    ensures IsBaselineIdentifier(s) <==>
              && 1 <= |s| <= 128 && IsLowerOrDecimalChar(s[0])
              && (forall k | 1 <= k < |s| :: IsLowerOrDecimalChar(s[k]) || s[k] as int == 46 || s[k] as int == 95 || s[k] as int == 45)
  {
  }

  /** A manifest parses when each of its entries has a migration's name and a digest of 64 digits. */
  lemma ManifestRule(manifest: seq<Identity>)
    ensures ParsesManifest(manifest) <==>
              forall k | 0 <= k < |manifest| ::
                IsMigrationName(manifest[k].filename) && |manifest[k].checksum| == 64 && IsHexText(manifest[k].checksum)
  {
    forall k | 0 <= k < |manifest| ensures IsDigest(manifest[k].checksum) <==> |manifest[k].checksum| == 64 && IsHexText(manifest[k].checksum) {
      HexTexts(manifest[k].checksum);
    }
  }
}
