/** Resource declarations, manifests and transaction journals, with the checks
    that decide which of them may be read back from disk. */
module ResourceManifest {
  import opened Common

  type Id = string

  datatype Kind = GeoIP | GeoSite | MMDB | RuleSet | RuleProvider
  datatype Format = DAT | MMDBFormat | YAML | Text | MRS
  datatype RuleType = NoRules | Domain | IPCIDR | Classical
  datatype Declaration = Declaration(kind: Kind, format: Format, ruleType: RuleType)

  /** The bytes of one file: a length, the content, and the declarations under
      which the content parses. */
  datatype Body = Body(size: nat, content: nat, parses: set<Declaration>)

  /** A SHA-256 digest, taken to be injective: it names the bytes it was made from. */
  datatype Digest = Digest(content: Body)

  function DigestOf(body: Body): Digest { Digest(body) }

  /** A stable file name in the managed home. Rule files carry the hash of their
      resource ID, which is injective as well. */
  datatype Name = GeoIPFile | GeoSiteFile | CountryFile | RuleFile(id: Id, format: Format)

  datatype ResourceState = ResourceState(
    sha256: Digest, source: string, etag: string, lastModified: string,
    decl: Declaration, checked: int)

  datatype Manifest = Manifest(
    version: int, generation: Option<nat>, commitId: Option<nat>, resources: map<Id, ResourceState>)

  const EmptyManifest := Manifest(2, None, None, map[])

  datatype Phase = Promoting | Accepted

  datatype Entry = Entry(
    name: Name, backup: Option<int>, hadPrevious: bool,
    previousSHA: Option<Digest>, candidateSHA: Option<Digest>)

  datatype Journal = Journal(
    phase: Phase, dir: nat, maxBytes: int, previous: Manifest, candidate: Manifest,
    metadataOnly: bool, files: seq<Entry>)

  const MAX_STATE_BYTES: nat := 0x10_0000
  const MAX_BACKUP_INDEX: nat := 0x1_0000_0000

  predicate ValidIdChar(c: char, first: bool) {
    'a' <= c <= 'z' || 'A' <= c <= 'Z' || '0' <= c <= '9' || (!first && (c == '-' || c == '_' || c == '.'))
  }

  predicate ValidStableID(id: Id) {
    0 < |id| <= 64 && forall i :: 0 <= i < |id| ==> ValidIdChar(id[i], i == 0)
  }

  predicate ValidDeclaration(decl: Declaration) {
    match decl.kind
    case GeoIP => decl.format == DAT && decl.ruleType == NoRules
    case GeoSite => decl.format == DAT && decl.ruleType == NoRules
    case MMDB => decl.format == MMDBFormat && decl.ruleType == NoRules
    case _ =>
      && decl.format in {YAML, Text, MRS}
      && decl.ruleType != NoRules
      && !(decl.ruleType == Classical && decl.format == MRS)
  }

  /** Whether bytes are acceptable for a declaration. Geodata only has to be
      non-empty; every other kind has to parse. */
  predicate ValidContent(decl: Declaration, body: Body) {
    && ValidDeclaration(decl)
    && body.size > 0
    && (decl.kind == GeoIP || decl.kind == GeoSite || decl in body.parses)
  }

  function NameOf(id: Id, decl: Declaration): Name {
    match decl.kind
    case GeoIP => GeoIPFile
    case GeoSite => GeoSiteFile
    case MMDB => CountryFile
    case _ => RuleFile(id, decl.format)
  }

  function ResourceName(m: Manifest, id: Id): Name
    requires id in m.resources
  {
    NameOf(id, m.resources[id].decl)
  }

  predicate DistinctNames(m: Manifest) {
    forall i, j :: i in m.resources && j in m.resources && ResourceName(m, i) == ResourceName(m, j) ==> i == j
  }

  /** Which resource owns each stable name. */
  function Owners(m: Manifest): (owners: map<Name, Id>)
    requires DistinctNames(m)
  {
    map id | id in m.resources :: ResourceName(m, id) := id
  }

  predicate ValidState(id: Id, state: ResourceState) {
    ValidStableID(id) && ValidDeclaration(state.decl) && |state.etag| <= 4096 && |state.lastModified| <= 4096
  }

  predicate ValidManifest(m: Manifest) {
    && (m.version == 1 || m.version == 2)
    && (m.version == 2 ==> m.generation == None)
    && (m.version == 2 && m.resources != map[] ==> m.commitId.Some?)
    && (forall id :: id in m.resources ==> ValidState(id, m.resources[id]))
    && DistinctNames(m)
  }

  predicate SameDeclaration(left: ResourceState, right: ResourceState) {
    left.decl == right.decl
  }

  /** The hash the manifest promises for a name, if it owns that name. */
  function PromisedSHA(m: Manifest, n: Name): (sha: Option<Digest>)
    requires DistinctNames(m)
  {
    if n in Owners(m) then Some(m.resources[Owners(m)[n]].sha256) else None
  }

  /** The hash a promotion has to find under a name before it starts: only a
      version 2 manifest keeps its files there. */
  function PriorSHA(m: Manifest, n: Name): Option<Digest>
    requires DistinctNames(m)
  {
    if m.version == 2 then PromisedSHA(m, n) else None
  }

  /** A journal entry for one name agrees with both manifests. */
  predicate ValidEntry(j: Journal, e: Entry)
    requires ValidManifest(j.previous) && ValidManifest(j.candidate)
  {
    && (e.name in Owners(j.previous) || e.name in Owners(j.candidate))
    && e.hadPrevious == PriorSHA(j.previous, e.name).Some?
    && e.previousSHA == PriorSHA(j.previous, e.name)
    && (if e.hadPrevious then
          e.backup.Some? && 0 <= e.backup.value < MAX_BACKUP_INDEX
        else
          e.backup == None)
    && e.candidateSHA == PromisedSHA(j.candidate, e.name)
  }

  predicate DistinctEntries(files: seq<Entry>) {
    && (forall i, k :: 0 <= i < k < |files| ==> files[i].name != files[k].name)
    && (forall i, k :: 0 <= i < k < |files| && files[i].hadPrevious && files[k].hadPrevious ==> files[i].backup != files[k].backup)
  }

  predicate ValidMetadataOnly(j: Journal)
    requires ValidManifest(j.previous) && ValidManifest(j.candidate)
  {
    && j.previous.version == 2
    && j.files == []
    && Owners(j.previous).Keys == Owners(j.candidate).Keys
    && (forall n :: n in Owners(j.previous) ==>
          && Owners(j.candidate)[n] == Owners(j.previous)[n]
          && PromisedSHA(j.previous, n) == PromisedSHA(j.candidate, n)
          && SameDeclaration(j.previous.resources[Owners(j.previous)[n]], j.candidate.resources[Owners(j.candidate)[n]]))
  }

  /** What a journal has to look like before recovery acts on it. */
  predicate ValidJournal(j: Journal) {
    && j.maxBytes > 0
    && ValidManifest(j.previous)
    && ValidManifest(j.candidate)
    && j.candidate.version == 2
    && (if j.metadataOnly then ValidMetadataOnly(j) else
          && (forall i :: 0 <= i < |j.files| ==> ValidEntry(j, j.files[i]))
          && DistinctEntries(j.files)
          && (forall n :: n in JournalNames(j) ==> Listed(j.files, n)))
  }

  /** Every stable name a promotion may touch. */
  function JournalNames(j: Journal): set<Name>
    requires ValidManifest(j.previous) && ValidManifest(j.candidate)
  {
    Owners(j.previous).Keys + Owners(j.candidate).Keys
  }

  predicate Listed(files: seq<Entry>, n: Name) {
    exists i :: 0 <= i < |files| && files[i].name == n
  }

  /** What the one-pass check knows after `k` entries: destinations and backups
      met so far, all different. */
  ghost predicate Scanned(files: seq<Entry>, k: nat, seen: set<Name>, backups: set<Option<int>>)
    requires k <= |files|
  {
    && DistinctEntries(files[..k])
    && seen == (set i | 0 <= i < k :: files[i].name)
    && backups == (set i | 0 <= i < k && files[i].hadPrevious :: files[i].backup)
  }

  lemma ScanStep(files: seq<Entry>, k: nat, seen: set<Name>, backups: set<Option<int>>)
    requires k < |files| && Scanned(files, k, seen, backups)
    ensures files[k].name in seen || (files[k].hadPrevious && files[k].backup in backups) ==> !DistinctEntries(files)
    ensures !(files[k].name in seen || (files[k].hadPrevious && files[k].backup in backups)) ==>
      Scanned(files, k + 1, seen + {files[k].name}, if files[k].hadPrevious then backups + {files[k].backup} else backups)
  {
    assert files[..k + 1] == files[..k] + [files[k]];
  }

  /** The one-pass check of a journal's entries: destinations are counted in
      `seen`, and equal counts stand for completeness. */
  method CheckEntries(files: seq<Entry>, allowed: set<Name>, valid: Entry -> bool) returns (ok: bool)
    requires forall e :: valid(e) ==> e.name in allowed
    ensures ok <==>
      && (forall e :: e in files ==> valid(e))
      && DistinctEntries(files)
      && (forall n :: n in allowed ==> Listed(files, n))
  {
    var seen: set<Name>, backups: set<Option<int>> := {}, {};
    for k := 0 to |files|
      invariant forall i :: 0 <= i < k ==> valid(files[i])
      invariant Scanned(files, k, seen, backups)
      invariant seen <= allowed
    {
      var e := files[k];
      ScanStep(files, k, seen, backups);
      if !valid(e) {
        return false;
      }
      if e.name in seen || (e.hadPrevious && e.backup in backups) {
        return false;
      }
      seen, backups := seen + {e.name}, if e.hadPrevious then backups + {e.backup} else backups;
    }
    ok := |seen| == |allowed|;
    EqualCounts(seen, allowed);
    assert files[..|files|] == files;
    assert forall n :: n in seen <==> Listed(files, n);
  }

  /** Decides whether a journal read back from disk may be acted on. */
  method ValidateJournal(j: Journal) returns (ok: bool)
    ensures ok <==> ValidJournal(j)
  {
    if j.maxBytes <= 0 || !ValidManifest(j.previous) || !ValidManifest(j.candidate) || j.candidate.version != 2 {
      return false;
    }
    if j.metadataOnly {
      return ValidMetadataOnly(j);
    }
    ok := CheckEntries(j.files, JournalNames(j),
                       e => ValidManifest(j.previous) && ValidManifest(j.candidate) && ValidEntry(j, e));
  }

  lemma EqualCounts<T>(part: set<T>, whole: set<T>)
    requires part <= whole
    ensures |part| == |whole| <==> part == whole
  {
    assert whole == part + (whole - part);
  }
}
