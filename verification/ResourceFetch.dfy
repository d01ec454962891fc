/** Preparing a resource set: conditional requests against the committed copies. */
module ResourceFetch {
  import opened Common
  import opened ResourceManifest
  import opened ResourceImage
  import opened Storage
  import opened ResourceTransaction
  import opened ResourcePromotion
  import opened ResourcePlan

  /** What parsing a source as a URL gives. */
  datatype URL = URL(scheme: string, host: string, credentials: bool, isOpaque: bool)

  /** The hash the user insists on, if any; it may be no hash at all. */
  datatype Pin = NoPin | BadPin | Pin(sha: Digest)

  /** A configured resource. `parsed` is its source parsed as a URL, if that works. */
  datatype Resource = Resource(
    id: Id, url: string, parsed: Option<URL>, decl: Declaration, pin: Pin, interval: int, enabled: bool)

  /** An HTTPS URL without credentials, or a path that is neither blank nor cut by a NUL. */
  predicate ValidSource(r: Resource) {
    && r.url != "" && r.parsed.Some?
    && (if r.parsed.value.scheme != "" then
          r.parsed.value.scheme == "https" && r.parsed.value.host != "" && !r.parsed.value.credentials && !r.parsed.value.isOpaque
        else
          '\0' !in r.url && !IsBlank(r.url))
  }

  predicate ValidResource(r: Resource) {
    ValidStableID(r.id) && ValidDeclaration(r.decl) && ValidSource(r) && r.interval >= 0 && r.pin != BadPin
  }

  predicate Geodata(decl: Declaration) {
    decl.kind == GeoIP || decl.kind == GeoSite || decl.kind == MMDB
  }

  /** Names are compared only among geodata; rule files carry their ID in the name. */
  ghost predicate ValidSnapshot(resources: seq<Resource>) {
    && (forall i :: 0 <= i < |resources| ==> ValidResource(resources[i]))
    && (forall i, k :: 0 <= i < k < |resources| ==> resources[i].id != resources[k].id)
    && (forall i, k :: 0 <= i < k < |resources| && Geodata(resources[i].decl) && Geodata(resources[k].decl) ==>
          NameOf(resources[i].id, resources[i].decl) != NameOf(resources[k].id, resources[k].decl))
  }

  /** The geodata comparison is enough: no two resources share a file. */
  lemma NamesNeverClash(resources: seq<Resource>, i: nat, k: nat)
    requires ValidSnapshot(resources) && i < |resources| && k < |resources| && i != k
    ensures NameOf(resources[i].id, resources[i].decl) != NameOf(resources[k].id, resources[k].decl)
  {
    if k < i {
      NamesNeverClash(resources, k, i);
    } else if Geodata(resources[i].decl) && Geodata(resources[k].decl) {
      assert NameOf(resources[i].id, resources[i].decl) != NameOf(resources[k].id, resources[k].decl);
    }
  }

  method ValidateSnapshot(resources: seq<Resource>) returns (ok: bool)
    ensures ok <==> ValidSnapshot(resources)
  {
    hide ValidResource;
    var seen: set<Id>, destinations: set<Name> := {}, {};
    for k := 0 to |resources|
      invariant ValidSnapshot(resources[..k])
      invariant seen == set i | 0 <= i < k :: resources[i].id
      invariant destinations == set i | 0 <= i < k && Geodata(resources[i].decl) :: NameOf(resources[i].id, resources[i].decl)
    {
      var r := resources[k];
      if r.id in seen || !ValidResource(r) {
        return false;
      }
      seen := seen + {r.id};
      if Geodata(r.decl) {
        if NameOf(r.id, r.decl) in destinations {
          return false;
        }
        destinations := destinations + {NameOf(r.id, r.decl)};
      }
      assert resources[..k + 1] == resources[..k] + [r];
    }
    assert resources[..|resources|] == resources;
    ok := true;
  }

  /** At one URL a validator stands for one sequence of bytes. */
  datatype World = World(byTag: (string, string) -> Body, byDate: (string, string) -> Body)

  datatype Reply =
    | NoReply
    | NotModified(etag: string, lastModified: string)
    | Full(body: Body, etag: string, lastModified: string)

  ghost predicate Fits(w: World, url: string, etag: string, lastModified: string, body: Body) {
    (etag != "" ==> w.byTag(url, etag) == body) && (lastModified != "" ==> w.byDate(url, lastModified) == body)
  }

  /** The server holds `now(url)` and answers 304 only to a validator of these bytes. */
  ghost predicate Honest(w: World, now: string -> Body, reply: (string, string, string) -> Reply) {
    forall url, etag, date ::
      match reply(url, etag, date)
      case NoReply => true
      case Full(body, etag', date') => body == now(url) && Fits(w, url, etag', date', body)
      case NotModified(etag', date') =>
        && (etag != "" || date != "")
        && Fits(w, url, etag, if etag == "" then date else "", now(url)) && Fits(w, url, etag', date', now(url))
  }

  /** Stored validators belong to the stored hash at the stored source. */
  ghost predicate Truthful(w: World, states: map<Id, ResourceState>) {
    forall id :: id in states ==> Fits(w, states[id].source, states[id].etag, states[id].lastModified, states[id].sha256.content)
  }

  predicate IsRemote(url: string) {
    exists i :: 0 <= i < |url| && SchemeEnd(url, i)
  }

  predicate SchemeEnd(url: string, i: nat) {
    i + 3 <= |url| && url[i..i + 3] == "://"
  }

  function Bounded(validator: string): string {
    if |validator| > 4096 then "" else validator
  }

  predicate Pinned(r: Resource, sha: Digest) {
    r.pin == NoPin || r.pin == Pin(sha)
  }

  datatype Fetched = Fetched(body: Body, etag: string, lastModified: string)

  /** One preparation: the configured resources, those that are due, and what the server and
      the local files answer. `now` is what the server holds. */
  datatype Request = Request(
    resources: seq<Resource>, checked: int, due: set<Id>, now: string -> Body,
    reply: (string, string, string) -> Reply, readLocal: string -> Option<Body>)

  /** The committed copy may answer for the resource: same source, same declaration, and the
      file still has the promised bytes. */
  predicate Cached(files: map<Name, Body>, r: Resource, base: Manifest, maxBytes: int) {
    && r.id in base.resources && base.resources[r.id].source == r.url && base.resources[r.id].decl == r.decl
    && Pinned(r, base.resources[r.id].sha256)
    && var n := NameOf(r.id, r.decl);
       n in files && Readable(files[n], maxBytes) && DigestOf(files[n]) == base.resources[r.id].sha256 && ValidContent(r.decl, files[n])
  }

  method CacheUsable(disk: Disk, r: Resource, base: Manifest, maxBytes: int) returns (usable: bool)
    modifies disk`halted, disk`errors
    ensures Lives(disk, !disk.halted)
    ensures usable ==> Cached(disk.home.files, r, base, maxBytes) && !disk.halted
    ensures !usable && Cached(disk.home.files, r, base, maxBytes) ==> disk.halted || disk.errors > old(disk.errors)
  {
    usable := false;
    if r.id in base.resources && base.resources[r.id].source == r.url && base.resources[r.id].decl == r.decl {
      var cached := disk.ReadFile(NameOf(r.id, r.decl), maxBytes);
      usable := cached.Some? && DigestOf(cached.value) == base.resources[r.id].sha256 && ValidContent(r.decl, cached.value)
                && Pinned(r, base.resources[r.id].sha256);
    }
  }

  /** What a fetch brings when every read works: the local file, what the server sends, or the
      cached copy that the server confirms. Validators are sent only with a usable copy. */
  function Brought(files: map<Name, Body>, r: Resource, base: Manifest, maxBytes: int, request: Request): Option<Fetched> {
    if !IsRemote(r.url) then
      var body := request.readLocal(r.url);
      if body.Some? && Readable(body.value, maxBytes) then Some(Fetched(body.value, "", "")) else None
    else
      var usable := Cached(files, r, base, maxBytes);
      var etag := if usable then base.resources[r.id].etag else "";
      var date := if usable then base.resources[r.id].lastModified else "";
      match request.reply(r.url, etag, date)
      case NoReply => None
      case Full(body, etag', date') => if body.size <= maxBytes then Some(Fetched(body, etag', date')) else None
      case NotModified(etag', date') =>
        if usable then Some(Fetched(base.resources[r.id].sha256.content, if etag' != "" then etag' else etag, if date' != "" then date' else date))
        else None
  }

  /** Brings the bytes of a due resource. With an honest server the bytes are the ones
      the server holds now, whether it sent them or only confirmed them. */
  method StagedBody(disk: Disk, ghost w: World, r: Resource, base: Manifest, maxBytes: int, request: Request) returns (got: Option<Fetched>)
    requires Honest(w, request.now, request.reply) && Truthful(w, base.resources)
    modifies disk`halted, disk`errors
    ensures Lives(disk, !disk.halted)
    ensures got.Some? ==> Fits(w, r.url, got.value.etag, got.value.lastModified, got.value.body) && got.value.body.size <= maxBytes
    ensures got.Some? && IsRemote(r.url) ==> got.value.body == request.now(r.url)
    ensures got.Some? && !IsRemote(r.url) ==> request.readLocal(r.url) == Some(got.value.body)
    ensures got == Brought(disk.home.files, r, base, maxBytes, request) || disk.halted || disk.errors > old(disk.errors)
  {
    if !IsRemote(r.url) {
      var body := request.readLocal(r.url);
      return if body.Some? && Readable(body.value, maxBytes) then Some(Fetched(body.value, "", "")) else None;
    }
    var usable := CacheUsable(disk, r, base, maxBytes);
    var etag, date := "", "";
    if usable {
      etag, date := base.resources[r.id].etag, base.resources[r.id].lastModified;
    }
    match request.reply(r.url, etag, date)
    case NoReply => got := None;
    case Full(body, etag', date') => got := if body.size <= maxBytes then Some(Fetched(body, etag', date')) else None;
    case NotModified(etag', date') =>
      if r.id !in base.resources || base.resources[r.id].source != r.url {
        return None;
      }
      var cached := disk.ReadFile(NameOf(r.id, r.decl), maxBytes);
      if cached == None || DigestOf(cached.value) != base.resources[r.id].sha256 || !Pinned(r, base.resources[r.id].sha256) {
        return None;
      }
      got := Some(Fetched(cached.value, if etag' != "" then etag' else etag, if date' != "" then date' else date));
  }

  /** What preparation promises about one resource. */
  ghost predicate PreparedWell(w: World, base: Manifest, request: Request, r: Resource, item: Prepared) {
    && ValidState(r.id, item.state) && item.state.decl == r.decl && item.state.source == r.url && Pinned(r, item.state.sha256)
    && ValidContent(r.decl, item.state.sha256.content)
    && Fits(w, r.url, item.state.etag, item.state.lastModified, item.state.sha256.content)
    && (item.body.Some? ==> DigestOf(item.body.value) == item.state.sha256)
    && (r.id in request.due ==> item.state.checked == request.checked && item.state.sha256.content == Held(request, r.url))
    && (r.id !in request.due ==> r.id in base.resources && item.state == base.resources[r.id])
  }

  /** The bytes behind a source at this moment. */
  ghost function Held(request: Request, url: string): Body {
    if !IsRemote(url) && request.readLocal(url).Some? then request.readLocal(url).value else request.now(url)
  }

  /** Whether every step of preparing this resource can work. */
  ghost predicate Obtainable(files: map<Name, Body>, base: Manifest, maxBytes: int, request: Request, r: Resource) {
    if r.id in request.due then Acceptable(r, Brought(files, r, base, maxBytes, request)) else Cached(files, r, base, maxBytes)
  }

  predicate Acceptable(r: Resource, got: Option<Fetched>) {
    got.Some? && ValidContent(r.decl, got.value.body) && Pinned(r, DigestOf(got.value.body))
  }

  /** A resource that is not due keeps its committed version, which is checked again. */
  method PrepareCommitted(disk: Disk, ghost w: World, r: Resource, base: Manifest, maxBytes: int, ghost request: Request) returns (item: Option<Prepared>)
    requires ValidManifest(base) && Truthful(w, base.resources) && r.id !in request.due
    modifies disk`halted, disk`errors
    ensures Lives(disk, !disk.halted)
    ensures item.Some? ==> PreparedWell(w, base, request, r, item.value) && Copyable(disk.home.files, r.id, item.value, maxBytes)
    ensures item.Some? ==> Cached(disk.home.files, r, base, maxBytes)
    ensures item == None && Cached(disk.home.files, r, base, maxBytes) ==> disk.halted || disk.errors > old(disk.errors)
  {
    if r.id !in base.resources || base.resources[r.id].source != r.url || base.resources[r.id].decl != r.decl {
      return None;
    }
    var cached := disk.ReadFile(NameOf(r.id, r.decl), maxBytes);
    if cached == None || DigestOf(cached.value) != base.resources[r.id].sha256 || !ValidContent(r.decl, cached.value) {
      return None;
    }
    if !Pinned(r, base.resources[r.id].sha256) {
      return None;
    }
    item := Some(Prepared(base.resources[r.id], None));
  }

  /** A due resource gets what the fetch brought, if it is valid and fits its pin. */
  method PrepareDue(disk: Disk, ghost w: World, r: Resource, base: Manifest, maxBytes: int, request: Request) returns (item: Option<Prepared>)
    requires Honest(w, request.now, request.reply) && Truthful(w, base.resources) && ValidStableID(r.id) && ValidDeclaration(r.decl) && r.id in request.due
    modifies disk`halted, disk`errors
    ensures Lives(disk, !disk.halted)
    ensures item.Some? ==> PreparedWell(w, base, request, r, item.value) && Copyable(disk.home.files, r.id, item.value, maxBytes)
    ensures
      var got := Brought(disk.home.files, r, base, maxBytes, request);
      disk.halted || disk.errors > old(disk.errors) || if Acceptable(r, got) then item.Some? && item.value.state == StateOf(r, got.value, request.checked) else item == None
  {
    hide Honest, Truthful, Brought;
    var got := StagedBody(disk, w, r, base, maxBytes, request);
    if got == None || !ValidContent(r.decl, got.value.body) || !Pinned(r, DigestOf(got.value.body)) {
      return None;
    }
    var sum := DigestOf(got.value.body);
    var body := Some(got.value.body);
    if r.id in base.resources && base.resources[r.id].sha256 == sum && base.resources[r.id].decl == r.decl {
      var cached := disk.ReadFile(NameOf(r.id, r.decl), maxBytes);
      if cached.Some? && DigestOf(cached.value) == sum {
        body := None;
      }
    }
    item := Some(Prepared(StateOf(r, got.value, request.checked), body));
  }

  /** Validators that are too long are dropped. */
  function StateOf(r: Resource, got: Fetched, checked: int): ResourceState {
    ResourceState(DigestOf(got.body), r.url, Bounded(got.etag), Bounded(got.lastModified), r.decl, checked)
  }

  /** The set prepared so far: one item for every enabled resource seen. */
  ghost predicate PreparedSome(w: World, base: Manifest, request: Request, k: nat, prepared: map<Id, Prepared>)
    requires k <= |request.resources|
  {
    && (forall i :: 0 <= i < k && request.resources[i].enabled ==>
          request.resources[i].id in prepared && PreparedWell(w, base, request, request.resources[i], prepared[request.resources[i].id]))
    && (forall id :: id in prepared ==> exists i :: 0 <= i < k && request.resources[i].enabled && request.resources[i].id == id)
  }

  /** A prepared set can be staged: its states are valid and its names differ. */
  lemma PreparedSetIsOk(w: World, base: Manifest, request: Request, prepared: map<Id, Prepared>)
    requires ValidSnapshot(request.resources) && PreparedSome(w, base, request, |request.resources|, prepared)
    ensures PreparedOk(prepared) && Truthful(w, States(prepared))
  {
    hide ValidSnapshot, ValidContent, ValidState, Fits, Held, Pinned, DistinctNames;
    forall id | id in prepared ensures ValidState(id, prepared[id].state) && Fits(w, prepared[id].state.source, prepared[id].state.etag, prepared[id].state.lastModified, prepared[id].state.sha256.content) {
      var i :| 0 <= i < |request.resources| && request.resources[i].enabled && request.resources[i].id == id;
    }
    PreparedNames(w, base, request, prepared);
  }

  lemma PreparedNames(w: World, base: Manifest, request: Request, prepared: map<Id, Prepared>)
    requires ValidSnapshot(request.resources) && PreparedSome(w, base, request, |request.resources|, prepared)
    ensures DistinctNames(Manifest(2, None, None, States(prepared)))
  {
    hide ValidSnapshot, ValidContent, ValidState, Fits, Held, Pinned, NameOf;
    var resources := request.resources;
    var m := Manifest(2, None, None, States(prepared));
    forall a, b | a in m.resources && b in m.resources && ResourceName(m, a) == ResourceName(m, b) ensures a == b {
      var i :| 0 <= i < |resources| && resources[i].enabled && resources[i].id == a;
      var k :| 0 <= k < |resources| && resources[k].enabled && resources[k].id == b;
      if i != k {
        NamesNeverClash(resources, i, k);
      }
    }
  }

  ghost predicate AllObtainable(files: map<Name, Body>, base: Manifest, maxBytes: int, request: Request, k: nat)
    requires k <= |request.resources|
  {
    forall i :: 0 <= i < k && request.resources[i].enabled ==> Obtainable(files, base, maxBytes, request, request.resources[i])
  }

  /** One resource by itself. */
  method PrepareOne(disk: Disk, ghost w: World, r: Resource, base: Manifest, maxBytes: int, request: Request) returns (item: Option<Prepared>)
    requires ValidResource(r) && ValidManifest(base) && Truthful(w, base.resources) && Honest(w, request.now, request.reply)
    modifies disk`halted, disk`errors
    ensures Lives(disk, !disk.halted)
    ensures item.Some? ==> PreparedWell(w, base, request, r, item.value) && Copyable(disk.home.files, r.id, item.value, maxBytes)
    ensures disk.halted || disk.errors > old(disk.errors) || (item.Some? <==> Obtainable(disk.home.files, base, maxBytes, request, r))
  {
    hide Honest, Truthful, ValidManifest, PreparedWell, ValidSource, ValidStableID, ValidDeclaration, Copyable, Cached, Brought, Acceptable;
    if r.id !in request.due {
      item := PrepareCommitted(disk, w, r, base, maxBytes, request);
    } else {
      item := PrepareDue(disk, w, r, base, maxBytes, request);
    }
  }

  /** Prepares every enabled resource. One failure fails the whole set: at once if the resource
      is not due, otherwise after every other one had its turn. */
  method PrepareResources(disk: Disk, ghost w: World, base: Manifest, maxBytes: int, request: Request) returns (r: Option<map<Id, Prepared>>)
    requires ValidSnapshot(request.resources) && ValidManifest(base) && Truthful(w, base.resources) && Honest(w, request.now, request.reply)
    modifies disk`halted, disk`errors
    ensures Lives(disk, !disk.halted)
    ensures r.Some? ==> PreparedSome(w, base, request, |request.resources|, r.value) && AllCopyable(disk.home.files, r.value, maxBytes)
    ensures r.Some? ==> PreparedOk(r.value) && Truthful(w, States(r.value))
    ensures disk.halted || disk.errors > old(disk.errors) || (r.Some? <==> AllObtainable(disk.home.files, base, maxBytes, request, |request.resources|))
  {
    hide Honest, Truthful, ValidManifest, PreparedWell, ValidResource, Copyable, Obtainable;
    var prepared: map<Id, Prepared> := map[];
    var failed := false;
    for k := 0 to |request.resources|
      invariant Lives(disk, !disk.halted) && AllCopyable(disk.home.files, prepared, maxBytes)
      invariant !failed ==> PreparedSome(w, base, request, k, prepared)
      invariant failed ==> forall id :: id in prepared ==> exists i :: 0 <= i < k && request.resources[i].id == id
      invariant disk.halted || disk.errors > old(disk.errors) || (failed <==> !AllObtainable(disk.home.files, base, maxBytes, request, k))
    {
      if !request.resources[k].enabled {
        continue;
      }
      var item := PrepareOne(disk, w, request.resources[k], base, maxBytes, request);
      if item == None {
        if request.resources[k].id !in request.due {
          return None;
        }
        failed := true;
      } else {
        prepared := prepared[request.resources[k].id := item.value];
      }
    }
    if failed {
      return None;
    }
    PreparedSetIsOk(w, base, request, prepared);
    r := Some(prepared);
  }

  predicate DueAreEnabled(request: Request) {
    forall id :: id in request.due ==> exists i :: 0 <= i < |request.resources| && request.resources[i].id == id && request.resources[i].enabled
  }

  /** What a staged set has to do with its request: it covers exactly the enabled resources;
      what was due is what the server or the local file holds, what was not due is as committed. */
  ghost predicate Answers(request: Request, base: map<Id, ResourceState>, states: map<Id, ResourceState>) {
    && (forall i :: 0 <= i < |request.resources| && request.resources[i].enabled ==> Answered(request, base, states, request.resources[i]))
    && (forall id :: id in states ==> exists i :: 0 <= i < |request.resources| && request.resources[i].enabled && request.resources[i].id == id)
  }

  ghost predicate Answered(request: Request, base: map<Id, ResourceState>, states: map<Id, ResourceState>, r: Resource) {
    && r.id in states && Pinned(r, states[r.id].sha256)
    && states[r.id].decl == r.decl && states[r.id].source == r.url && ValidContent(r.decl, states[r.id].sha256.content)
    && (r.id in request.due ==> states[r.id].sha256 == DigestOf(Held(request, r.url)) && states[r.id].checked == request.checked)
    && (r.id !in request.due ==> r.id in base && states[r.id] == base[r.id])
  }

  lemma PreparedAnswers(w: World, request: Request, base: Manifest, prepared: map<Id, Prepared>)
    requires PreparedSome(w, base, request, |request.resources|, prepared)
    ensures Answers(request, base.resources, States(prepared))
  {
    hide ValidState, ValidContent, Fits;
    forall i | 0 <= i < |request.resources| && request.resources[i].enabled
      ensures Answered(request, base.resources, States(prepared), request.resources[i])
    {
      var r := request.resources[i];
      assert PreparedWell(w, base, request, r, prepared[r.id]);
    }
  }

  /** The request is well-formed and every enabled resource can be had. */
  ghost predicate Preparable(files: map<Name, Body>, base: Manifest, maxBytes: int, request: Request) {
    DueAreEnabled(request) && ValidSnapshot(request.resources) && AllObtainable(files, base, maxBytes, request, |request.resources|)
  }

  /** Prepares the resources of one request over the committed ones. */
  method Prepare(disk: Disk, ghost w: World, base: Manifest, maxBytes: int, request: Request) returns (r: Option<map<Id, Prepared>>)
    requires ValidManifest(base) && Truthful(w, base.resources) && Honest(w, request.now, request.reply)
    modifies disk`halted, disk`errors
    ensures Lives(disk, !disk.halted)
    ensures r.Some? ==> PreparedOk(r.value) && Truthful(w, States(r.value)) && Answers(request, base.resources, States(r.value))
    ensures r.Some? ==> AllCopyable(disk.home.files, r.value, maxBytes)
    ensures disk.halted || disk.errors > old(disk.errors) || (r.Some? <==> Preparable(disk.home.files, base, maxBytes, request))
  {
    hide Truthful, Honest, ValidManifest, PreparedSome, PreparedOk, States, Answers, DueAreEnabled, ValidSnapshot, AllObtainable, AllCopyable;
    if !DueAreEnabled(request) {
      return None;
    }
    var ok := ValidateSnapshot(request.resources);
    if !ok {
      return None;
    }
    r := PrepareResources(disk, w, base, maxBytes, request);
    if r.Some? {
      PreparedAnswers(w, request, base, r.value);
    }
  }

  /** Prepares and stages one request over the manifest on disk. */
  method StageDue(registry: Registry, ghost w: World, request: Request) returns (p: Plan?)
    requires registry.Valid() && Truthful(w, Loaded(registry.disk.home).resources) && Honest(w, request.now, request.reply)
    modifies registry.disk`home, registry.disk`halted, registry.disk`errors, registry.disk`nextId
    ensures registry.Valid() && Keeps(registry.disk) && Lives(registry.disk, p != null)
    ensures registry.disk.home == old(registry.disk.home).(stages := registry.disk.home.stages)
    ensures p != null ==> fresh(p) && p.registry == registry && p.Staged() && p.base == Loaded(registry.disk.home)
    ensures p != null && p.stage.Some? ==> old(registry.disk.nextId) <= p.stage.value < registry.disk.nextId
    ensures forall d :: d in old(registry.disk.home.stages) && d < old(registry.disk.nextId) ==> d in registry.disk.home.stages
    ensures p != null ==> p.commitId == None && !p.committed && !p.finalized && !p.validated && !p.closed && !p.rolledBack
    ensures p != null ==> registry.active.commitId == p.base.commitId && registry.active.version == 2
    ensures p != null ==> Truthful(w, p.resources) && Answers(request, p.base.resources, p.resources) && p.maxBytes == registry.maxBytes
    ensures p != null && registry.disk.home.journal == None ==> p.Whole(registry.disk.home)
    ensures registry.disk.halted || registry.disk.errors > old(registry.disk.errors) ||
      (p != null <==> old(InTouch(registry.active, registry.disk.home) && Preparable(registry.disk.home.files, Loaded(registry.disk.home), registry.maxBytes, request)))
  {
    hide AllCopyable, Preparable, Plan.Whole, Sound, Committed, Truthful, Honest, ValidManifest, PreparedOk, Answers, States, Plan.Staged;
    SoundIsValid(registry.disk.home);
    p := null;
    var base := Loaded(registry.disk.home);
    if base.version != registry.active.version || base.commitId != registry.active.commitId || base.version != 2 {
      return;
    }
    var prepared := Prepare(registry.disk, w, base, registry.maxBytes, request);
    if prepared.Some? {
      p := StagePlan(registry, prepared.value);
    }
  }

  /** The home has room for the request: the committed files fit, the journal will, and no file
      of the user's lies under a name that the request claims anew. */
  ghost predicate Room(s: Image, request: Request, maxBytes: int)
    requires DistinctNames(Loaded(s))
  {
    && ResourceImage.Fits(s.files, Loaded(s), maxBytes) && |Loaded(s).resources| + |request.resources| <= MAX_STATE_BYTES
    && forall i :: 0 <= i < |request.resources| && request.resources[i].enabled ==>
         var n := NameOf(request.resources[i].id, request.resources[i].decl);
         n in Owners(Loaded(s)) || n !in s.files
  }

  /** What was staged for a request can then be committed. */
  lemma StagedIsCommittable(p: Plan, s: Image, request: Request)
    requires p.Staged() && p.base == Loaded(s) && s.journal == None && p.Whole(s)
    requires DistinctNames(Loaded(s)) && Answers(request, p.base.resources, p.resources) && Room(s, request, p.maxBytes)
    ensures p.Committable(s)
  {
    hide Truthful, Held, ValidSource, ValidState, SameGeneration, Pinned, Owners, NameOf, ValidContent;
    forall id | id in p.resources
      ensures exists i :: 0 <= i < |request.resources| && request.resources[i].enabled && request.resources[i].id == id && request.resources[i].decl == p.resources[id].decl
      ensures ValidContent(p.resources[id].decl, p.resources[id].sha256.content)
    {
      var i :| 0 <= i < |request.resources| && request.resources[i].enabled && request.resources[i].id == id;
      assert Answered(request, p.base.resources, p.resources, request.resources[i]);
    }
    IdsCount(request.resources, p.resources.Keys);
    if p.changed {
      WholeIsStaged(p, s);
    }
  }

  lemma WholeIsStaged(p: Plan, s: Image)
    requires p.changed && p.Whole(s) && forall id :: id in p.resources ==> ValidContent(p.resources[id].decl, p.resources[id].sha256.content)
    ensures AllStaged(s, Manifest(2, None, None, p.resources), p.staged, p.maxBytes)
  {
    hide ValidContent;
    forall id | id in p.resources ensures id in p.staged && StagedOk(s.stages, p.staged[id], p.resources[id], p.maxBytes) {
      assert p.FileWhole(s, id);
    }
  }

  lemma {:induction false} IdsCount(resources: seq<Resource>, ids: set<Id>)
    requires forall id :: id in ids ==> exists i :: 0 <= i < |resources| && resources[i].id == id
    ensures |ids| <= |resources|
  {
    if resources != [] {
      var rest, last := resources[..|resources| - 1], resources[|resources| - 1];
      forall id | id in ids - {last.id} ensures exists i :: 0 <= i < |rest| && rest[i].id == id {
        var i :| 0 <= i < |resources| && resources[i].id == id;
        assert rest[i].id == id;
      }
      IdsCount(rest, ids - {last.id});
      assert ids <= (ids - {last.id}) + {last.id};
    } else {
      assert ids == {};
    }
  }

  lemma SoundIsValid(s: Image)
    requires Sound(s)
    ensures ValidManifest(Loaded(s)) && DistinctNames(Loaded(s))
  {
  }
}
