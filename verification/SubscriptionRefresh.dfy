/** Refreshing a subscription with conditional requests. */
module SubscriptionRefresh {
  import opened Common
  import opened SubscriptionImage
  import opened Storage
  import opened SubscriptionStore

  /** What validators mean under sections 13.1.2, 13.1.3 and 15.4.5 of RFC 9110, taken
      strongly: at one URL a validator stands for one sequence of bytes. */
  datatype World = World(byTag: (string, string) -> Text, byDate: (string, string) -> Text)

  datatype Reply =
    | NoReply(failure: nat)
    | NotModified(etag: string, lastModified: string)
    | Full(text: Text, etag: string, lastModified: string)

  /** Everything outside the store that a refresh meets: the server, the profile check,
      rendering, validation by Mihomo, the context at each check point (`Some(0)` is a
      cancellation, other values are failures to record), and whether the configured
      source is still the one that was fetched. */
  datatype Outside = Outside(
    reply: (string, string, string) -> Reply,
    plausible: Text -> bool, render: Text -> Option<Text>, accepts: Text -> bool,
    expired: nat -> Option<nat>, isCurrent: nat -> bool)

  ghost predicate TagFits(w: World, url: string, etag: string, text: Text) {
    etag != "" ==> w.byTag(url, etag) == text
  }

  ghost predicate DateFits(w: World, url: string, lastModified: string, text: Text) {
    lastModified != "" ==> w.byDate(url, lastModified) == text
  }

  /** The server holds `now(url)`; it answers 304 only to a validator that stands for
      these bytes, and If-None-Match takes precedence. */
  ghost predicate Honest(w: World, now: string -> Text, reply: (string, string, string) -> Reply) {
    forall url, etag, date ::
      match reply(url, etag, date)
      case NoReply(_) => true
      case Full(text, etag', date') => text == now(url) && TagFits(w, url, etag', text) && DateFits(w, url, date', text)
      case NotModified(etag', date') =>
        && (etag != "" || date != "")
        && TagFits(w, url, etag, now(url)) && (etag == "" ==> DateFits(w, url, date, now(url)))
        && TagFits(w, url, etag', now(url)) && DateFits(w, url, date', now(url))
  }

  /** Stored validators belong to the stored profile at the stored URL. */
  ghost predicate Truthful(w: World, r: Record) {
    && (r.etag != "" || r.lastModified != "" ==> r.current.Some?)
    && (r.current.Some? ==> TagFits(w, r.url, r.etag, r.current.value.profile.of) && DateFits(w, r.url, r.lastModified, r.current.value.profile.of))
  }

  /** ... in memory and on disk. */
  ghost predicate AllTruthful(w: World, records: map<SubId, Record>, stored: map<SubId, Option<Record>>) {
    && (forall id :: id in records ==> Truthful(w, records[id]))
    && (forall id :: id in stored && stored[id].Some? ==> Truthful(w, stored[id].value))
  }

  datatype Result = Failed | Unchanged | Changed

  /** The whole of a refresh's promise: the store stays sound, validators stay truthful,
      a success leaves the profile the server holds now, and a failure leaves the last
      good pair. */
  twostate predicate Refreshed(s: Service, w: World, now: string -> Text, id: SubId, result: Result)
    reads s, s.disk
  {
    && Retains(s.disk)
    && (result != Failed || s.disk.weather != Faults ==> s.Valid())
    && AllTruthful(w, s.records, RecordsOf(s.disk.subs))
    && (result != Failed ==> id in s.records && s.records[id].current.Some? && s.records[id].current.value.profile == HashOf(now(s.records[id].url)))
    && (result == Failed ==> forall k :: k in old(s.records) ==> k in s.records && s.records[k].current == old(s.records[k].current))
    && (result == Unchanged ==> id in old(s.records) && s.records[id].current == old(s.records[id].current))
  }

  /** Why a complete profile is not stored, if it is not: its form, its rendering, what
      Mihomo says to the result, or an expired context (0 is a cancellation). */
  function Objection(t: Text, downloadOnly: bool, outside: Outside): Option<nat> {
    if !outside.plausible(t) then Some(1)
    else if downloadOnly then None
    else if outside.expired(2).Some? then outside.expired(2)
    else if outside.render(t) == None then Some(2)
    else if outside.expired(3).Some? then outside.expired(3)
    else if !outside.accepts(outside.render(t).value) then Some(3)
    else None
  }

  /** What is stored beside a profile without objection: itself, or what it is rendered to. */
  function CandidateOf(t: Text, downloadOnly: bool, outside: Outside): Text {
    if downloadOnly || outside.render(t) == None then t else outside.render(t).value
  }

  /** A candidate is stored only if it is the profile itself or Mihomo accepted it. */
  lemma NoObjection(t: Text, downloadOnly: bool, outside: Outside)
    requires Objection(t, downloadOnly, outside) == None
    ensures outside.plausible(t)
    ensures if downloadOnly then CandidateOf(t, downloadOnly, outside) == t
            else outside.render(t) == Some(CandidateOf(t, downloadOnly, outside)) && outside.accepts(CandidateOf(t, downloadOnly, outside))
  {
  }

  /** The profile is already current in the form that is asked for. */
  predicate AlreadyHas(r: Record, t: Text, downloadOnly: bool) {
    r.current.Some? && r.current.value.profile == HashOf(t) && (downloadOnly || !r.downloadedOnly)
  }

  function Noted(r: Record, checked: nat, failure: nat): Record {
    if failure == 0 then r else r.(checked := checked, failure := failure)
  }

  /** A refresh as memory shows it: the records before and after, whether the process died,
      and whether no step of the disk failed. */
  datatype Trace = Trace(before: map<SubId, Record>, after: map<SubId, Record>, dead: bool, smooth: bool) {
    /** Only this record changed. */
    predicate Now(id: SubId, r: Record) {
      after == before[id := r]
    }

    /** What becomes of a complete profile: it is confirmed if it is already there; stored, with
        its candidate, exactly if there is no objection and its source is still current; and
        otherwise the record notes the objection and keeps its pair. */
    predicate Judged(id: SubId, t: Text, checked: nat, etag: string, lastModified: string, downloadOnly: bool, outside: Outside, result: Result) {
      && id in before
      && var r, objection := before[id], Objection(t, downloadOnly, outside);
         && (result == Unchanged ==> AlreadyHas(r, t, downloadOnly) && Now(id, Touched(r, checked, etag, lastModified)))
         && (result == Changed ==>
               && !AlreadyHas(r, t, downloadOnly) && objection == None && outside.isCurrent(0) && outside.isCurrent(1)
               && Now(id, Snapshot(r, Pair(HashOf(t), HashOf(CandidateOf(t, downloadOnly, outside))), checked, etag, lastModified, downloadOnly)))
         && (smooth && AlreadyHas(r, t, downloadOnly) ==> result == Unchanged)
         && (smooth && !AlreadyHas(r, t, downloadOnly) && objection == None && outside.isCurrent(0) && outside.isCurrent(1) ==> result == Changed)
         && (smooth && result == Failed ==> Now(id, Noted(r, checked, if objection.Some? then objection.value else 0)))
    }

    /** A failure before there is a profile is noted. */
    predicate GivenUp(id: SubId, checked: nat, failure: nat, result: Result) {
      id in before && result == Failed && (dead || Now(id, Noted(before[id], checked, failure)))
    }

    /** What becomes of a 304: a profile that was only downloaded so far is judged like one
        that was sent, any other is confirmed, and without one the reply is a failure. */
    predicate Kept(id: SubId, t: Text, checked: nat, etag: string, lastModified: string, downloadOnly: bool, outside: Outside, result: Result) {
      && id in before
      && var r := before[id];
         if r.downloadedOnly && !downloadOnly then Judged(id, t, checked, etag, lastModified, downloadOnly, outside, result)
         else if r.current == None then GivenUp(id, checked, 4, result)
         else (result == Unchanged ==> Now(id, Touched(r, checked, etag, lastModified))) && (smooth ==> result == Unchanged) && result != Changed
    }

    /** What becomes of each reply. Validators that a 304 does not repeat are kept. */
    predicate Replied(now: string -> Text, id: SubId, checked: nat, downloadOnly: bool, outside: Outside, result: Result) {
      && id in before
      && var r := before[id];
         match outside.reply(r.url, r.etag, r.lastModified)
         case NoReply(failure) => GivenUp(id, checked, if outside.expired(1).Some? then outside.expired(1).value else failure, result)
         case NotModified(etag, lastModified) =>
           if outside.expired(1).Some? then GivenUp(id, checked, outside.expired(1).value, result)
           else Kept(id, now(r.url), checked, if etag == "" then r.etag else etag, if lastModified == "" then r.lastModified else lastModified, downloadOnly, outside, result)
         case Full(text, etag, lastModified) =>
           if outside.expired(1).Some? then GivenUp(id, checked, outside.expired(1).value, result)
           else Judged(id, text, checked, etag, lastModified, downloadOnly, outside, result)
    }
  }

  twostate function TraceOf(s: Service): Trace
    reads s, s.disk
  {
    Trace(old(s.records), s.records, s.disk.halted, !s.disk.halted && s.disk.errors == old(s.disk.errors))
  }

  /** Ends a refresh with a failure worth recording. */
  method Fail(s: Service, ghost w: World, id: SubId, checked: nat, failure: nat) returns (result: Result)
    requires s.Valid() && AllTruthful(w, s.records, RecordsOf(s.disk.subs))
    modifies s`records, s.disk`subs, s.disk`halted, s.disk`errors
    ensures result == Failed && Refreshed(s, w, url => Text(0), id, result) && s.Valid()
    ensures id in old(s.records) ==> s.disk.halted || TraceOf(s).Now(id, Noted(old(s.records[id]), checked, failure))
  {
    hide Intact, InStep, RecordsOf, TagFits, DateFits;
    if failure != 0 {
      s.TouchFailure(id, checked, failure);
    }
    result := Failed;
  }

  /** The stored profile is still what the server has. */
  method Confirm(s: Service, ghost w: World, ghost now: string -> Text, id: SubId, checked: nat, etag: string, lastModified: string)
    returns (result: Result)
    requires s.Valid() && AllTruthful(w, s.records, RecordsOf(s.disk.subs)) && id in s.records && s.records[id].current.Some?
    requires s.records[id].current.value.profile == HashOf(now(s.records[id].url))
    requires TagFits(w, s.records[id].url, etag, now(s.records[id].url)) && DateFits(w, s.records[id].url, lastModified, now(s.records[id].url))
    modifies s`records, s.disk`subs, s.disk`halted, s.disk`errors
    ensures Refreshed(s, w, now, id, result) && s.Valid() && result != Changed
    ensures result == Unchanged ==> TraceOf(s).Now(id, Touched(old(s.records[id]), checked, etag, lastModified))
    ensures TraceOf(s).smooth ==> result == Unchanged
  {
    hide Intact, InStep, RecordsOf;
    var ok := s.TouchSuccess(id, checked, etag, lastModified);
    result := if ok then Unchanged else Failed;
  }

  /** Stores a checked profile with its candidate, unless the source changed meanwhile. */
  method Install(s: Service, ghost w: World, ghost now: string -> Text, id: SubId, profile: Text, candidate: Text,
                 checked: nat, etag: string, lastModified: string, downloadOnly: bool, isCurrent: nat -> bool) returns (result: Result)
    requires s.Valid() && AllTruthful(w, s.records, RecordsOf(s.disk.subs)) && id in s.records && !s.disk.halted
    requires downloadOnly ==> profile == candidate
    requires profile == now(s.records[id].url) && TagFits(w, s.records[id].url, etag, profile) && DateFits(w, s.records[id].url, lastModified, profile)
    modifies s`records, s.disk`subs, s.disk`halted, s.disk`errors
    ensures Refreshed(s, w, now, id, result) && result != Unchanged
    ensures result == Changed ==> isCurrent(0) && isCurrent(1)
    ensures result == Changed ==> TraceOf(s).Now(id, Snapshot(old(s.records[id]), Pair(HashOf(profile), HashOf(candidate)), checked, etag, lastModified, downloadOnly))
    ensures TraceOf(s).smooth && isCurrent(0) && isCurrent(1) ==> result == Changed
    ensures TraceOf(s).smooth && result == Failed ==> s.records == old(s.records)
    ensures TraceOf(s).smooth && result == Changed ==> id in s.records && s.Tidy(id)
  {
    hide Service.Tidy, Intact, InStep, RecordsOf, RecordStored, AllTruthful, TagFits, DateFits;
    if !isCurrent(0) {
      return Failed;
    }
    ghost var before, stored, pair := s.records, RecordsOf(s.disk.subs), Pair(HashOf(profile), HashOf(candidate));
    InstallIsTruthful(w, before, stored, id, Snapshot(before[id], pair, checked, etag, lastModified, downloadOnly));
    var previous := s.Promote(id, profile, candidate, checked, etag, lastModified, downloadOnly);
    if previous == None {
      return Failed;
    }
    if !isCurrent(1) {
      BackIsTruthful(w, before, stored, id, s.records[id]);
      var _ := s.RollbackPromotion(id, previous.value, Pair(HashOf(profile), HashOf(candidate)));
      return Failed;
    }
    s.FinalizePromotion(id);
    result := Changed;
  }

  lemma InstallIsTruthful(w: World, records: map<SubId, Record>, stored: map<SubId, Option<Record>>, id: SubId, r: Record)
    requires AllTruthful(w, records, stored) && Truthful(w, r)
    ensures AllTruthful(w, records[id := r], stored) && AllTruthful(w, records[id := r], stored[id := Some(r)])
  {
  }

  /** ... and back again. */
  lemma BackIsTruthful(w: World, records: map<SubId, Record>, stored: map<SubId, Option<Record>>, id: SubId, r: Record)
    requires AllTruthful(w, records, stored) && id in records && Truthful(w, r)
    ensures
      var back := records[id := r][id := records[id]];
      && AllTruthful(w, back, stored) && AllTruthful(w, back, stored[id := Some(r)])
      && AllTruthful(w, back, stored[id := Some(records[id])]) && AllTruthful(w, back, stored[id := Some(r)][id := Some(records[id])])
  {
  }

  method AddLatest(s: Service, ghost w: World, id: SubId, url: string, settings: nat) returns (ok: bool)
    requires s.Valid() && AllTruthful(w, s.records, RecordsOf(s.disk.subs)) && id !in s.records
    modifies s`records, s.disk`subs, s.disk`halted, s.disk`errors
    ensures s.Cut(id) || (s.Valid() && Retains(s.disk) && AllTruthful(w, s.records, RecordsOf(s.disk.subs)))
    ensures s.Cut(id) ==> !ok && s.CutOff(id)
    ensures !ok ==> s.records == old(s.records)
    ensures !ok && !old(s.disk.halted) ==> s.disk.halted || s.disk.errors > old(s.disk.errors)
    ensures ok ==> !s.disk.halted && s.records == old(s.records)[id := Record(url, settings, "", "", None, false, 0, 0)]
  {
    hide Intact, InStep, RecordsOf;
    s.NothingCut(id);
    var record := Record(url, settings, "", "", None, false, 0, 0);
    RecordsAdd(s.disk.subs, id, record);
    ok := s.Add(id, record);
  }

  /** Brings the record up to the configured subscription, or adds it. Validators of another
      URL are dropped; the last good pair stays. */
  method InstallLatest(s: Service, ghost w: World, id: SubId, url: string, settings: nat) returns (ok: bool)
    requires s.Valid() && AllTruthful(w, s.records, RecordsOf(s.disk.subs)) && !s.disk.halted
    modifies s`records, s.disk`subs, s.disk`halted, s.disk`errors
    ensures s.Cut(id) || (s.Valid() && Retains(s.disk) && AllTruthful(w, s.records, RecordsOf(s.disk.subs)))
    ensures s.Cut(id) ==> !ok && s.CutOff(id)
    ensures forall k :: k in old(s.records) ==> k in s.records && s.records[k].current == old(s.records[k].current)
    ensures ok ==> !s.disk.halted && s.records.Keys == old(s.records.Keys) + {id} && s.records[id].url == url && s.records[id].settings == settings
    ensures ok && id !in old(s.records) ==> s.records[id].current == None
    ensures id in old(s.records) && UpToDate(old(s.records[id]), Some((url, settings))) ==> ok && s.records == old(s.records) && s.disk.errors == old(s.disk.errors)
    ensures !ok ==> s.disk.halted || s.disk.errors > old(s.disk.errors)
    ensures ok && (id in old(s.records) ==> url != old(s.records[id].url)) ==> s.records[id].etag == s.records[id].lastModified == "" && s.records[id].checked == 0
    ensures ok && id in old(s.records) && url == old(s.records[id].url) ==> s.records[id] == old(s.records[id]).(settings := settings)
  {
    hide Intact, InStep, RecordsOf;
    s.NothingCut(id);
    if id !in s.records {
      ok := AddLatest(s, w, id, url, settings);
      return;
    }
    var record := s.records[id];
    if record.url == url && record.settings == settings {
      assert s.records.Keys == s.records.Keys + {id};
      return true;
    }
    if record.url != url {
      record := record.(etag := "", lastModified := "", checked := 0);
    }
    ok := s.Replace(id, record.(url := url, settings := settings));
    s.NothingCut(id);
  }

  /** From a complete profile on: compare, check, render, validate, store. */
  method StoreReply(s: Service, ghost w: World, ghost now: string -> Text, id: SubId, profile: Text,
                    checked: nat, etag: string, lastModified: string, downloadOnly: bool, outside: Outside) returns (result: Result)
    requires s.Valid() && AllTruthful(w, s.records, RecordsOf(s.disk.subs)) && id in s.records && !s.disk.halted
    requires profile == now(s.records[id].url) && TagFits(w, s.records[id].url, etag, profile) && DateFits(w, s.records[id].url, lastModified, profile)
    modifies s`records, s.disk`subs, s.disk`halted, s.disk`errors
    ensures Refreshed(s, w, now, id, result)
    ensures TraceOf(s).Judged(id, profile, checked, etag, lastModified, downloadOnly, outside, result)
  {
    hide Intact, InStep, RecordsOf, TagFits, DateFits, Truthful;
    var record := s.records[id];
    if record.current.Some? && HashOf(profile) == record.current.value.profile && (downloadOnly || !record.downloadedOnly) {
      result := Confirm(s, w, now, id, checked, etag, lastModified);
      return;
    }
    if !outside.plausible(profile) {
      result := Fail(s, w, id, checked, 1);
      return;
    }
    if downloadOnly {
      result := Install(s, w, now, id, profile, profile, checked, etag, lastModified, true, outside.isCurrent);
      return;
    }
    var candidate := outside.render(profile);
    if outside.expired(2).Some? {
      result := Fail(s, w, id, checked, outside.expired(2).value);
    } else if candidate == None {
      result := Fail(s, w, id, checked, 2);
    } else if outside.expired(3).Some? {
      result := Fail(s, w, id, checked, outside.expired(3).value);
    } else if !outside.accepts(candidate.value) {
      result := Fail(s, w, id, checked, 3);
    } else {
      result := Install(s, w, now, id, profile, candidate.value, checked, etag, lastModified, false, outside.isCurrent);
    }
  }

  predicate UpToDate(r: Record, latest: Option<(string, nat)>) {
    latest.Some? ==> r.url == latest.value.0 && r.settings == latest.value.1
  }

  /** The record points to this profile without objection, and to its candidate. */
  ghost predicate Stored(r: Record, t: Text, downloadOnly: bool, outside: Outside) {
    && Objection(t, downloadOnly, outside) == None && r.downloadedOnly == downloadOnly
    && r.current == Some(Pair(HashOf(t), HashOf(CandidateOf(t, downloadOnly, outside))))
  }

  /** One refresh. A subscription that is not stored yet is added first, and a refresh that
      is cut inside that addition leaves its directory without a record. A 304 ends with the very profile that an
      unconditional request would have brought. */
  method Refresh(s: Service, ghost w: World, ghost now: string -> Text, id: SubId, latest: Option<(string, nat)>,
                 checked: nat, downloadOnly: bool, outside: Outside) returns (result: Result)
    requires s.Valid() && AllTruthful(w, s.records, RecordsOf(s.disk.subs)) && Honest(w, now, outside.reply)
    modifies s`records, s.disk`subs, s.disk`halted, s.disk`errors
    ensures s.Cut(id) || Refreshed(s, w, now, id, result)
    ensures s.Cut(id) ==> result == Failed && latest.Some? && s.CutOff(id)
    ensures result == Changed ==> Stored(s.records[id], now(s.records[id].url), downloadOnly, outside)
    ensures !old(s.disk.halted) && outside.expired(0) == None && id in old(s.records) && UpToDate(old(s.records[id]), latest) ==>
      TraceOf(s).Replied(now, id, checked, downloadOnly, outside, result)
    ensures result != Failed && latest.Some? ==> s.records[id].url == latest.value.0 && s.records[id].settings == latest.value.1
    ensures outside.expired(0).Some? ==> result == Failed
  {
    hide Intact, InStep, RecordsOf, Objection, CandidateOf, AlreadyHas, Trace.Judged, Trace.Kept, Trace.GivenUp, Trace.Replied, Honest, Stored;
    s.NothingCut(id);
    if s.disk.halted {
      return Failed;
    }
    if latest.Some? {
      var ok := InstallLatest(s, w, id, latest.value.0, latest.value.1);
      if !ok {
        return Failed;
      }
    }
    if id in s.records && outside.expired(0) == None {
      result := RefreshKnown(s, w, now, id, checked, downloadOnly, outside);
    } else {
      result := Failed;
    }
    RecordsOnly(s.disk.subs);
  }

  method RefreshKnown(s: Service, ghost w: World, ghost now: string -> Text, id: SubId, checked: nat, downloadOnly: bool, outside: Outside)
    returns (result: Result)
    requires s.Valid() && AllTruthful(w, s.records, RecordsOf(s.disk.subs)) && Honest(w, now, outside.reply) && id in s.records && !s.disk.halted
    modifies s`records, s.disk`subs, s.disk`halted, s.disk`errors
    ensures Refreshed(s, w, now, id, result)
    ensures result != Failed ==> s.records[id].url == old(s.records[id].url) && s.records[id].settings == old(s.records[id].settings)
    ensures result == Changed ==> Stored(s.records[id], now(s.records[id].url), downloadOnly, outside)
    ensures TraceOf(s).Replied(now, id, checked, downloadOnly, outside, result)
  {
    hide Intact, InStep, RecordsOf;
    var r := s.records[id];
    match outside.reply(r.url, r.etag, r.lastModified)
    case NoReply(failure) =>
      result := Fail(s, w, id, checked, if outside.expired(1).Some? then outside.expired(1).value else failure);
    case NotModified(etag, lastModified) =>
      if outside.expired(1).Some? {
        result := Fail(s, w, id, checked, outside.expired(1).value);
      } else {
        result := Unmodified(s, w, now, id, checked, if etag == "" then r.etag else etag, if lastModified == "" then r.lastModified else lastModified, downloadOnly, outside);
      }
    case Full(text, etag, lastModified) =>
      if outside.expired(1).Some? {
        result := Fail(s, w, id, checked, outside.expired(1).value);
      } else {
        result := StoreReply(s, w, now, id, text, checked, etag, lastModified, downloadOnly, outside);
      }
  }

  /** A 304: the stored profile is the server's. A profile that was only downloaded so
      far is taken through rendering and validation now. */
  method Unmodified(s: Service, ghost w: World, ghost now: string -> Text, id: SubId, checked: nat, etag: string, lastModified: string,
                    downloadOnly: bool, outside: Outside) returns (result: Result)
    requires s.Valid() && AllTruthful(w, s.records, RecordsOf(s.disk.subs)) && id in s.records && !s.disk.halted
    requires s.records[id].current.Some? ==> s.records[id].current.value.profile == HashOf(now(s.records[id].url))
    requires TagFits(w, s.records[id].url, etag, now(s.records[id].url)) && DateFits(w, s.records[id].url, lastModified, now(s.records[id].url))
    modifies s`records, s.disk`subs, s.disk`halted, s.disk`errors
    ensures Refreshed(s, w, now, id, result)
    ensures TraceOf(s).Kept(id, now(old(s.records[id].url)), checked, etag, lastModified, downloadOnly, outside, result)
  {
    hide Intact, InStep, RecordsOf, TagFits, DateFits, Truthful, PairStored;
    MemoryStored(s.records, s.active, s.disk.subs, id);
    var r := s.records[id];
    if r.downloadedOnly && !downloadOnly {
      var profile: Option<Text> := None;
      if r.current.Some? {
        profile := s.disk.ReadPair(id, r.current.value);
      }
      if profile == None {
        return Failed;
      }
      result := StoreReply(s, w, now, id, profile.value, checked, etag, lastModified, downloadOnly, outside);
    } else if r.current == None {
      result := Fail(s, w, id, checked, 4);
    } else {
      result := Confirm(s, w, now, id, checked, etag, lastModified);
    }
  }
}
