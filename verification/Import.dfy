/** The import service: one transaction per entry, on top of the reminder tables and the tag tables. */
module Import {
  import opened DispatchLog
  import opened Reminders
  import opened ReminderStore
  import opened Tags
  import opened Catalogue

  ghost predicate IndexOk(env: Env, listed: map<Id, Fields>, index: map<CatKey, Id>) {
    && (forall id {:trigger listed[id]} :: id in listed ==>
          KeyOf(env, listed[id]) in index && index[KeyOf(env, listed[id])] == id)
    && (forall k {:trigger index[k]} :: k in index ==> index[k] in listed && KeyOf(env, listed[index[k]]) == k)
  }

  // The dates and the archived mark of a row live in the reminder store, its other columns here.
  ghost predicate DatesOk(listed: map<Id, Fields>, confs: map<Id, Conference>) {
    && listed.Keys == confs.Keys
    && forall id {:trigger listed[id]} :: id in listed ==>
         confs[id].(archived := false) == listed[id].dates.(archived := false)
  }

  ghost function RowOf(f: Fields, tags: map<string, nat>, ct: set<(Conf, nat)>, tracks: set<(Conf, string)>,
                       id: Id): Stored
  {
    Stored(f, TagsIn(tags, ct, id), TracksIn(tracks, id))
  }

  ghost function RowsOf(listed: map<Id, Fields>, tags: map<string, nat>, ct: set<(Conf, nat)>,
                        tracks: set<(Conf, string)>)
    : map<Id, Stored>
  {
    map id <- listed :: RowOf(listed[id], tags, ct, tracks, id)
  }

  ghost function ByKey(index: map<CatKey, Id>, rows: map<Id, Stored>): map<CatKey, Stored> {
    map k <- index | index[k] in rows :: rows[index[k]]
  }

  lemma SameRow(f: Fields, tags: map<string, nat>, ct: set<(Conf, nat)>, tracks: set<(Conf, string)>,
                tags': map<string, nat>, ct': set<(Conf, nat)>, tracks': set<(Conf, string)>, id: Id, other: Id)
    requires OtherTags(tags, ct, tags', ct', id) && OtherTracks(tracks, tracks', id) && other != id
    ensures RowOf(f, tags', ct', tracks', other) == RowOf(f, tags, ct, tracks, other)
  {}

  lemma RowsStep(listed: map<Id, Fields>, tags: map<string, nat>, ct: set<(Conf, nat)>, tracks: set<(Conf, string)>,
                 tags': map<string, nat>, ct': set<(Conf, nat)>, tracks': set<(Conf, string)>, id: Id, f: Fields)
    requires OtherTags(tags, ct, tags', ct', id) && OtherTracks(tracks, tracks', id)
    ensures RowsOf(listed[id := f], tags', ct', tracks')
      == RowsOf(listed, tags, ct, tracks)[id := RowOf(f, tags', ct', tracks', id)]
  {
    forall other <- listed | other != id
      ensures RowOf(listed[other], tags', ct', tracks', other) == RowOf(listed[other], tags, ct, tracks, other)
    {
      SameRow(listed[other], tags, ct, tracks, tags', ct', tracks', id, other);
    }
  }

  lemma ByKeyStep(index: map<CatKey, Id>, rows: map<Id, Stored>, key: CatKey, id: Id, row: Stored)
    requires forall k <- index :: index[k] in rows && (k != key ==> index[k] != id)
    ensures ByKey(index[key := id], rows[id := row]) == ByKey(index, rows)[key := row]
  {}

  lemma OneKey(env: Env, listed: map<Id, Fields>, index: map<CatKey, Id>, key: CatKey, id: Id)
    requires IndexOk(env, listed, index) && if key in index then index[key] == id else id !in listed
    ensures forall k <- index :: index[k] in listed && (k != key ==> index[k] != id)
  {}

  lemma RowStep(env: Env, listed: map<Id, Fields>, index: map<CatKey, Id>, confs: map<Id, Conference>, id: Id,
                f: Fields, c: Conference)
    requires IndexOk(env, listed, index) && DatesOk(listed, confs)
    requires if KeyOf(env, f) in index then index[KeyOf(env, f)] == id else id !in listed
    requires c.(archived := false) == f.dates.(archived := false)
    ensures IndexOk(env, listed[id := f], index[KeyOf(env, f) := id]) && DatesOk(listed[id := f], confs[id := c])
  {
    assert forall k <- index :: index[k] == id ==> k == KeyOf(env, f);
  }

  lemma Rekeyed(listed: map<Id, Fields>, index: map<CatKey, Id>, tags: map<string, nat>, ct: set<(Conf, nat)>,
                tracks: set<(Conf, string)>, before: CatKey, key: CatKey, id: Id, f: Fields)
    requires before in index && index[before] == id && (key in index ==> index[key] == id)
    requires forall k <- index :: index[k] in listed && (k != before ==> index[k] != id)
    ensures ByKey((index - {before})[key := id], RowsOf(listed[id := f], tags, ct, tracks)) - {key}
      == ByKey(index, RowsOf(listed, tags, ct, tracks)) - {before, key}
  {}

  lemma RekeyOk(env: Env, listed: map<Id, Fields>, index: map<CatKey, Id>, confs: map<Id, Conference>, id: Id,
                f: Fields)
    requires IndexOk(env, listed, index) && DatesOk(listed, confs) && id in listed && f.dates == listed[id].dates
    requires KeyOf(env, f) in index ==> index[KeyOf(env, f)] == id
    ensures IndexOk(env, listed[id := f], (index - {KeyOf(env, listed[id])})[KeyOf(env, f) := id])
    ensures DatesOk(listed[id := f], confs)
  {
    assert forall k <- index :: index[k] == id ==> k == KeyOf(env, listed[id]);
  }

  lemma Replaced(cat: map<CatKey, Stored>, moved: map<CatKey, Stored>, before: CatKey, key: CatKey, stored: Stored)
    requires moved - {key} == cat - {before, key}
    ensures moved[key := stored] == (cat - {before})[key := stored]
  {
    forall k | k != key ensures (k in moved <==> k in cat && k != before) && (k in moved ==> moved[k] == cat[k]) {
      assert (k in moved <==> k in moved - {key}) && (k in cat && k != before <==> k in cat - {before, key});
    }
  }

  /** What the conference form reports. */
  datatype Outcome = Done | BadField(field: string) | NotFound | Conflict | Unwritten

  /** Everything one import transaction may change. */
  datatype Snapshot = Snapshot(
    confs: map<Id, Conference>,
    nextConf: Id,
    rows: map<Key, Row>,
    nextId: nat,
    tags: map<string, nat>,
    nextTag: nat,
    conferenceTags: set<(Conf, nat)>,
    conferenceTracks: set<(Conf, string)>,
    listed: map<Id, Fields>,
    index: map<CatKey, Id>)

  class ImportService {
    const env: Env
    const store: Store
    const tagStore: TagStore
    var listed: map<Id, Fields>
    var index: map<CatKey, Id>

    constructor (env: Env, store: Store, tagStore: TagStore)
      requires tagStore.Valid() && tagStore.lower == env.lower && tagStore.codes == env.codes
      requires CatalogOk(store.Cat()) && store.confs == map[]
      ensures Valid() && Contents() == map[]
    {
      this.env, this.store, this.tagStore := env, store, tagStore;
      listed, index := map[], map[];
    }

    ghost predicate Valid()
      reads this, store, tagStore
    {
      && tagStore.Valid() && tagStore.lower == env.lower && tagStore.codes == env.codes
      && CatalogOk(store.Cat())
      && DatesOk(listed, store.confs)
      && IndexOk(env, listed, index)
    }

    /** The catalogue by its unique key. */
    ghost function Contents(): map<CatKey, Stored>
      reads this, tagStore
    {
      ByKey(index, RowsOf(listed, tagStore.tags, tagStore.conferenceTags, tagStore.conferenceTracks))
    }

    ghost predicate ViewOk()
      requires Valid()
      reads this, store, tagStore
    {
      View(store.Cat(), store.Log())
    }

    function Whole(): Snapshot
      reads this, store, tagStore
    {
      Snapshot(store.confs, store.nextConf, store.rows, store.nextId, tagStore.tags, tagStore.nextTag,
               tagStore.conferenceTags, tagStore.conferenceTracks, listed, index)
    }

    method Rollback(saved: Snapshot)
      modifies this, store, tagStore
      ensures Whole() == saved
      ensures store.stars == old(store.stars) && store.settings == old(store.settings)
    {
      store.confs, store.nextConf, store.rows, store.nextId := saved.confs, saved.nextConf, saved.rows, saved.nextId;
      tagStore.tags, tagStore.nextTag := saved.tags, saved.nextTag;
      tagStore.conferenceTags, tagStore.conferenceTracks := saved.conferenceTags, saved.conferenceTracks;
      listed, index := saved.listed, saved.index;
    }

    // The row itself: an INSERT, or an UPDATE with the reminders rematerialised.
    method WriteRow(key: CatKey, dates: Conference) returns (id: Id)
      requires CatalogOk(store.Cat()) && listed.Keys == store.confs.Keys
      requires key in index ==> index[key] in listed
      modifies store
      ensures CatalogOk(store.Cat()) && store.stars == old(store.stars) && store.settings == old(store.settings)
      ensures if key in index then id == index[key] else id !in listed
      ensures id in store.confs && store.confs[id].(archived := false) == dates.(archived := false)
      ensures store.confs == old(store.confs)[id := store.confs[id]]
      ensures old(View(store.Cat(), store.Log())) ==> View(store.Cat(), store.Log())
    {
      ghost var d, t := store.Cat(), store.Log();
      if key in index {
        id := index[key];
        var found := store.Update(id, dates);
        KeepsView(d, t, store.Cat(), store.Log(), Op.Update(id, dates));
      } else {
        id := store.Create(dates);
        KeepsView(d, t, store.Cat(), store.Log(), Op.Create(dates));
      }
    }

    method PutRow(f: Fields) returns (id: Id, create: bool)
      requires Valid()
      modifies this, store
      ensures Valid() && create == (KeyOf(env, f) !in old(index))
      ensures if create then id !in old(listed) else id == old(index)[KeyOf(env, f)]
      ensures listed == old(listed)[id := f] && index == old(index)[KeyOf(env, f) := id]
      ensures store.stars == old(store.stars) && store.settings == old(store.settings)
      ensures old(ViewOk()) ==> ViewOk()
    {
      var key := KeyOf(env, f);
      create := key !in index;
      ghost var confs := store.confs;
      id := WriteRow(key, f.dates);
      RowStep(env, listed, index, confs, id, f, store.confs[id]);
      listed, index := listed[id := f], index[key := id];
    }

    // The statements of the transaction; an unknown track stops them half way.
    method WriteAll(input: Input) returns (ok: bool, create: bool)
      requires Valid()
      modifies this, store, tagStore
      ensures Valid() && ok == (Elements(input.tracks) <= env.codes)
      ensures create == (KeyOf(env, input.fields) !in old(Contents()))
      ensures ok ==> Contents() == old(Contents())[KeyOf(env, input.fields) := StoredOf(env, input)]
      ensures store.stars == old(store.stars) && store.settings == old(store.settings)
      ensures old(ViewOk()) ==> ViewOk()
    {
      ghost var listed0, index0 := listed, index;
      ghost var tags0, ct0, tracks0 := tagStore.tags, tagStore.conferenceTags, tagStore.conferenceTracks;
      ghost var key := KeyOf(env, input.fields);
      var id;
      id, create := PutRow(input.fields);
      ok := tagStore.SetTagsAndTracks(id, input.tags, input.tracks);
      OneKey(env, listed0, index0, key, id);
      RowsStep(listed0, tags0, ct0, tracks0, tagStore.tags, tagStore.conferenceTags, tagStore.conferenceTracks, id,
        input.fields);
      ByKeyStep(index0, RowsOf(listed0, tags0, ct0, tracks0), key, id, StoredOf(env, input));
    }

    method UpsertFromImport(input: Input, down: bool) returns (result: Option<bool>)
      requires Valid()
      modifies this, store, tagStore
      ensures Valid()
      ensures result.Some? <==> !down && Accepted(env, input)
      ensures result.Some? ==> result.value == (KeyOf(env, input.fields) !in old(Contents()))
      ensures result.Some? ==> Contents() == old(Contents())[KeyOf(env, input.fields) := StoredOf(env, input)]
      ensures result.None? ==> Whole() == old(Whole())
      ensures store.stars == old(store.stars) && store.settings == old(store.settings)
      ensures old(ViewOk()) ==> ViewOk()
    {
      var saved := Whole();
      var ok, create := ChecksOk(input.fields), false;
      if ok { ok, create := WriteAll(input); }
      if ok && !down { return Some(create); }
      Rollback(saved);
      result := None;
    }

    /** Create: the validated input becomes a new conference, unless its key is taken. */
    method CreateConference(input: Input, down: bool) returns (outcome: Outcome)
      requires Valid()
      modifies this, store, tagStore
      ensures Valid()
      ensures var key, refused := KeyOf(env, input.fields), ValidateInput(env, input.fields);
        && (outcome.BadField? <==> refused.Some?) && (outcome.BadField? ==> outcome.field == refused.value)
        && (outcome.Conflict? <==> refused.None? && ChecksOk(input.fields) && key in old(Contents()))
        && (outcome.Done? <==> refused.None? && Accepted(env, input) && key !in old(Contents()) && !down)
        && !outcome.NotFound?
        && (outcome.Done? ==> Contents() == old(Contents())[key := StoredOf(env, input)])
      ensures !outcome.Done? ==> Whole() == old(Whole())
      ensures store.stars == old(store.stars) && store.settings == old(store.settings)
      ensures old(ViewOk()) ==> ViewOk()
    {
      var refused := CheckInput(env, input.fields);
      if refused.Some? { return BadField(refused.value); }
      if !ChecksOk(input.fields) { return Unwritten; }
      if KeyOf(env, input.fields) in index { return Conflict; }
      var result := UpsertFromImport(input, down);
      outcome := if result.Some? then Done else Unwritten;
    }

    // The part of the UPDATE that moves the conference to another key.
    method Rekey(id: Id, f: Fields)
      requires Valid() && id in listed && f.dates == listed[id].dates
      requires KeyOf(env, f) in index ==> index[KeyOf(env, f)] == id
      modifies this`listed, this`index
      ensures Valid() && listed == old(listed)[id := f]
      ensures index == (old(index) - {KeyOf(env, old(listed)[id])})[KeyOf(env, f) := id]
    {
      RekeyOk(env, listed, index, store.confs, id, f);
      listed, index := listed[id := f], (index - {KeyOf(env, listed[id])})[KeyOf(env, f) := id];
    }

    // In terms of the catalogue.
    method Move(id: Id, f: Fields)
      requires Valid() && id in listed && f.dates == listed[id].dates
      requires KeyOf(env, f) in index ==> index[KeyOf(env, f)] == id
      modifies this`listed, this`index
      ensures Valid() && KeyOf(env, f) in index && index[KeyOf(env, f)] == id
      ensures Contents() - {KeyOf(env, f)} == old(Contents()) - {KeyOf(env, old(listed)[id]), KeyOf(env, f)}
      ensures old(ViewOk()) ==> ViewOk()
    {
      Rekeyed(listed, index, tagStore.tags, tagStore.conferenceTags, tagStore.conferenceTracks, KeyOf(env, listed[id]),
        KeyOf(env, f), id, f);
      Rekey(id, f);
    }

    // The statements of an update that meets no other conference under its key.
    method MoveAndWrite(id: Id, input: Input, down: bool) returns (ok: bool)
      requires Valid() && id in listed
      requires KeyOf(env, input.fields) in index ==> index[KeyOf(env, input.fields)] == id
      modifies this, store, tagStore
      ensures Valid() && ok == (Accepted(env, input) && !down)
      ensures var before, key := KeyOf(env, old(listed)[id]), KeyOf(env, input.fields);
        ok ==> Contents() == (old(Contents()) - {before})[key := StoredOf(env, input)]
      ensures store.stars == old(store.stars) && store.settings == old(store.settings)
      ensures old(ViewOk()) ==> ViewOk()
    {
      ghost var cat, before, key := Contents(), KeyOf(env, listed[id]), KeyOf(env, input.fields);
      Move(id, input.fields.(dates := listed[id].dates));
      Replaced(cat, Contents(), before, key, StoredOf(env, input));
      var result := UpsertFromImport(input, down);
      ok := result.Some?;
    }

    // Their transaction.
    method WriteOver(id: Id, input: Input, down: bool) returns (ok: bool)
      requires Valid() && id in listed
      requires KeyOf(env, input.fields) in index ==> index[KeyOf(env, input.fields)] == id
      modifies this, store, tagStore
      ensures Valid() && ok == (Accepted(env, input) && !down)
      ensures var before, key := KeyOf(env, old(listed)[id]), KeyOf(env, input.fields);
        ok ==> Contents() == (old(Contents()) - {before})[key := StoredOf(env, input)]
      ensures !ok ==> Whole() == old(Whole())
      ensures store.stars == old(store.stars) && store.settings == old(store.settings)
      ensures old(ViewOk()) ==> ViewOk()
    {
      var saved := Whole();
      ok := MoveAndWrite(id, input, down);
      if !ok { Rollback(saved); }
    }

    /** Update: the validated input replaces the conference of this id, which may change its key, unless
        another conference has the new one. */
    method UpdateConference(id: Id, input: Input, down: bool) returns (outcome: Outcome)
      requires Valid()
      modifies this, store, tagStore
      ensures Valid()
      ensures var key, refused := KeyOf(env, input.fields), ValidateInput(env, input.fields);
        var taken := key in old(index) && old(index)[key] != id;
        && (outcome.BadField? <==> refused.Some?) && (outcome.BadField? ==> outcome.field == refused.value)
        && (outcome.NotFound? <==> refused.None? && id !in old(listed))
        && (outcome.Conflict? <==> refused.None? && id in old(listed) && ChecksOk(input.fields) && taken)
        && (outcome.Done? <==> refused.None? && id in old(listed) && Accepted(env, input) && !taken && !down)
        && (outcome.Done? ==>
              Contents() == (old(Contents()) - {KeyOf(env, old(listed)[id])})[key := StoredOf(env, input)])
      ensures !outcome.Done? ==> Whole() == old(Whole())
      ensures store.stars == old(store.stars) && store.settings == old(store.settings)
      ensures old(ViewOk()) ==> ViewOk()
    {
      var refused := CheckInput(env, input.fields);
      if refused.Some? { return BadField(refused.value); }
      if id !in listed { return NotFound; }
      if !ChecksOk(input.fields) { return Unwritten; }
      var key := KeyOf(env, input.fields);
      if key in index && index[key] != id { return Conflict; }
      var ok := WriteOver(id, input, down);
      outcome := if ok then Done else Unwritten;
    }

    // One pass of the loop: validation, then the transaction.
    method ImportEntry(a: Attempt) returns (created: bool, reason: Option<Reason>)
      requires Valid()
      modifies this, store, tagStore
      ensures Valid()
      ensures match ResultOf(env, a)
        case Wrote(key, stored) =>
          && reason.None? && created == (key !in old(Contents()))
          && Contents() == old(Contents())[key := stored]
        case Rejected(acronym, why) => acronym == a.entry.acronym && reason == Some(why) && Whole() == old(Whole())
      ensures store.stars == old(store.stars) && store.settings == old(store.settings)
      ensures old(ViewOk()) ==> ViewOk()
    {
      var message := CheckEntry(a.entry);
      if message.Some? { return false, Some(Invalid(message.value)); }
      var input := ReadEntry(env, a.entry);
      var result := UpsertFromImport(input, a.down);
      if result.None? { return false, Some(Database); }
      created, reason := result.value, None;
    }

    /** The catalogue is what the first n results made of cat. */
    ghost predicate Reached(cat: map<CatKey, Stored>, rs: seq<Result>, n: nat, viewed: bool)
      requires n <= |rs|
      reads this, store, tagStore
    {
      Valid() && Contents() == Imported(cat, rs, n) && (viewed ==> ViewOk())
    }

    // The same, in terms of a run.
    method ImportNext(doc: seq<Attempt>, i: nat, ghost rs: seq<Result>, ghost es: seq<Effect>,
                      ghost cat: map<CatKey, Stored>, ghost viewed: bool)
      returns (created: bool, reason: Option<Reason>)
      requires i < |doc| && rs == Results(env, doc) && EffectsAre(cat, rs, es) && Reached(cat, rs, i, viewed)
      modifies this, store, tagStore
      ensures Reached(cat, rs, i + 1, viewed)
      ensures es[i] == if reason.Some? then Refused(doc[i].entry.acronym, reason.value) else if created then Created
        else Updated
    {
      ResultAt(env, doc, i);
      assert EffectIs(cat, rs, es, i);
      created, reason := ImportEntry(doc[i]);
    }

    // The body of the loop, with the counters so far; in strict mode an error ends it.
    method ImportStep(doc: seq<Attempt>, i: nat, strict: bool, before: Totals, ghost rs: seq<Result>,
                      ghost es: seq<Effect>, ghost cat: map<CatKey, Stored>, ghost viewed: bool)
      returns (seen: Totals, stop: bool)
      requires i < |doc| && rs == Results(env, doc) && EffectsAre(cat, rs, es) && Reached(cat, rs, i, viewed)
      requires Tally(es, i) == before && (strict ==> before.errs == [])
      modifies this, store, tagStore
      ensures Reached(cat, rs, i + 1, viewed)
      ensures if stop then strict && Concluded(es, true) == Conclusion(i + 1, seen)
              else Tally(es, i + 1) == seen && (strict ==> seen.errs == [])
    {
      var isNew, reason := ImportNext(doc, i, rs, es, cat, viewed);
      TallyStep(es, i, doc[i].entry.acronym, isNew, reason);
      seen, stop := before, false;
      if reason.Some? {
        seen := seen.(errs := seen.errs + [Problem(i + 1, doc[i].entry.acronym, reason.value)]);
        if strict {
          StoppedAt(es, i, seen);
          return seen, true;
        }
        seen := seen.(skipped := seen.skipped + 1);
      } else if isNew {
        seen := seen.(created := seen.created + 1);
      } else {
        seen := seen.(updated := seen.updated + 1);
      }
    }

    method ImportLoop(doc: seq<Attempt>, strict: bool, ghost rs: seq<Result>, ghost es: seq<Effect>,
                      ghost cat: map<CatKey, Stored>, ghost viewed: bool)
      returns (seen: Totals, ghost n: nat)
      requires rs == Results(env, doc) && EffectsAre(cat, rs, es) && Reached(cat, rs, 0, viewed)
      modifies this, store, tagStore
      ensures n <= |rs| && Reached(cat, rs, n, viewed) && Concluded(es, strict) == Conclusion(n, seen)
    {
      seen, n := Totals(0, 0, 0, []), |doc|;
      for i := 0 to |doc|
        invariant Reached(cat, rs, i, viewed) && Tally(es, i) == seen && (strict ==> seen.errs == [])
      {
        var stop;
        seen, stop := ImportStep(doc, i, strict, seen, rs, es, cat, viewed);
        if stop {
          n := i + 1;
          return;
        }
      }
      Finished(es, strict, seen);
    }

    /** n is the number of entries attempted. The catalogue is the last-writer-wins fold over them, the
        counters are those of the run, and the reminder view holds if it held before. */
    method RunImport(doc: seq<Attempt>, strict: bool)
      returns (created: nat, updated: nat, skipped: nat, errs: seq<Problem>, ghost n: nat)
      requires Valid()
      modifies this, store, tagStore
      ensures Valid() && n <= |doc|
      ensures Contents() == Imported(old(Contents()), Results(env, doc), n)
      ensures Concluded(Effects(old(Contents()), Results(env, doc), |doc|), strict)
        == Conclusion(n, Totals(created, updated, skipped, errs))
      ensures created == |Keys(Results(env, doc), n) - old(Contents()).Keys|
      ensures created + updated + |errs| == n && skipped <= |errs| <= skipped + 1
      ensures old(ViewOk()) ==> ViewOk()
    {
      ghost var rs := Results(env, doc);
      EffectsEach(Contents(), rs);
      var seen;
      seen, n := ImportLoop(doc, strict, rs, Effects(Contents(), rs, |doc|), Contents(), ViewOk());
      ImportCounts(old(Contents()), rs, strict, seen, n);
      created, updated, skipped, errs := seen.created, seen.updated, seen.skipped, seen.errs;
    }
  }

  lemma KeepsView(d: Catalog, t: Table<Key>, d': Catalog, t': Table<Key>, op: Op)
    requires CatalogOk(d) && OpStep(d, t, d', t', op)
    ensures CatalogOk(d') && (View(d, t) ==> View(d', t'))
  {
    CatalogKept(d, t, d', t', op);
    if View(d, t) { OpKeepsView(d, t, d', t', op); }
  }
}
