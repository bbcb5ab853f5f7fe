/** What importing a document does to the conference catalogue, as a fold over its entries. */
module Catalogue {
  import opened DispatchLog
  import opened SendTime
  import opened Reminders
  import opened Tags

  // One conference of the document, as text. The acceptance rate is not part of this model.
  datatype Entry = Entry(
    name: string,
    acronym: string,
    year: int,
    location: string,
    websiteUrl: string,
    cfpUrl: string,
    primaryDeadline: string,
    abstractDeadline: string,
    notificationDate: string,
    cameraReadyDate: string,
    eventStartDate: string,
    eventEndDate: string,
    coreRank: string,
    h5Index: int,
    dblpKey: string,
    notes: string,
    tags: seq<string>,
    tracks: seq<string>)

  datatype Layout = Rfc3339 | UtcSeconds | DateOnly

  /** What the model takes as given: LOWER of the database, time.Parse, the lower-casing of characters and
      which of them are white space, and the tracks that exist. */
  datatype Env = Env(
    fold: string -> string,
    parse: (Layout, string) -> Option<Instant>,
    lower: char -> char,
    space: char -> bool,
    codes: set<string>)

  // uq_conferences_acronym_year
  datatype CatKey = CatKey(acronym: string, year: int)

  /** The columns an import writes; dates.archived is not one of them and stays false here. */
  datatype Fields = Fields(
    name: string,
    acronym: string,
    year: int,
    location: string,
    websiteUrl: Option<string>,
    cfpUrl: Option<string>,
    coreRank: Option<string>,
    h5Index: Option<int>,
    dblpKey: Option<string>,
    notes: Option<string>,
    eventStartDate: Option<int>,
    dates: Conference)

  datatype Input = Input(fields: Fields, tags: seq<string>, tracks: seq<string>)

  /** A conference of the catalogue with its tags and tracks. */
  datatype Stored = Stored(fields: Fields, tags: set<string>, tracks: set<string>)

  datatype Reason = Invalid(message: string) | Database

  datatype Problem = Problem(entry: nat, acronym: string, reason: Reason)

  const NAME_REQUIRED := "name is required"
  const ACRONYM_REQUIRED := "acronym is required"
  const YEAR_RANGE := "year must be between 2000 and 2100"

  function Validate(e: Entry): Option<string> {
    if e.name == "" then Some(NAME_REQUIRED)
    else if e.acronym == "" then Some(ACRONYM_REQUIRED)
    else if e.year < 2000 || e.year > 2100 then Some(YEAR_RANGE)
    else None
  }

  function NonEmpty(s: string): Option<string> {
    if s == "" then None else Some(s)
  }

  function OrElse<T>(a: Option<T>, b: Option<T>): Option<T> {
    if a.Some? then a else b
  }

  // The first layout that fits; a text that none fits is treated like an absent one.
  function ParseTimestamp(env: Env, s: string): Option<Instant> {
    if s == "" then None
    else OrElse(env.parse(Rfc3339, s), OrElse(env.parse(UtcSeconds, s), env.parse(DateOnly, s)))
  }

  function ParseDate(env: Env, s: string): Option<int> {
    if s == "" then None
    else
      var t := env.parse(DateOnly, s);
      if t.Some? then Some(t.value / DAY) else None
  }

  function InputOf(env: Env, e: Entry): Input {
    var dates := Conference(ParseTimestamp(env, e.primaryDeadline), ParseTimestamp(env, e.abstractDeadline),
      ParseTimestamp(env, e.notificationDate), ParseTimestamp(env, e.cameraReadyDate), ParseDate(env, e.eventEndDate),
        false);
    Input(
      Fields(e.name, e.acronym, e.year, e.location, NonEmpty(e.websiteUrl), NonEmpty(e.cfpUrl), NonEmpty(e.coreRank),
             if e.h5Index > 0 then Some(e.h5Index) else None, NonEmpty(e.dblpKey), NonEmpty(e.notes),
             ParseDate(env, e.eventStartDate), dates),
      e.tags, e.tracks)
  }

  // parseTimestamp, importInputFromYAML and Validate as the program goes through them.
  method ReadTimestamp(env: Env, s: string) returns (t: Option<Instant>)
    ensures t == ParseTimestamp(env, s)
  {
    if s == "" { return None; }
    var layouts := [Rfc3339, UtcSeconds, DateOnly];
    for i := 0 to |layouts|
      invariant forall j :: 0 <= j < i ==> env.parse(layouts[j], s).None?
    {
      assert i > 0 ==> env.parse(layouts[0], s).None?;
      assert i > 1 ==> env.parse(layouts[1], s).None?;
      t := env.parse(layouts[i], s);
      if t.Some? { return; }
    }
    assert env.parse(layouts[0], s).None? && env.parse(layouts[1], s).None? && env.parse(layouts[2], s).None?;
    t := None;
  }

  method ReadDate(env: Env, s: string) returns (d: Option<int>)
    ensures d == ParseDate(env, s)
  {
    d := None;
    if s != "" {
      var t := env.parse(DateOnly, s);
      if t.Some? { d := Some(t.value / 86_400_000_000_000); }
    }
  }

  method ReadEntry(env: Env, e: Entry) returns (input: Input)
    ensures input == InputOf(env, e)
  {
    var primary := ReadTimestamp(env, e.primaryDeadline);
    var abstracts := ReadTimestamp(env, e.abstractDeadline);
    var notification := ReadTimestamp(env, e.notificationDate);
    var cameraReady := ReadTimestamp(env, e.cameraReadyDate);
    var start := ReadDate(env, e.eventStartDate);
    var end := ReadDate(env, e.eventEndDate);
    var f := Fields(e.name, e.acronym, e.year, e.location, None, None, None, None, None, None, start,
                    Conference(primary, abstracts, notification, cameraReady, end, false));
    if e.websiteUrl != "" { f := f.(websiteUrl := Some(e.websiteUrl)); }
    if e.cfpUrl != "" { f := f.(cfpUrl := Some(e.cfpUrl)); }
    if e.dblpKey != "" { f := f.(dblpKey := Some(e.dblpKey)); }
    if e.notes != "" { f := f.(notes := Some(e.notes)); }
    if e.coreRank != "" { f := f.(coreRank := Some(e.coreRank)); }
    if e.h5Index > 0 { f := f.(h5Index := Some(e.h5Index)); }
    input := Input(f, e.tags, e.tracks);
  }

  method CheckEntry(e: Entry) returns (message: Option<string>)
    ensures message == Validate(e)
  {
    if e.name == "" { return Some("name is required"); }
    if e.acronym == "" { return Some("acronym is required"); }
    if e.year < 2000 || e.year > 2100 { return Some("year must be between 2000 and 2100"); }
    message := None;
  }

  predicate InOrder(a: Option<int>, b: Option<int>) {
    a.Some? && b.Some? ==> a.value <= b.value
  }

  // The CHECK constraints of the table.
  predicate ChecksOk(f: Fields) {
    && 2000 <= f.year <= 2100
    && InOrder(f.eventStartDate, f.dates.eventEndDate)
    && InOrder(f.dates.abstractDeadline, f.dates.primaryDeadline)
    && InOrder(f.dates.primaryDeadline, f.dates.notificationDate)
    && InOrder(f.dates.notificationDate, f.dates.cameraReadyDate)
    && (f.coreRank.Some? ==> f.coreRank.value in ["A*", "A", "B", "C", "Unranked"])
    && (f.h5Index.Some? ==> f.h5Index.value >= 0)
  }

  ghost predicate Accepted(env: Env, input: Input) {
    ChecksOk(input.fields) && Elements(input.tracks) <= env.codes
  }

  // strings.TrimSpace leaves nothing.
  predicate Blank(env: Env, s: string) {
    forall c <- s :: env.space(c)
  }

  /** validateInput of the conference form: the field of the first violation. */
  function ValidateInput(env: Env, f: Fields): Option<string> {
    if f.year < 2000 || f.year > 2100 then Some("year")
    else if Blank(env, f.name) then Some("name")
    else if Blank(env, f.acronym) then Some("acronym")
    else if Blank(env, f.location) then Some("location")
    else if !InOrder(f.dates.abstractDeadline, f.dates.primaryDeadline) then Some("abstract_deadline")
    else if !InOrder(f.dates.primaryDeadline, f.dates.notificationDate) then Some("primary_deadline")
    else if !InOrder(f.dates.notificationDate, f.dates.cameraReadyDate) then Some("notification_date")
    else if !InOrder(f.eventStartDate, f.dates.eventEndDate) then Some("event_start_date")
    else if f.h5Index.Some? && f.h5Index.value < 0 then Some("h5_index")
    else None
  }

  method CheckInput(env: Env, f: Fields) returns (field: Option<string>)
    ensures field == ValidateInput(env, f)
  {
    var d := f.dates;
    if f.year < 2000 || f.year > 2100 { return Some("year"); }
    if Blank(env, f.name) { return Some("name"); }
    if Blank(env, f.acronym) { return Some("acronym"); }
    if Blank(env, f.location) { return Some("location"); }
    if d.abstractDeadline.Some? && d.primaryDeadline.Some? {
      if d.abstractDeadline.value > d.primaryDeadline.value { return Some("abstract_deadline"); }
    }
    if d.primaryDeadline.Some? && d.notificationDate.Some? {
      if d.primaryDeadline.value > d.notificationDate.value { return Some("primary_deadline"); }
    }
    if d.notificationDate.Some? && d.cameraReadyDate.Some? {
      if d.notificationDate.value > d.cameraReadyDate.value { return Some("notification_date"); }
    }
    if f.eventStartDate.Some? && d.eventEndDate.Some? {
      if f.eventStartDate.value > d.eventEndDate.value { return Some("event_start_date"); }
    }
    if f.h5Index.Some? && f.h5Index.value < 0 { return Some("h5_index"); }
    field := None;
  }

  /** The form lets through exactly what the table takes, but for blank texts, which the table does not mind,
      and unknown ranks, which the form does not look at. */
  lemma FormAndTable(env: Env, f: Fields)
    ensures
      var named :=
        && (exists i :: 0 <= i < |f.name| && !env.space(f.name[i]))
        && (exists i :: 0 <= i < |f.acronym| && !env.space(f.acronym[i]))
        && (exists i :: 0 <= i < |f.location| && !env.space(f.location[i]));
      var ranked := f.coreRank.Some? ==>
        var rank := f.coreRank.value;
        rank == "A*" || rank == "A" || rank == "B" || rank == "C" || rank == "Unranked";
      ValidateInput(env, f).None? && ranked <==> ChecksOk(f) && named
  {}

  function KeyOf(env: Env, f: Fields): CatKey {
    CatKey(env.fold(f.acronym), f.year)
  }

  // uq_conferences_acronym_year: acronyms are compared by their lower case, in the same year.
  lemma SameKey(env: Env, a: Fields, b: Fields)
    ensures KeyOf(env, a) == KeyOf(env, b) <==> env.fold(a.acronym) == env.fold(b.acronym) && a.year == b.year
  {}

  ghost function StoredOf(env: Env, input: Input): Stored {
    Stored(input.fields, Slugs(env.lower, input.tags), Elements(input.tracks))
  }

  /** An entry of the document, and whether the database fails during its transaction. */
  datatype Attempt = Attempt(entry: Entry, down: bool)

  datatype Result = Wrote(key: CatKey, stored: Stored) | Rejected(acronym: string, reason: Reason)

  /** What becomes of an entry: it is written under its key, or refused for a reason. */
  ghost function ResultOf(env: Env, a: Attempt): Result {
    var input := InputOf(env, a.entry);
    if Validate(a.entry).Some? then Rejected(a.entry.acronym, Invalid(Validate(a.entry).value))
    else if a.down || !Accepted(env, input) then Rejected(a.entry.acronym, Database)
    else Wrote(KeyOf(env, input.fields), StoredOf(env, input))
  }

  ghost function Results(env: Env, doc: seq<Attempt>): (rs: seq<Result>)
    ensures |rs| == |doc|
  {
    if doc == [] then [] else Results(env, doc[..|doc| - 1]) + [ResultOf(env, doc[|doc| - 1])]
  }

  lemma {:induction false} ResultAt(env: Env, doc: seq<Attempt>, i: nat)
    requires i < |doc|
    ensures Results(env, doc)[i] == ResultOf(env, doc[i])
  {
    if i < |doc| - 1 { ResultAt(env, doc[..|doc| - 1], i); }
  }

  // ---------------------------------------------------------------- a run over the first n results

  function Imported(cat: map<CatKey, Stored>, rs: seq<Result>, n: nat): map<CatKey, Stored>
    requires n <= |rs|
  {
    if n == 0 then cat
    else
      var before := Imported(cat, rs, n - 1);
      match rs[n - 1]
      case Wrote(key, stored) => before[key := stored]
      case Rejected(_, _) => before
  }

  /** What the import reports about an entry. */
  datatype Effect = Created | Updated | Refused(acronym: string, reason: Reason)

  function EffectOf(before: map<CatKey, Stored>, r: Result): Effect {
    match r
    case Wrote(key, _) => if key in before then Updated else Created
    case Rejected(acronym, reason) => Refused(acronym, reason)
  }

  function Effects(cat: map<CatKey, Stored>, rs: seq<Result>, n: nat): (es: seq<Effect>)
    requires n <= |rs|
    ensures |es| == n
  {
    if n == 0 then [] else Effects(cat, rs, n - 1) + [EffectOf(Imported(cat, rs, n - 1), rs[n - 1])]
  }

  predicate EffectIs(cat: map<CatKey, Stored>, rs: seq<Result>, es: seq<Effect>, i: nat)
    requires i < |rs| == |es|
  {
    es[i] == EffectOf(Imported(cat, rs, i), rs[i])
  }

  predicate EffectsAre(cat: map<CatKey, Stored>, rs: seq<Result>, es: seq<Effect>) {
    |es| == |rs| && forall i: nat | i < |rs| :: EffectIs(cat, rs, es, i)
  }

  lemma {:induction false} EffectAt(cat: map<CatKey, Stored>, rs: seq<Result>, n: nat, i: nat)
    requires i < n <= |rs|
    ensures Effects(cat, rs, n)[i] == EffectOf(Imported(cat, rs, i), rs[i])
  {
    if i < n - 1 { EffectAt(cat, rs, n - 1, i); }
  }

  lemma EffectsEach(cat: map<CatKey, Stored>, rs: seq<Result>)
    ensures EffectsAre(cat, rs, Effects(cat, rs, |rs|))
  {
    forall i: nat | i < |rs| ensures EffectIs(cat, rs, Effects(cat, rs, |rs|), i) { EffectAt(cat, rs, |rs|, i); }
  }

  datatype Totals = Totals(created: nat, updated: nat, skipped: nat, errs: seq<Problem>)

  /** The counters and the error list after n entries, none of them fatal. */
  function Tally(es: seq<Effect>, n: nat): Totals
    requires n <= |es|
  {
    if n == 0 then Totals(0, 0, 0, [])
    else
      var t := Tally(es, n - 1);
      match es[n - 1]
      case Created => Totals(t.created + 1, t.updated, t.skipped, t.errs)
      case Updated => Totals(t.created, t.updated + 1, t.skipped, t.errs)
      case Refused(acronym, reason) =>
        Totals(t.created, t.updated, t.skipped + 1, t.errs + [Problem(n, acronym, reason)])
  }

  // The counters after one more entry.
  function Noted(seen: Totals, n: nat, acronym: string, created: bool, reason: Option<Reason>): Totals {
    if reason.Some? then
      seen.(skipped := seen.skipped + 1, errs := seen.errs + [Problem(n, acronym, reason.value)])
    else if created then seen.(created := seen.created + 1)
    else seen.(updated := seen.updated + 1)
  }

  lemma TallyStep(es: seq<Effect>, i: nat, acronym: string, created: bool, reason: Option<Reason>)
    requires i < |es|
    requires es[i] == if reason.Some? then Refused(acronym, reason.value) else if created then Created else Updated
    ensures Tally(es, i + 1) == Noted(Tally(es, i), i + 1, acronym, created, reason)
  {}

  predicate WritesTo(r: Result, k: CatKey) {
    r.Wrote? && r.key == k
  }

  /** The distinct keys of the good entries. */
  function Keys(rs: seq<Result>, n: nat): set<CatKey>
    requires n <= |rs|
  {
    if n == 0 then {}
    else if rs[n - 1].Wrote? then Keys(rs, n - 1) + {rs[n - 1].key}
    else Keys(rs, n - 1)
  }

  lemma {:induction false} KeysAre(rs: seq<Result>, n: nat, k: CatKey)
    requires n <= |rs|
    ensures k in Keys(rs, n) <==> exists i :: 0 <= i < n && WritesTo(rs[i], k)
  {
    if n > 0 { KeysAre(rs, n - 1, k); }
  }

  lemma {:induction false} ImportedKeys(cat: map<CatKey, Stored>, rs: seq<Result>, n: nat)
    requires n <= |rs|
    ensures Imported(cat, rs, n).Keys == cat.Keys + Keys(rs, n)
  {
    if n > 0 {
      ImportedKeys(cat, rs, n - 1);
    }
  }

  lemma NewElement<T>(a: set<T>, b: set<T>, x: T)
    ensures |a + {x} - b| == |a - b| + if x in a || x in b then 0 else 1
  {
    if x in a || x in b {
      assert a + {x} - b == a - b;
    } else {
      assert a + {x} - b == (a - b) + {x};
    }
  }

  lemma CountStep(cat: map<CatKey, Stored>, rs: seq<Result>, n: nat)
    requires 0 < n <= |rs|
    ensures |Keys(rs, n) - cat.Keys| == |Keys(rs, n - 1) - cat.Keys| + Added(cat, rs, n)
  {
    ImportedKeys(cat, rs, n - 1);
    if rs[n - 1].Wrote? {
      var x, a := rs[n - 1].key, Keys(rs, n - 1);
      assert x in Imported(cat, rs, n - 1).Keys <==> x in a || x in cat.Keys;
      assert Keys(rs, n) == a + {x};
      NewElement(a, cat.Keys, x);
    }
  }

  function Added(cat: map<CatKey, Stored>, rs: seq<Result>, n: nat): nat
    requires 0 < n <= |rs|
  {
    if rs[n - 1].Wrote? && rs[n - 1].key !in Imported(cat, rs, n - 1) then 1 else 0
  }

  lemma CreatedStep(cat: map<CatKey, Stored>, rs: seq<Result>, es: seq<Effect>, n: nat)
    requires 0 < n <= |rs| && EffectsAre(cat, rs, es)
    ensures Tally(es, n).created == Tally(es, n - 1).created + Added(cat, rs, n)
  {
    assert EffectIs(cat, rs, es, n - 1);
  }

  /** created counts the distinct new keys among the good entries. */
  lemma {:induction false} CreatedCountsNewKeys(cat: map<CatKey, Stored>, rs: seq<Result>, es: seq<Effect>, n: nat)
    requires n <= |rs| && EffectsAre(cat, rs, es)
    ensures Tally(es, n).created == |Keys(rs, n) - cat.Keys|
  {
    if n == 0 {
      assert Keys(rs, 0) - cat.Keys == {};
    } else {
      CreatedCountsNewKeys(cat, rs, es, n - 1);
      CountStep(cat, rs, n);
      CreatedStep(cat, rs, es, n);
    }
  }

  /** Every entry is counted once, and every failure reported once. */
  lemma {:induction false} TallyAddsUp(es: seq<Effect>, n: nat)
    requires n <= |es|
    ensures var t := Tally(es, n); t.created + t.updated + t.skipped == n && t.skipped == |t.errs|
  {
    if n > 0 { TallyAddsUp(es, n - 1); }
  }

  /** A problem is reported for exactly the entries that fail. */
  lemma {:induction false} ProblemsAre(es: seq<Effect>, n: nat, i: nat)
    requires i < n <= |es|
    ensures es[i].Refused? <==> exists p <- Tally(es, n).errs :: p.entry == i + 1
    ensures forall p <- Tally(es, n).errs :: 1 <= p.entry <= n
  {
    if n > 1 { ProblemsAre(es, n - 1, if i < n - 1 then i else 0); }
  }

  /** Of several entries for one conference the last good one wins. */
  lemma {:induction false} LastWriterWins(cat: map<CatKey, Stored>, rs: seq<Result>, n: nat, i: nat)
    requires i < n <= |rs| && rs[i].Wrote?
    requires forall j :: i < j < n ==> !WritesTo(rs[j], rs[i].key)
    ensures rs[i].key in Imported(cat, rs, n) && Imported(cat, rs, n)[rs[i].key] == rs[i].stored
  {
    if i < n - 1 {
      LastWriterWins(cat, rs, n - 1, i);
      assert !WritesTo(rs[n - 1], rs[i].key);
    }
  }

  /** and conferences without a good entry stay as they were. */
  lemma {:induction false} OthersUntouched(cat: map<CatKey, Stored>, rs: seq<Result>, n: nat, k: CatKey)
    requires n <= |rs| && k !in Keys(rs, n)
    ensures k in Imported(cat, rs, n) <==> k in cat
    ensures k in cat ==> Imported(cat, rs, n)[k] == cat[k]
  {
    if n > 0 {
      OthersUntouched(cat, rs, n - 1, k);
    }
  }

  // The last write to a key.
  lemma {:induction false} LastFor(rs: seq<Result>, n: nat, k: CatKey) returns (i: nat)
    requires n <= |rs| && k in Keys(rs, n)
    ensures i < n && WritesTo(rs[i], k) && forall j :: i < j < n ==> !WritesTo(rs[j], k)
  {
    if WritesTo(rs[n - 1], k) {
      i := n - 1;
    } else {
      i := LastFor(rs, n - 1, k);
    }
  }

  /** Writing the same document twice is writing it once. */
  lemma ImportedTwice(cat: map<CatKey, Stored>, rs: seq<Result>, n: nat)
    requires n <= |rs|
    ensures Imported(Imported(cat, rs, n), rs, n) == Imported(cat, rs, n)
  {
    var once := Imported(cat, rs, n);
    var twice := Imported(once, rs, n);
    ImportedKeys(cat, rs, n);
    ImportedKeys(once, rs, n);
    forall k <- once ensures twice[k] == once[k] {
      if k in Keys(rs, n) {
        var i := LastFor(rs, n, k);
        LastWriterWins(cat, rs, n, i);
        LastWriterWins(once, rs, n, i);
      } else {
        OthersUntouched(once, rs, n, k);
      }
    }
  }

  // ---------------------------------------------------------------- the same document again

  predicate AllWritten(rs: seq<Result>) {
    forall i :: 0 <= i < |rs| ==> rs[i].Wrote?
  }

  ghost predicate SameEntries(a: seq<Attempt>, b: seq<Attempt>) {
    |a| == |b| && forall i :: 0 <= i < |a| ==> a[i].entry == b[i].entry
  }

  lemma SameResult(env: Env, a: Attempt, b: Attempt)
    requires a.entry == b.entry && !b.down && ResultOf(env, a).Wrote?
    ensures ResultOf(env, b) == ResultOf(env, a)
  {}

  lemma SameResults(env: Env, doc: seq<Attempt>, again: seq<Attempt>)
    requires AllWritten(Results(env, doc)) && SameEntries(doc, again) && forall i :: 0 <= i < |again| ==> !again[i].down
    ensures Results(env, again) == Results(env, doc)
  {
    forall i | 0 <= i < |doc| ensures Results(env, again)[i] == Results(env, doc)[i] {
      ResultAt(env, doc, i);
      ResultAt(env, again, i);
      SameResult(env, doc[i], again[i]);
    }
  }

  /** Importing a fully successful document again, the database permitting, only counts updates and leaves
      every field as it is. */
  lemma {:induction false} Reimport(env: Env, cat: map<CatKey, Stored>, doc: seq<Attempt>, again: seq<Attempt>)
    requires AllWritten(Results(env, doc)) && SameEntries(doc, again) && forall i :: 0 <= i < |again| ==> !again[i].down
    ensures var n, rs, once := |doc|, Results(env, again), Imported(cat, Results(env, doc), |doc|);
      Tally(Effects(once, rs, n), n) == Totals(0, n, 0, []) && Imported(once, rs, n) == once
  {
    var rs := Results(env, doc);
    SameResults(env, doc, again);
    ImportedTwice(cat, rs, |doc|);
    SecondTally(cat, rs);
  }

  lemma SecondTally(cat: map<CatKey, Stored>, rs: seq<Result>)
    requires AllWritten(rs)
    ensures Tally(Effects(Imported(cat, rs, |rs|), rs, |rs|), |rs|) == Totals(0, |rs|, 0, [])
  {
    var n, once := |rs|, Imported(cat, rs, |rs|);
    var es := Effects(once, rs, n);
    ImportedKeys(cat, rs, n);
    EffectsEach(once, rs);
    CreatedCountsNewKeys(once, rs, es, n);
    assert Keys(rs, n) - once.Keys == {};
    TallyAddsUp(es, n);
    forall i | 0 <= i < n ensures !es[i].Refused? { EffectAt(once, rs, n, i); }
    NoProblems(es, n);
  }

  lemma {:induction false} NoProblems(es: seq<Effect>, n: nat)
    requires n <= |es|
    ensures Tally(es, n).errs == [] <==> forall i :: 0 <= i < n ==> !es[i].Refused?
  {
    if n > 0 { NoProblems(es, n - 1); }
  }

  // ---------------------------------------------------------------- how far an import gets

  /** How many entries are attempted, the first i having been let through. */
  function Attempted(es: seq<Effect>, strict: bool, i: nat): (n: nat)
    requires i <= |es|
    ensures i <= n <= |es|
    decreases |es| - i
  {
    if i == |es| then i
    else if strict && es[i].Refused? then i + 1
    else Attempted(es, strict, i + 1)
  }

  predicate Aborted(es: seq<Effect>, strict: bool, n: nat) {
    strict && 0 < n <= |es| && es[n - 1].Refused?
  }

  /** What the caller sees after n entries: the one that ends the import is reported, not counted as skipped. */
  function Shown(es: seq<Effect>, strict: bool, n: nat): Totals
    requires n <= |es|
  {
    var t := Tally(es, n);
    if Aborted(es, strict, n) then Totals(t.created, t.updated, Tally(es, n - 1).skipped, t.errs) else t
  }

  datatype Conclusion = Conclusion(attempted: nat, seen: Totals)

  function Concluded(es: seq<Effect>, strict: bool): Conclusion {
    Conclusion(Attempted(es, strict, 0), Shown(es, strict, Attempted(es, strict, 0)))
  }

  /** All entries are attempted, or in strict mode those up to the first that fails. */
  lemma {:induction false} AttemptedIs(es: seq<Effect>, strict: bool, i: nat)
    requires i <= |es|
    ensures var n := Attempted(es, strict, i);
      && i <= n <= |es|
      && (strict ==> forall j :: i <= j < n - 1 ==> !es[j].Refused?)
      && (n < |es| ==> i < n && Aborted(es, strict, n))
    decreases |es| - i
  {
    if i < |es| && !(strict && es[i].Refused?) { AttemptedIs(es, strict, i + 1); }
  }

  lemma {:induction false} LetThrough(es: seq<Effect>, strict: bool, i: nat)
    requires i <= |es| && (strict ==> forall j :: 0 <= j < i ==> !es[j].Refused?)
    ensures Attempted(es, strict, 0) == Attempted(es, strict, i)
  {
    if i > 0 { LetThrough(es, strict, i - 1); }
  }

  lemma StoppedAt(es: seq<Effect>, i: nat, seen: Totals)
    requires i < |es| && Tally(es, i).errs == [] && es[i].Refused?
    requires Tally(es, i + 1) == seen.(skipped := seen.skipped + 1)
    ensures Concluded(es, true) == Conclusion(i + 1, seen)
  {
    NoProblems(es, i);
    LetThrough(es, true, i);
  }

  lemma Finished(es: seq<Effect>, strict: bool, seen: Totals)
    requires (strict ==> seen.errs == []) && Tally(es, |es|) == seen
    ensures Concluded(es, strict) == Conclusion(|es|, seen)
  {
    NoProblems(es, |es|);
    LetThrough(es, strict, |es|);
  }

  /** created, updated and skipped add up to the entries attempted, the one that ends the import aside. */
  lemma ShownAddsUp(es: seq<Effect>, strict: bool)
    ensures var n := Attempted(es, strict, 0);
      && n <= |es|
      && var seen := Shown(es, strict, n);
      && seen.created + seen.updated + seen.skipped + (if Aborted(es, strict, n) then 1 else 0) == n
      && |seen.errs| == seen.skipped + if Aborted(es, strict, n) then 1 else 0
  {
    AttemptedIs(es, strict, 0);
    TallyAddsUp(es, Attempted(es, strict, 0));
    if Aborted(es, strict, Attempted(es, strict, 0)) { TallyAddsUp(es, Attempted(es, strict, 0) - 1); }
  }

  lemma ImportCounts(cat: map<CatKey, Stored>, rs: seq<Result>, strict: bool, seen: Totals, n: nat)
    requires Concluded(Effects(cat, rs, |rs|), strict) == Conclusion(n, seen)
    ensures n <= |rs| && seen.created == |Keys(rs, n) - cat.Keys|
    ensures seen.created + seen.updated + |seen.errs| == n && seen.skipped <= |seen.errs| <= seen.skipped + 1
  {
    var es := Effects(cat, rs, |rs|);
    EffectsEach(cat, rs);
    CreatedCountsNewKeys(cat, rs, es, n);
    ShownAddsUp(es, strict);
  }

  /** Strict mode is not all or nothing: when it stops at entry n, the n - 1 entries before it have been
      written and counted, so the counters are all zero and the catalogue is untouched exactly if the first
      entry of the document is refused. */
  lemma StrictLeftovers(env: Env, cat: map<CatKey, Stored>, doc: seq<Attempt>, rs: seq<Result>, es: seq<Effect>)
    requires doc != [] && rs == Results(env, doc) && es == Effects(cat, rs, |rs|)
    requires Aborted(es, true, Attempted(es, true, 0))
    ensures var n := Attempted(es, true, 0);
      var seen := Shown(es, true, n);
      && n > 0 && seen.created + seen.updated == n - 1 && seen.skipped == 0 && |seen.errs| == 1
      && Imported(cat, rs, n) == Imported(cat, rs, n - 1)
      && (seen.created == seen.updated == seen.skipped == 0 <==> RefusedEntry(env, doc[0]))
  {
    AttemptedIs(es, true, 0);
    LeftoversOf(es, Attempted(es, true, 0));
    EffectsEach(cat, rs);
    RefusedEffect(cat, rs, es, Attempted(es, true, 0));
    RefusedEffect(cat, rs, es, 1);
    ResultAt(env, doc, 0);
    RefusedIs(env, doc[0]);
  }

  lemma RefusedEffect(cat: map<CatKey, Stored>, rs: seq<Result>, es: seq<Effect>, n: nat)
    requires 0 < n <= |rs| && EffectsAre(cat, rs, es)
    ensures es[n - 1].Refused? <==> rs[n - 1].Rejected?
    ensures rs[n - 1].Rejected? ==> Imported(cat, rs, n) == Imported(cat, rs, n - 1)
  {
    assert EffectIs(cat, rs, es, n - 1);
  }

  lemma LeftoversOf(es: seq<Effect>, n: nat)
    requires n == Attempted(es, true, 0) && Aborted(es, true, n)
    ensures var seen := Shown(es, true, n);
      && seen.created + seen.updated == n - 1 && seen.skipped == 0 && |seen.errs| == 1
      && (seen.created == seen.updated == seen.skipped == 0 <==> es[0].Refused?)
  {
    AttemptedIs(es, true, 0);
    TallyAddsUp(es, n - 1);
    NoProblems(es, n - 1);
  }

  /** What a caller can check of an entry: a required field is missing or out of range, a constraint of the
      tables is broken, or the database fails. */
  ghost predicate RefusedEntry(env: Env, a: Attempt) {
    Validate(a.entry).Some? || a.down || !Accepted(env, InputOf(env, a.entry))
  }

  lemma RefusedIs(env: Env, a: Attempt)
    ensures ResultOf(env, a).Rejected? <==> RefusedEntry(env, a)
  {}

  const NONE := ""
  const PLACE := "Oslo"
  const FIRST := "ABC"
  const SECOND := "XYZ"

  // Two entries without dates, tags or tracks; the second has no name.
  function Plain(name: string, acronym: string): Attempt {
    var entry := Entry(name, acronym, 2025, PLACE, NONE, NONE, NONE, NONE, NONE, NONE, NONE, NONE, NONE, 0, NONE, NONE,
                       [], []);
    Attempt(entry, false)
  }

  lemma PlainIsWritten(env: Env, name: string, acronym: string)
    requires name != "" && acronym != ""
    ensures ResultOf(env, Plain(name, acronym)).Wrote?
  {
    assert Elements(InputOf(env, Plain(name, acronym).entry).tracks) == {};
  }

  lemma NamelessIsRefused(env: Env, acronym: string)
    ensures ResultOf(env, Plain(NONE, acronym)) == Rejected(acronym, Invalid(NAME_REQUIRED))
  {}

  /** In strict mode this document fails and leaves its first entry in the catalogue, counted as created. */
  lemma StrictKeepsTheFirst(env: Env)
    ensures var doc := [Plain(FIRST, FIRST), Plain(NONE, SECOND)];
      var rs := Results(env, doc);
      && rs[0].Wrote? && Imported(map[], rs, 2) == map[rs[0].key := rs[0].stored]
      && Concluded(Effects(map[], rs, 2), true)
         == Conclusion(2, Totals(1, 0, 0, [Problem(2, SECOND, Invalid(NAME_REQUIRED))]))
  {
    var doc := [Plain(FIRST, FIRST), Plain(NONE, SECOND)];
    ResultAt(env, doc, 0);
    ResultAt(env, doc, 1);
    PlainIsWritten(env, FIRST, FIRST);
    NamelessIsRefused(env, SECOND);
    WrittenThenRefused(Results(env, doc), SECOND, Invalid(NAME_REQUIRED));
  }

  lemma WrittenThenRefused(rs: seq<Result>, acronym: string, reason: Reason)
    requires |rs| == 2 && rs[0].Wrote? && rs[1] == Rejected(acronym, reason)
    ensures Imported(map[], rs, 2) == map[rs[0].key := rs[0].stored]
    ensures Concluded(Effects(map[], rs, 2), true) == Conclusion(2, Totals(1, 0, 0, [Problem(2, acronym, reason)]))
  {
    var es := Effects(map[], rs, 2);
    assert Imported(map[], rs, 1) == map[rs[0].key := rs[0].stored];
    EffectAt(map[], rs, 2, 0);
    EffectAt(map[], rs, 2, 1);
    assert Tally(es, 1) == Totals(1, 0, 0, []);
    assert Attempted(es, true, 1) == 2;
  }
}
