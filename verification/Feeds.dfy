/** The calendar feeds: which events a list of conferences turns into. */
module Feeds {
  import opened DispatchLog
  import opened SendTime
  import opened ICalText
  import opened ICal
  import opened ICalReader
  import opened ICalRoundTrip
  import opened ICalFaithful
  import R = Reminders

  const PROD_ID := "-//Confero//Conference Tracker//EN"
  const HOST := "@confero"

  // The columns the feed reads. id is the text of a uuid; dates are day numbers.
  datatype Listing = Listing(
    id: string,
    name: string,
    location: string,
    website: Option<string>,
    eventStartDate: Option<int>,
    conf: R.Conference)

  datatype Slot = Dates | Due(kind: R.Kind)

  function SlotName(s: Slot): string {
    match s
    case Dates => "dates"
    case Due(Submission) => "submission"
    case Due(Abstract) => "abstract"
    case Due(Notification) => "notification"
    case Due(CameraReady) => "camera-ready"
  }

  function Label(kind: R.Kind): string {
    match kind
    case Submission => "Submission Deadline"
    case Abstract => "Abstract Deadline"
    case Notification => "Author Notification"
    case CameraReady => "Camera-Ready Deadline"
  }

  function Uid(id: string, name: string): string {
    id + ":" + name + HOST
  }

  function Deref(s: Option<string>): string {
    if s.Some? then s.value else ""
  }

  function DeadlineEvent(id: string, name: string, kind: R.Kind, at: Instant): Event {
    Event(Uid(id, SlotName(Due(kind))), name + ": " + Label(kind), "", "", "", at, at + 15 * MINUTE, false)
  }

  // The end date of the output is exclusive.
  function DatesEvent(l: Listing, start: int, end: int): Event {
    Event(Uid(l.id, SlotName(Dates)), l.name, "", l.location, Deref(l.website), start * DAY, (end + 1) * DAY, true)
  }

  /** What a conference has to show for a slot, if anything. */
  function EventFor(l: Listing, s: Slot): Option<Event> {
    match s
    case Dates =>
      if l.eventStartDate.Some? && l.conf.eventEndDate.Some?
      then Some(DatesEvent(l, l.eventStartDate.value, l.conf.eventEndDate.value)) else None
    case Due(kind) =>
      match R.DeadlineOf(l.conf, kind)
      case Some(at) => Some(DeadlineEvent(l.id, l.name, kind, at))
      case None => None
  }

  function Shown(l: Listing, s: Slot): nat {
    if EventFor(l, s).Some? then 1 else 0
  }

  /** The order of the slots in a feed. */
  const SLOTS: seq<Slot> := [Dates, Due(R.Submission), Due(R.Abstract), Due(R.Notification), Due(R.CameraReady)]

  function Added(events: seq<Event>, o: Option<Event>): seq<Event> {
    if o.Some? then events + [o.value] else events
  }

  // The events a conference shows for these slots, in their order.
  function SlotEvents(l: Listing, slots: seq<Slot>): seq<Event> {
    if slots == [] then [] else Added(SlotEvents(l, slots[..|slots| - 1]), EventFor(l, slots[|slots| - 1]))
  }

  /** The events of a list: conference by conference in its order, and slot by slot for each. */
  function FeedEvents(ls: seq<Listing>): seq<Event> {
    if ls == [] then [] else FeedEvents(ls[..|ls| - 1]) + SlotEvents(ls[|ls| - 1], SLOTS)
  }

  /** Set deadlines and complete date pairs. */
  function EventCount(l: Listing): nat {
    Shown(l, Dates) + Shown(l, Due(R.Submission)) + Shown(l, Due(R.Abstract))
    + Shown(l, Due(R.Notification)) + Shown(l, Due(R.CameraReady))
  }

  function TotalCount(ls: seq<Listing>): nat {
    if ls == [] then 0 else TotalCount(ls[..|ls| - 1]) + EventCount(ls[|ls| - 1])
  }

  // ---------------------------------------------------------------- the events of a list

  ghost predicate DistinctUids(events: seq<Event>) {
    forall i, j :: 0 <= i < j < |events| ==> events[i].uid != events[j].uid
  }

  ghost predicate DistinctConfs(ls: seq<Listing>) {
    forall i, j :: 0 <= i < j < |ls| ==> ls[i].id != ls[j].id
  }

  /** The text of a uuid: 36 characters, hexadecimal digits and hyphens. */
  predicate IsUuid(id: string) {
    |id| == 36 && forall i :: 0 <= i < 36 ==> '0' <= id[i] <= '9' || 'a' <= id[i] <= 'f' || id[i] == '-'
  }

  predicate AllUuids(ls: seq<Listing>) {
    forall l <- ls :: IsUuid(l.id)
  }

  ghost predicate Origin(e: Event, ls: seq<Listing>) {
    exists l <- ls, s :: EventFor(l, s) == Some(e)
  }

  /** The events are those of the list: one for every slot of every conference that has it, none twice. */
  ghost predicate Exactly(events: seq<Event>, ls: seq<Listing>) {
    && (forall e <- events :: Origin(e, ls))
    && (forall l <- ls, s :: EventFor(l, s).Some? ==> EventFor(l, s).value in events)
    && DistinctUids(events)
    && |events| == TotalCount(ls)
  }

  // The same for the slots of one conference that have been gone through.
  ghost predicate FromSlots(events: seq<Event>, l: Listing, slots: set<Slot>) {
    && (forall e <- events :: exists s <- slots :: EventFor(l, s) == Some(e))
    && (forall s <- slots :: EventFor(l, s).Some? ==> EventFor(l, s).value in events)
    && DistinctUids(events)
  }

  lemma NamesDiffer(a: Slot, b: Slot)
    requires SlotName(a) == SlotName(b)
    ensures a == b
  {}

  /** A UID tells the conference and the slot. */
  lemma UidInjective(a: string, x: string, b: string, y: string)
    requires |a| == |b| && Uid(a, x) == Uid(b, y)
    ensures a == b && x == y
  {
    var u, n := Uid(a, x), |a|;
    assert u[..n] == a && Uid(b, y)[..n] == b;
    assert u[n + 1..|u| - |HOST|] == x && Uid(b, y)[n + 1..|u| - |HOST|] == y;
  }

  lemma EventUid(l: Listing, s: Slot)
    requires EventFor(l, s).Some?
    ensures EventFor(l, s).value.uid == Uid(l.id, SlotName(s))
  {}

  lemma SameOrigin(l: Listing, s: Slot, k: Listing, r: Slot)
    requires EventFor(l, s).Some? && EventFor(k, r).Some? && |l.id| == |k.id|
    requires EventFor(l, s).value.uid == EventFor(k, r).value.uid
    ensures l.id == k.id && s == r
  {
    EventUid(l, s);
    EventUid(k, r);
    UidInjective(l.id, SlotName(s), k.id, SlotName(r));
    NamesDiffer(s, r);
  }

  lemma AddSlot(events: seq<Event>, l: Listing, slots: set<Slot>, s: Slot)
    requires FromSlots(events, l, slots) && s !in slots
    ensures FromSlots(Added(events, EventFor(l, s)), l, slots + {s})
    ensures |Added(events, EventFor(l, s))| == |events| + Shown(l, s)
  {
    var o := EventFor(l, s);
    if o.Some? {
      forall e <- events ensures e.uid != o.value.uid {
        var r :| r in slots && EventFor(l, r) == Some(e);
        if e.uid == o.value.uid { SameOrigin(l, r, l, s); }
      }
    }
  }

  lemma SlotsStep(l: Listing, slots: seq<Slot>, s: Slot)
    ensures SlotEvents(l, slots + [s]) == Added(SlotEvents(l, slots), EventFor(l, s))
  {
    assert (slots + [s])[..|slots|] == slots;
  }

  ghost predicate DistinctSlots(slots: seq<Slot>) {
    forall i, j :: 0 <= i < j < |slots| ==> slots[i] != slots[j]
  }

  lemma {:induction false} SlotEventsFrom(l: Listing, slots: seq<Slot>)
    requires DistinctSlots(slots)
    ensures FromSlots(SlotEvents(l, slots), l, Elements(slots))
  {
    if slots != [] {
      var n := |slots| - 1;
      SlotEventsFrom(l, slots[..n]);
      assert slots == slots[..n] + [slots[n]];
      assert Elements(slots) == Elements(slots[..n]) + {slots[n]};
      AddSlot(SlotEvents(l, slots[..n]), l, Elements(slots[..n]), slots[n]);
    }
  }

  lemma SlotsCounted(l: Listing)
    ensures |SlotEvents(l, SLOTS)| == EventCount(l)
  {
    SlotsStep(l, [], Dates);
    SlotsStep(l, SLOTS[..1], Due(R.Submission));
    SlotsStep(l, SLOTS[..2], Due(R.Abstract));
    SlotsStep(l, SLOTS[..3], Due(R.Notification));
    SlotsStep(l, SLOTS[..4], Due(R.CameraReady));
    assert SLOTS[..1] == [] + [Dates] && SLOTS[..2] == SLOTS[..1] + [Due(R.Submission)];
    assert SLOTS[..3] == SLOTS[..2] + [Due(R.Abstract)] && SLOTS[..4] == SLOTS[..3] + [Due(R.Notification)];
    assert SLOTS == SLOTS[..4] + [Due(R.CameraReady)];
  }

  method EventsForConference(l: Listing) returns (events: seq<Event>)
    ensures events == SlotEvents(l, SLOTS)
  {
    events := [];
    if l.eventStartDate.Some? && l.conf.eventEndDate.Some? {
      var start, end := l.eventStartDate.value * DAY, (l.conf.eventEndDate.value + 1) * DAY;
      var url := if l.website.Some? then l.website.value else "";
      events := events + [Event(l.id + ":" + "dates" + "@confero", l.name, "", l.location, url, start, end, true)];
    }
    SlotsStep(l, [], Dates);
    ghost var slots := [] + [Dates];
    events, slots := AppendDeadline(events, l, slots, R.Submission, "Submission Deadline", "submission",
                                    l.conf.primaryDeadline);
    events, slots := AppendDeadline(events, l, slots, R.Abstract, "Abstract Deadline", "abstract",
                                    l.conf.abstractDeadline);
    events, slots := AppendDeadline(events, l, slots, R.Notification, "Author Notification", "notification",
                                    l.conf.notificationDate);
    events, slots := AppendDeadline(events, l, slots, R.CameraReady, "Camera-Ready Deadline", "camera-ready",
                                    l.conf.cameraReadyDate);
    assert slots == SLOTS;
  }

  method AppendDeadline(before: seq<Event>, l: Listing, ghost slots: seq<Slot>, ghost kind: R.Kind, caption: string,
                        slot: string, at: Option<Instant>)
    returns (events: seq<Event>, ghost more: seq<Slot>)
    requires before == SlotEvents(l, slots) && at == R.DeadlineOf(l.conf, kind)
    requires caption == Label(kind) && slot == SlotName(Due(kind))
    ensures more == slots + [Due(kind)] && events == SlotEvents(l, more)
  {
    events, more := before, slots + [Due(kind)];
    if at.Some? {
      var end := at.value + 900_000_000_000;
      var uid, summary := l.id + ":" + slot + "@confero", l.name + ": " + caption;
      events := events + [Event(uid, summary, "", "", "", at.value, end, false)];
    }
    SlotsStep(l, slots, Due(kind));
  }

  ghost predicate AllSlots(slots: set<Slot>) {
    forall s :: s in slots
  }

  lemma EverySlot()
    ensures AllSlots(Elements(SLOTS)) && DistinctSlots(SLOTS)
  {
    forall s ensures s in Elements(SLOTS) {
      assert SLOTS[0] == Dates;
      assert s.Dates? || s == Due(s.kind);
      if s.Due? {
        match s.kind {
          case Submission => assert SLOTS[1] == s;
          case Abstract => assert SLOTS[2] == s;
          case Notification => assert SLOTS[3] == s;
          case CameraReady => assert SLOTS[4] == s;
        }
      }
    }
  }

  lemma OriginsGrow(events: seq<Event>, ls: seq<Listing>, l: Listing, slots: set<Slot>, more: seq<Event>)
    requires Exactly(events, ls) && FromSlots(more, l, slots)
    ensures forall e <- events + more :: Origin(e, ls + [l])
  {
    forall e <- events + more ensures Origin(e, ls + [l]) {
      if e in events {
        var k, s :| k in ls && EventFor(k, s) == Some(e);
        assert k in ls + [l];
      } else {
        var s :| s in slots && EventFor(l, s) == Some(e);
        assert l in ls + [l];
      }
    }
  }

  lemma AddConference(events: seq<Event>, ls: seq<Listing>, l: Listing, slots: set<Slot>, more: seq<Event>)
    requires Exactly(events, ls) && AllUuids(ls + [l]) && l.id !in IdsOf(ls)
    requires AllSlots(slots) && FromSlots(more, l, slots) && |more| == EventCount(l)
    ensures Exactly(events + more, ls + [l])
  {
    OriginsGrow(events, ls, l, slots, more);
    forall e <- events, f <- more ensures e.uid != f.uid {
      DifferentConferences(e, f, ls, l, slots);
    }
    assert (ls + [l])[..|ls|] == ls;
  }

  ghost function IdsOf(ls: seq<Listing>): set<string> {
    set l <- ls :: l.id
  }

  lemma DifferentConferences(e: Event, f: Event, ls: seq<Listing>, l: Listing, slots: set<Slot>)
    requires Origin(e, ls) && AllUuids(ls + [l]) && l.id !in IdsOf(ls)
    requires exists s <- slots :: EventFor(l, s) == Some(f)
    ensures e.uid != f.uid
  {
    var k, r :| k in ls && EventFor(k, r) == Some(e);
    var s :| s in slots && EventFor(l, s) == Some(f);
    assert k in ls + [l] && l in ls + [l];
    assert k.id in IdsOf(ls);
    if e.uid == f.uid { SameOrigin(k, r, l, s); }
  }

  /** The feed of a list has one event for every set slot of its conferences, none twice, and no other. */
  lemma {:induction false} FeedExact(ls: seq<Listing>)
    requires AllUuids(ls) && DistinctConfs(ls)
    ensures Exactly(FeedEvents(ls), ls)
  {
    if ls != [] {
      var n := |ls| - 1;
      FeedExact(ls[..n]);
      assert ls == ls[..n] + [ls[n]];
      EverySlot();
      SlotEventsFrom(ls[n], SLOTS);
      SlotsCounted(ls[n]);
      AddConference(FeedEvents(ls[..n]), ls[..n], ls[n], Elements(SLOTS), SlotEvents(ls[n], SLOTS));
    }
  }

  /** Both feeds: the events of the listed conferences, in order. */
  method Feed(ls: seq<Listing>) returns (cal: Calendar, text: string)
    requires AllUuids(ls) && DistinctConfs(ls)
    ensures cal == Calendar(PROD_ID, FeedEvents(ls)) && Exactly(cal.events, ls)
    ensures text == Print(CalendarFields(cal))
  {
    var events: seq<Event> := [];
    for i := 0 to |ls|
      invariant events == FeedEvents(ls[..i])
    {
      var more := EventsForConference(ls[i]);
      assert ls[..i + 1][..i] == ls[..i];
      events := events + more;
    }
    assert ls[..|ls|] == ls;
    FeedExact(ls);
    cal := Calendar("-//Confero//Conference Tracker//EN", events);
    text := Encode(cal);
  }

  // ListConferences without parameters leaves the archived ones out; all is in the order of its answer.
  method BuildPublicFeed(all: seq<Listing>) returns (cal: Calendar, text: string)
    requires AllUuids(all) && DistinctConfs(all)
    ensures cal == Calendar(PROD_ID, FeedEvents(Current(all))) && Exactly(cal.events, Current(all))
    ensures text == Print(CalendarFields(cal))
  {
    CurrentOk(all);
    cal, text := Feed(Current(all));
  }

  function Current(all: seq<Listing>): seq<Listing> {
    if all == [] then []
    else
      var n := |all| - 1;
      Current(all[..n]) + if all[n].conf.archived then [] else [all[n]]
  }

  lemma {:induction false} CurrentOk(all: seq<Listing>)
    requires AllUuids(all) && DistinctConfs(all)
    ensures AllUuids(Current(all)) && DistinctConfs(Current(all))
    ensures forall l :: l in Current(all) <==> l in all && !l.conf.archived
  {
    if all != [] {
      var n := |all| - 1;
      CurrentOk(all[..n]);
      assert all == all[..n] + [all[n]];
      assert forall l <- Current(all[..n]) :: l.id != all[n].id;
    }
  }

  // ---------------------------------------------------------------- events make sense, and survive reading

  /** Every event ends after it starts, exactly if the event dates are in order. */
  lemma EndsAfterStart(l: Listing, s: Slot)
    requires EventFor(l, s).Some?
    ensures var e := EventFor(l, s).value;
      e.start < e.end <==> (s.Dates? ==> l.eventStartDate.value <= l.conf.eventEndDate.value)
  {}

  lemma FeedInOrder(events: seq<Event>, ls: seq<Listing>)
    requires Exactly(events, ls)
    requires forall l <- ls :: l.eventStartDate.Some? && l.conf.eventEndDate.Some? ==>
      l.eventStartDate.value <= l.conf.eventEndDate.value
    ensures forall e <- events :: e.start < e.end
  {
    forall e <- events ensures e.start < e.end {
      assert Origin(e, ls);
      var l, s :| l in ls && EventFor(l, s) == Some(e);
      EndsAfterStart(l, s);
    }
  }

  lemma UidClean(id: string, s: Slot)
    requires IsUuid(id)
    ensures NoCrlf(Uid(id, SlotName(s)))
  {
    assert '\n' !in SlotName(s);
    NoLfNoCrlf(Uid(id, SlotName(s)));
  }

  /** The website of a shown conference holds no line break, and the shown times have four-digit years. */
  ghost predicate Readable(l: Listing) {
    forall s :: EventFor(l, s).Some? ==> (s.Dates? ==> NoCrlf(Deref(l.website))) && EventFits(EventFor(l, s).value)
  }

  lemma FromReadable(l: Listing, s: Slot)
    requires IsUuid(l.id) && EventFor(l, s).Some?
    ensures var e := EventFor(l, s).value; NoCrlf(e.uid) && (NoCrlf(e.url) <==> (s.Dates? ==> NoCrlf(Deref(l.website))))
  {
    UidClean(l.id, s);
    EventUid(l, s);
  }

  /** A reader gets the feed back exactly if that holds of every conference in it, whatever names and
      locations contain. */
  lemma FeedReads(cal: Calendar, ls: seq<Listing>)
    requires AllUuids(ls) && cal.prodId == PROD_ID && Exactly(cal.events, ls)
    ensures Read(Print(CalendarFields(cal))) == Some(Calendar(PROD_ID, AllAtPrecision(cal.events)))
      <==> forall l <- ls :: Readable(l)
  {
    ProdIdClean();
    FeedClean(cal, ls);
    RoundTrip(cal);
  }

  lemma ProdIdClean()
    ensures NoCrlf(PROD_ID)
  {
    assert '\n' !in PROD_ID;
    NoLfNoCrlf(PROD_ID);
  }

  lemma FeedClean(cal: Calendar, ls: seq<Listing>)
    requires AllUuids(ls) && NoCrlf(cal.prodId) && Exactly(cal.events, ls)
    ensures Clean(cal) && Fits(cal) <==> forall l <- ls :: Readable(l)
  {
    forall l <- ls, s | EventFor(l, s).Some? ensures EventFor(l, s).value in cal.events {}
    if Clean(cal) && Fits(cal) {
      forall l <- ls, s | EventFor(l, s).Some?
        ensures (s.Dates? ==> NoCrlf(Deref(l.website))) && EventFits(EventFor(l, s).value)
      {
        FromReadable(l, s);
      }
    }
    if forall l <- ls :: Readable(l) {
      forall e <- cal.events ensures NoCrlf(e.uid) && NoCrlf(e.url) && EventFits(e) {
        assert Origin(e, ls);
        var l, s :| l in ls && EventFor(l, s) == Some(e);
        assert Readable(l);
        FromReadable(l, s);
      }
    }
  }
}
