/** The lines of an encoded calendar spelled out, as an independent account of what the encoder writes. */
module ICalOutput {
  import opened DispatchLog
  import opened ICalText
  import opened ICal

  function Content(f: Field): string {
    if f.folded then Fold(f.name + ":" + f.value) else f.name + ":" + f.value
  }

  function Contents(fs: seq<Field>): seq<string> {
    seq(|fs|, i requires 0 <= i < |fs| => Content(fs[i]))
  }

  // Every line ends with a line break.
  function Written(lines: seq<string>): string {
    if lines == [] then "" else lines[0] + "\r\n" + Written(lines[1..])
  }

  lemma {:induction false} PrintIsWritten(fs: seq<Field>)
    ensures Print(fs) == Written(Contents(fs))
  {
    if fs != [] {
      PrintIsWritten(fs[1..]);
      assert Texts(fs)[1..] == Texts(fs[1..]);
      assert Contents(fs)[1..] == Contents(fs[1..]);
    }
  }

  function HeaderLines(prodId: string): seq<string> {
    ["BEGIN:VCALENDAR", "VERSION:2.0", Fold("PRODID:" + prodId), "CALSCALE:GREGORIAN", "METHOD:PUBLISH"]
  }

  function HeadLines(r: Raw): seq<string> {
    ["BEGIN:VEVENT", Fold("UID:" + r.uid), Fold("SUMMARY:" + r.summary)]
  }

  function TimeLines(r: Raw): seq<string> {
    if r.allDay then
      ["DTSTART;VALUE=DATE:" + r.start] + if r.end.None? then [] else ["DTEND;VALUE=DATE:" + r.end.value]
    else
      ["DTSTART:" + r.start] + if r.end.None? then [] else ["DTEND:" + r.end.value]
  }

  function OptionalLine(prefix: string, value: string): seq<string> {
    if value == "" then [] else [Fold(prefix + value)]
  }

  function TailLines(r: Raw): seq<string> {
    OptionalLine("DESCRIPTION:", r.description) + OptionalLine("LOCATION:", r.location) + OptionalLine("URL:", r.url)
  }

  function EventLines(r: Raw): seq<string> {
    HeadLines(r) + TimeLines(r) + TailLines(r) + ["END:VEVENT"]
  }

  function EventsLines(events: seq<Event>): seq<string> {
    if events == [] then [] else EventsLines(events[..|events| - 1]) + EventLines(RawOf(events[|events| - 1]))
  }

  lemma PlainLine(fs: seq<Field>, name: string, value: string, line: string)
    requires line == name + ":" + value
    ensures Contents(fs + [Field(name, value, false)]) == Contents(fs) + [line]
  {}

  lemma FoldedLine(fs: seq<Field>, name: string, value: string, prefix: string)
    requires prefix == name + ":"
    ensures Contents(fs + [Field(name, value, true)]) == Contents(fs) + [Fold(prefix + value)]
  {}

  lemma HeadIs(fs: seq<Field>, r: Raw)
    ensures
      Contents(fs + [Field(BEGIN, VEVENT, false)] + [Field(UID, r.uid, true)] + [Field(SUMMARY, r.summary, true)])
      == Contents(fs) + HeadLines(r)
  {
    var begun := fs + [Field(BEGIN, VEVENT, false)];
    PlainLine(fs, BEGIN, VEVENT, "BEGIN:VEVENT");
    FoldedLine(begun, UID, r.uid, "UID:");
    FoldedLine(begun + [Field(UID, r.uid, true)], SUMMARY, r.summary, "SUMMARY:");
  }

  lemma TimesAre(fs: seq<Field>, r: Raw)
    ensures Contents(WithTimes(fs, r)) == Contents(fs) + TimeLines(r)
  {
    var start := Field(if r.allDay then DTSTART_DATE else DTSTART, r.start, false);
    PlainLine(fs, start.name, r.start, (if r.allDay then "DTSTART;VALUE=DATE:" else "DTSTART:") + r.start);
    if r.end.Some? {
      PlainLine(fs + [start], if r.allDay then DTEND_DATE else DTEND, r.end.value,
        (if r.allDay then "DTEND;VALUE=DATE:" else "DTEND:") + r.end.value);
    }
  }

  lemma OptionalIs(fs: seq<Field>, name: string, value: string, prefix: string)
    requires prefix == name + ":"
    ensures Contents(WithOptional(fs, name, value)) == Contents(fs) + OptionalLine(prefix, value)
  {
    if value != "" { FoldedLine(fs, name, value, prefix); }
  }

  lemma TailIs(fs: seq<Field>, r: Raw)
    ensures Contents(WithTail(fs, r)) == Contents(fs) + TailLines(r)
  {
    var described := WithOptional(fs, DESCRIPTION, r.description);
    OptionalIs(fs, DESCRIPTION, r.description, "DESCRIPTION:");
    OptionalIs(described, LOCATION, r.location, "LOCATION:");
    OptionalIs(WithOptional(described, LOCATION, r.location), URL, r.url, "URL:");
  }

  // The lines of an event before its end.
  lemma BodyIs(fs: seq<Field>, r: Raw, head: seq<Field>)
    requires head == fs + [Field(BEGIN, VEVENT, false)] + [Field(UID, r.uid, true)] + [Field(SUMMARY, r.summary, true)]
    ensures Contents(WithTail(WithTimes(head, r), r)) == Contents(fs) + (HeadLines(r) + TimeLines(r) + TailLines(r))
  {
    HeadIs(fs, r);
    TimesAre(head, r);
    TailIs(WithTimes(head, r), r);
  }

  lemma EventIs(fs: seq<Field>, r: Raw)
    ensures Contents(WithEvent(fs, r)) == Contents(fs) + EventLines(r)
  {
    var head := fs + [Field(BEGIN, VEVENT, false)] + [Field(UID, r.uid, true)] + [Field(SUMMARY, r.summary, true)];
    BodyIs(fs, r, head);
    EventEnds(Contents(fs), WithTail(WithTimes(head, r), r), HeadLines(r) + TimeLines(r) + TailLines(r));
  }

  lemma EventEnds(before: seq<string>, body: seq<Field>, lines: seq<string>)
    requires Contents(body) == before + lines
    ensures Contents(body + [Field(END, VEVENT, false)]) == before + (lines + ["END:VEVENT"])
  {
    PlainLine(body, END, VEVENT, "END:VEVENT");
  }

  lemma {:induction false} EventsAre(fs: seq<Field>, events: seq<Event>)
    ensures Contents(WithEvents(fs, events)) == Contents(fs) + EventsLines(events)
  {
    if events != [] {
      var n := |events| - 1;
      EventsAre(fs, events[..n]);
      EventIs(WithEvents(fs, events[..n]), RawOf(events[n]));
    }
  }

  lemma HeaderIs(prodId: string)
    ensures Contents(Header(prodId)) == HeaderLines(prodId)
  {
    var f0: seq<Field> := [];
    var f1 := f0 + [Field(BEGIN, VCALENDAR, false)];
    var f2 := f1 + [Field(VERSION, TWO, false)];
    var f3 := f2 + [Field(PRODID, prodId, true)];
    PlainLine(f0, BEGIN, VCALENDAR, "BEGIN:VCALENDAR");
    PlainLine(f1, VERSION, TWO, "VERSION:2.0");
    FoldedLine(f2, PRODID, prodId, "PRODID:");
    PlainLine(f3, CALSCALE, GREGORIAN, "CALSCALE:GREGORIAN");
    PlainLine(f3 + [Field(CALSCALE, GREGORIAN, false)], METHOD, PUBLISH, "METHOD:PUBLISH");
  }

  /** What Encode writes, line by line; each is followed by a line break. */
  lemma OutputReads(cal: Calendar, fields: seq<Field>)
    requires fields == CalendarFields(cal)
    ensures Contents(fields) == HeaderLines(cal.prodId) + EventsLines(cal.events) + ["END:VCALENDAR"]
    ensures Print(fields) == Written(Contents(fields))
  {
    OutputLines(cal.prodId, cal.events, Header(cal.prodId));
    PrintIsWritten(fields);
  }

  lemma OutputLines(prodId: string, events: seq<Event>, header: seq<Field>)
    requires header == Header(prodId)
    ensures Contents(WithEvents(header, events) + [Field(END, VCALENDAR, false)])
      == HeaderLines(prodId) + EventsLines(events) + ["END:VCALENDAR"]
  {
    HeaderIs(prodId);
    EventsAre(header, events);
    EndLine(WithEvents(header, events), HeaderLines(prodId) + EventsLines(events));
  }

  lemma EndLine(fs: seq<Field>, lines: seq<string>)
    requires Contents(fs) == lines
    ensures Contents(fs + [Field(END, VCALENDAR, false)]) == lines + ["END:VCALENDAR"]
  {
    PlainLine(fs, END, VCALENDAR, "END:VCALENDAR");
  }
}
