/** A reference reader for the encoder's output: unfold, split at line breaks, split every line at its
    first colon, follow the BEGIN and END lines, and unescape the text values. */
module ICalReader {
  import opened DispatchLog
  import opened SendTime
  import opened Civil
  import opened ICalText
  import opened ICal

  datatype Prop =
    | Opens | Closes | Producer
    | Id | Title | Starts | StartsOn | Ends | EndsOn | Details | Place | Link
    | Other

  function PropOf(name: string): Prop {
    if name == BEGIN then Opens
    else if name == END then Closes
    else if name == PRODID then Producer
    else if name == UID then Id
    else if name == SUMMARY then Title
    else if name == DTSTART then Starts
    else if name == DTSTART_DATE then StartsOn
    else if name == DTEND then Ends
    else if name == DTEND_DATE then EndsOn
    else if name == DESCRIPTION then Details
    else if name == LOCATION then Place
    else if name == URL then Link
    else Other
  }

  // ---------------------------------------------------------------- dates and times

  predicate IsDigit(c: char) {
    '0' <= c <= '9'
  }

  predicate AllDigits(s: string) {
    forall c <- s :: IsDigit(c)
  }

  function DigitValue(c: char): nat
    requires IsDigit(c)
  {
    c as int - '0' as int
  }

  function Value(s: string): nat
    requires AllDigits(s)
  {
    if s == "" then 0 else Value(s[..|s| - 1]) * 10 + DigitValue(s[|s| - 1])
  }

  function ParseDate(s: string): Option<Instant> {
    if |s| == 8 && AllDigits(s) then
      var d := Date(Value(s[0..4]), Value(s[4..6]), Value(s[6..8]));
      if ValidDate(d) then Some(DayNumber(d.year, d.month, d.day) * DAY) else None
    else None
  }

  function ParseClock(s: string): Option<int> {
    if |s| == 8 && s[0] == 'T' && s[7] == 'Z' && AllDigits(s[1..7]) then
      var h, m, sec := Value(s[1..3]), Value(s[3..5]), Value(s[5..7]);
      if h < 24 && m < 60 && sec < 60 then Some(h * HOUR + m * MINUTE + sec * SECOND) else None
    else None
  }

  function ParseDateTime(s: string): Option<Instant> {
    if |s| == 16 then
      match (ParseDate(s[..8]), ParseClock(s[8..]))
      case (Some(d), Some(c)) => Some(d + c)
      case _ => None
    else None
  }

  // ---------------------------------------------------------------- components

  datatype Reading =
    | Outside
    | InCalendar(prodId: Option<string>, events: seq<Event>)
    | InEvent(prodId: Option<string>, events: seq<Event>, props: map<Prop, string>)
    | Done(producer: string, events: seq<Event>)
    | Bad

  function TextOf(props: map<Prop, string>, p: Prop): string {
    if p in props then props[p] else ""
  }

  function EndOf(props: map<Prop, string>, p: Prop): Option<string> {
    if p in props then Some(props[p]) else None
  }

  // The values of the collected properties: one start, of either kind, and an end of the same kind or none.
  function Collect(props: map<Prop, string>): Option<Raw> {
    if Id !in props then None
    else if StartsOn in props && Starts !in props && Ends !in props then
      Some(Collected(props, props[StartsOn], EndOf(props, EndsOn), true))
    else if Starts in props && StartsOn !in props && EndsOn !in props then
      Some(Collected(props, props[Starts], EndOf(props, Ends), false))
    else None
  }

  function Collected(props: map<Prop, string>, start: string, end: Option<string>, allDay: bool): Raw
    requires Id in props
  {
    Raw(props[Id], TextOf(props, Title), TextOf(props, Details), TextOf(props, Place), TextOf(props, Link), start,
      end, allDay)
  }

  function ParseTime(allDay: bool, s: string): Option<Instant> {
    if allDay then ParseDate(s) else ParseDateTime(s)
  }

  // An absent end is the zero time.
  function ParseEnd(allDay: bool, s: Option<string>): Option<Instant> {
    if s.None? then Some(0) else ParseTime(allDay, s.value)
  }

  function Interpret(r: Raw): Option<Event> {
    match (ParseTime(r.allDay, r.start), ParseEnd(r.allDay, r.end))
    case (Some(a), Some(b)) =>
      Some(Event(r.uid, Unescape(r.summary), Unescape(r.description), Unescape(r.location), r.url, a, b, r.allDay))
    case _ => None
  }

  function Build(props: map<Prop, string>): Option<Event> {
    match Collect(props)
    case Some(r) => Interpret(r)
    case None => None
  }

  function StepCalendar(r: Reading, p: Prop, value: string): Reading
    requires r.InCalendar?
  {
    match p
    case Opens => if value == VEVENT then InEvent(r.prodId, r.events, map[]) else Bad
    case Closes => if value == VCALENDAR && r.prodId.Some? then Done(r.prodId.value, r.events) else Bad
    case Producer => if r.prodId.None? then InCalendar(Some(value), r.events) else Bad
    case Other => r
    case _ => Bad
  }

  function StepEvent(r: Reading, p: Prop, value: string): Reading
    requires r.InEvent?
  {
    match p
    case Closes =>
      if value == VEVENT && Build(r.props).Some? then InCalendar(r.prodId, r.events + [Build(r.props).value]) else Bad
    case Other => r
    case Opens => Bad
    case Producer => Bad
    case _ => if p in r.props then Bad else r.(props := r.props[p := value])
  }

  function Step(r: Reading, p: Prop, value: string): Reading {
    match r
    case Outside => if p.Opens? && value == VCALENDAR then InCalendar(None, []) else Bad
    case InCalendar(_, _) => StepCalendar(r, p, value)
    case InEvent(_, _, _) => StepEvent(r, p, value)
    case Done(_, _) => Bad
    case Bad => Bad
  }

  function ColonAt(s: string): (i: nat)
    ensures i <= |s| && (i < |s| ==> s[i] == ':') && forall j :: 0 <= j < i ==> s[j] != ':'
  {
    if s == "" || s[0] == ':' then 0 else 1 + ColonAt(s[1..])
  }

  function StepLine(r: Reading, line: string): Reading {
    var i := ColonAt(line);
    if i == |line| then Bad else Step(r, PropOf(line[..i]), line[i + 1..])
  }

  function RunLines(lines: seq<string>): Reading {
    if lines == [] then Outside else StepLine(RunLines(lines[..|lines| - 1]), lines[|lines| - 1])
  }

  /** Every line must end in a line break, so the piece after the last one is empty. */
  function Read(text: string): Option<Calendar> {
    var lines := LinesFrom("", Unfold(text));
    var n := |lines| - 1;
    if n < 0 || lines[n] != "" then None
    else
      match RunLines(lines[..n])
      case Done(prodId, events) => Some(Calendar(prodId, events))
      case _ => None
  }
}
