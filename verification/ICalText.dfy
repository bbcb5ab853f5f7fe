/** Text layer of the iCalendar encoder: escaping (section 3.3.11 of RFC 5545) and line folding
    (section 3.1), each with the reader that undoes it. Strings are sequences of code points. */
module ICalText {
  import opened Strings

  const CRLF := "\r\n"
  const FOLD_LIMIT := 75

  // ---------------------------------------------------------------- escaping

  function ReplaceAll(s: string, c: char, sub: string): string {
    if s == "" then "" else (if s[0] == c then sub else [s[0]]) + ReplaceAll(s[1..], c, sub)
  }

  function EscapeText(s: string): string {
    var s1 := ReplaceAll(s, '\\', "\\\\");
    var s2 := ReplaceAll(s1, ';', "\\;");
    var s3 := ReplaceAll(s2, ',', "\\,");
    ReplaceAll(s3, '\n', "\\n")
  }

  function EscapeChar(c: char): string {
    if c == '\\' then "\\\\"
    else if c == ';' then "\\;"
    else if c == ',' then "\\,"
    else if c == '\n' then "\\n"
    else [c]
  }

  // The one-pass escape the four passes amount to.
  function EscapeOnce(s: string): string {
    if s == "" then "" else EscapeChar(s[0]) + EscapeOnce(s[1..])
  }

  function Unescape(s: string): string {
    if s == "" then ""
    else if s[0] == '\\' && |s| > 1 then [if s[1] == 'n' || s[1] == 'N' then '\n' else s[1]] + Unescape(s[2..])
    else [s[0]] + Unescape(s[1..])
  }

  lemma {:induction false} ReplaceAppend(a: string, b: string, c: char, sub: string)
    ensures ReplaceAll(a + b, c, sub) == ReplaceAll(a, c, sub) + ReplaceAll(b, c, sub)
  {
    if a == "" {
      assert a + b == b;
    } else {
      ReplaceAppend(a[1..], b, c, sub);
      assert (a + b)[0] == a[0] && (a + b)[1..] == a[1..] + b;
      Regroup(if a[0] == c then sub else [a[0]], ReplaceAll(a[1..], c, sub), ReplaceAll(b, c, sub));
    }
  }

  lemma ReplaceShort(c: char, d: char, sub: string)
    ensures ReplaceAll([d], c, sub) == if d == c then sub else [d]
  {
    assert [d][1..] == "";
  }

  lemma ReplacePair(c: char, d: char, e: char, sub: string)
    requires d != c && e != c
    ensures ReplaceAll([d, e], c, sub) == [d, e]
  {
    assert [d, e][1..] == [e];
    ReplaceShort(c, e, sub);
  }

  lemma EscapeAppend(a: string, b: string)
    ensures EscapeText(a + b) == EscapeText(a) + EscapeText(b)
  {
    ReplaceAppend(a, b, '\\', "\\\\");
    var a1, b1 := ReplaceAll(a, '\\', "\\\\"), ReplaceAll(b, '\\', "\\\\");
    ReplaceAppend(a1, b1, ';', "\\;");
    var a2, b2 := ReplaceAll(a1, ';', "\\;"), ReplaceAll(b1, ';', "\\;");
    ReplaceAppend(a2, b2, ',', "\\,");
    var a3, b3 := ReplaceAll(a2, ',', "\\,"), ReplaceAll(b2, ',', "\\,");
    ReplaceAppend(a3, b3, '\n', "\\n");
  }

  lemma EscapeOne(c: char)
    ensures EscapeText([c]) == EscapeChar(c)
  {
    ReplaceShort('\\', c, "\\\\");
    if c == '\\' {
      ReplacePair(';', '\\', '\\', "\\;");
      ReplacePair(',', '\\', '\\', "\\,");
      ReplacePair('\n', '\\', '\\', "\\n");
    } else {
      ReplaceShort(';', c, "\\;");
      if c == ';' {
        ReplacePair(',', '\\', ';', "\\,");
        ReplacePair('\n', '\\', ';', "\\n");
      } else {
        ReplaceShort(',', c, "\\,");
        if c == ',' {
          ReplacePair('\n', '\\', ',', "\\n");
        } else {
          ReplaceShort('\n', c, "\\n");
        }
      }
    }
  }

  /** The four passes are one pass: no pass touches what an earlier one produced. */
  lemma {:induction false} EscapeIsOnce(s: string)
    ensures EscapeText(s) == EscapeOnce(s)
  {
    if s != "" {
      EscapeAppend([s[0]], s[1..]);
      EscapeOne(s[0]);
      EscapeIsOnce(s[1..]);
      assert s == [s[0]] + s[1..];
    }
  }

  lemma {:induction false} UnescapeOnce(s: string)
    ensures Unescape(EscapeOnce(s)) == s
  {
    if s != "" {
      UnescapeOnce(s[1..]);
      var rest := EscapeOnce(s[1..]);
      assert |EscapeChar(s[0])| == 2 ==> (EscapeChar(s[0]) + rest)[2..] == rest;
      assert |EscapeChar(s[0])| == 1 ==> (EscapeChar(s[0]) + rest)[1..] == rest;
    }
  }

  /** Reading an escaped text gives the text back, a backslash followed by n included. */
  lemma UnescapeEscape(s: string)
    ensures Unescape(EscapeText(s)) == s
  {
    EscapeIsOnce(s);
    UnescapeOnce(s);
  }

  lemma EscapeInjective(a: string, b: string)
    requires EscapeText(a) == EscapeText(b)
    ensures a == b
  {
    UnescapeEscape(a);
    UnescapeEscape(b);
  }

  lemma EscapeEmpty(s: string)
    ensures EscapeText(s) == "" <==> s == ""
  {
    UnescapeEscape(s);
  }

  lemma {:induction false} EscapedHasNoLf(s: string)
    ensures '\n' !in EscapeText(s)
  {
    EscapeIsOnce(s);
    if s != "" {
      EscapedHasNoLf(s[1..]);
      EscapeIsOnce(s[1..]);
    }
  }

  // ---------------------------------------------------------------- folding

  predicate CrlfAt(s: string, i: nat) {
    i + 1 < |s| && s[i] == '\r' && s[i + 1] == '\n'
  }

  predicate NoCrlf(s: string) {
    forall i :: 0 <= i < |s| ==> !CrlfAt(s, i)
  }

  // The continuation lines of a folded line, without their leading space.
  function Chunks(rest: string): (chunks: seq<string>)
    decreases |rest|
  {
    if rest == "" then []
    else
      var n := if |rest| < 74 then |rest| else 74;
      [rest[..n]] + Chunks(rest[n..])
  }

  function Continued(chunks: seq<string>): string {
    if chunks == [] then "" else CRLF + " " + chunks[0] + Continued(chunks[1..])
  }

  function Concat(chunks: seq<string>): string {
    if chunks == [] then "" else chunks[0] + Concat(chunks[1..])
  }

  lemma {:induction false} ConcatOneMore(chunks: seq<string>, last: string)
    ensures Concat(chunks + [last]) == Concat(chunks) + last
  {
    if chunks == [] {
      assert [] + [last] == [last] && [last][1..] == [];
    } else {
      ConcatOneMore(chunks[1..], last);
      assert (chunks + [last])[1..] == chunks[1..] + [last];
    }
  }

  function Fold(line: string): string {
    if |line| <= FOLD_LIMIT then line else line[..FOLD_LIMIT] + Continued(Chunks(line[FOLD_LIMIT..]))
  }

  method FoldProperty(name: string, value: string) returns (out: string)
    ensures out == Fold(name + ":" + value)
  {
    var line := name + ":" + value;
    if |line| <= 75 { return line; }
    var sb := line[..75];
    var runes := line[75..];
    while |runes| > 0
      invariant sb + Continued(Chunks(runes)) == Fold(line)
      decreases |runes|
    {
      var chunk := 74;
      if chunk > |runes| { chunk := |runes|; }
      assert Chunks(runes) == [runes[..chunk]] + Chunks(runes[chunk..]);
      assert Continued(Chunks(runes)) == CRLF + " " + runes[..chunk] + Continued(Chunks(runes[chunk..]));
      sb := sb + CRLF + " ";
      sb := sb + runes[..chunk];
      runes := runes[chunk..];
    }
    assert sb + "" == sb;
    out := sb;
  }

  /** The chunks lose nothing, none is empty, and each fits its line next to the continuation space. */
  lemma {:induction false} ChunksOk(rest: string)
    ensures Concat(Chunks(rest)) == rest
    ensures forall c <- Chunks(rest) :: 1 <= |c| <= 74
    decreases |rest|
  {
    if rest != "" {
      var n := if |rest| < 74 then |rest| else 74;
      ChunksOk(rest[n..]);
      assert rest == rest[..n] + rest[n..];
    }
  }

  lemma ContinuedStep(rest: string, n: nat)
    requires rest != "" && n == if |rest| < 74 then |rest| else 74
    ensures Continued(Chunks(rest)) == CRLF + " " + rest[..n] + Continued(Chunks(rest[n..]))
  {
    assert Chunks(rest)[1..] == Chunks(rest[n..]);
  }

  predicate FoldMark(s: string) {
    |s| >= 3 && CrlfAt(s, 0) && (s[2] == ' ' || s[2] == '\t')
  }

  /** A reader removes every line break that is followed by a space or tab. */
  function Unfold(s: string): string {
    if s == "" then ""
    else if FoldMark(s) then Unfold(s[3..])
    else [s[0]] + Unfold(s[1..])
  }

  // Text without line breaks passes through, whatever line break follows it.
  lemma {:induction false} UnfoldPlain(p: string, t: string)
    requires NoCrlf(p) && (t == "" || t[0] == '\r')
    ensures Unfold(p + t) == p + Unfold(t)
  {
    if p == "" {
      assert p + t == t;
    } else {
      assert NoCrlf(p[1..]) by {
        forall i | 0 <= i < |p[1..]| ensures !CrlfAt(p[1..], i) { assert !CrlfAt(p, i + 1); }
      }
      assert !CrlfAt(p, 0);
      UnfoldPlain(p[1..], t);
      assert (p + t)[1..] == p[1..] + t;
    }
  }

  lemma NoCrlfPart(s: string, a: nat, b: nat)
    requires NoCrlf(s) && a <= b <= |s|
    ensures NoCrlf(s[a..b])
  {
    forall i | 0 <= i < |s[a..b]| ensures !CrlfAt(s[a..b], i) { assert !CrlfAt(s, a + i); }
  }

  lemma Marked(a: string, b: string)
    ensures var s := CRLF + " " + a + b; FoldMark(s) && s[3..] == a + b && s[2..] == (" " + a) + b
  {}

  lemma {:induction false} UnfoldContinued(rest: string, t: string)
    requires NoCrlf(rest) && (t == "" || t[0] == '\r')
    ensures Unfold(Continued(Chunks(rest)) + t) == rest + Unfold(t)
    decreases |rest|
  {
    if rest == "" {
      assert Continued(Chunks(rest)) + t == t;
    } else {
      var n := if |rest| < 74 then |rest| else 74;
      NoCrlfPart(rest, 0, n);
      NoCrlfPart(rest, n, |rest|);
      assert rest[n..|rest|] == rest[n..];
      UnfoldContinued(rest[n..], t);
      UnfoldChunk(rest, n, t);
    }
  }

  lemma UnfoldChunk(rest: string, n: nat, t: string)
    requires rest != "" && n == (if |rest| < 74 then |rest| else 74) && NoCrlf(rest[0..n])
    requires t == "" || t[0] == '\r'
    requires Unfold(Continued(Chunks(rest[n..])) + t) == rest[n..] + Unfold(t)
    ensures Unfold(Continued(Chunks(rest)) + t) == rest + Unfold(t)
  {
    var more := Continued(Chunks(rest[n..]));
    ContinuedStep(rest, n);
    assert rest[0..n] == rest[..n];
    UnfoldMark(rest[..n], more + t);
    Regroup(CRLF + " " + rest[..n], more, t);
    Regroup(rest[..n], rest[n..], Unfold(t));
    assert rest == rest[..n] + rest[n..];
  }

  lemma UnfoldMark(a: string, more: string)
    requires NoCrlf(a) && (more == "" || more[0] == '\r')
    ensures Unfold(CRLF + " " + a + more) == a + Unfold(more)
  {
    Marked(a, more);
    UnfoldPlain(a, more);
  }

  lemma UnfoldJoined(a: string, rest: string, t: string)
    requires NoCrlf(a) && NoCrlf(rest) && (t == "" || t[0] == '\r')
    ensures Unfold(a + Continued(Chunks(rest)) + t) == a + rest + Unfold(t)
  {
    var more := Continued(Chunks(rest));
    UnfoldContinued(rest, t);
    ContinuedStarts(rest);
    UnfoldPlain(a, more + t);
    Regroup(a, more, t);
    Regroup(a, rest, Unfold(t));
  }

  lemma ContinuedStarts(rest: string)
    ensures var more := Continued(Chunks(rest)); more == "" || more[0] == '\r'
  {}

  /** Unfolding gives the folded line back. */
  lemma UnfoldFold(line: string, t: string)
    requires NoCrlf(line) && (t == "" || t[0] == '\r')
    ensures Unfold(Fold(line) + t) == line + Unfold(t)
  {
    if |line| <= FOLD_LIMIT {
      UnfoldPlain(line, t);
    } else {
      var rest := line[FOLD_LIMIT..];
      NoCrlfPart(line, 0, FOLD_LIMIT);
      NoCrlfPart(line, FOLD_LIMIT, |line|);
      assert line[FOLD_LIMIT..|line|] == rest && line[0..FOLD_LIMIT] == line[..FOLD_LIMIT];
      UnfoldJoined(line[..FOLD_LIMIT], rest, t);
      assert line == line[..FOLD_LIMIT] + rest;
    }
  }

  // ---------------------------------------------------------------- physical lines

  /** The pieces between line breaks. */
  function LinesFrom(cur: string, s: string): seq<string>
    decreases |s|
  {
    if s == "" then [cur]
    else if CrlfAt(s, 0) then [cur] + LinesFrom("", s[2..])
    else LinesFrom(cur + [s[0]], s[1..])
  }

  // A line without line breaks comes out as one piece.
  lemma {:induction false} SplitLine(cur: string, line: string, t: string)
    requires NoCrlf(line)
    ensures LinesFrom(cur, line + CRLF + t) == [cur + line] + LinesFrom("", t)
    decreases |line|
  {
    var s := line + CRLF + t;
    if line == "" {
      assert s == CRLF + t && CrlfAt(s, 0) && s[2..] == t;
      assert cur + line == cur;
    } else {
      assert !CrlfAt(line, 0);
      assert !CrlfAt(s, 0);
      NoCrlfPart(line, 1, |line|);
      assert line[1..|line|] == line[1..];
      SplitLine(cur + [line[0]], line[1..], t);
      assert s[1..] == line[1..] + CRLF + t;
      assert cur + [line[0]] + line[1..] == cur + line;
    }
  }

  predicate Fit(lines: seq<string>) {
    forall l <- lines :: |l| <= 75
  }

  lemma {:induction false} FitFrom(cur: string, p: string, t: string)
    requires |cur| + |p| <= FOLD_LIMIT && (t == "" || (CrlfAt(t, 0) && Fit(LinesFrom("", t[2..]))))
    ensures Fit(LinesFrom(cur, p + t))
    decreases |p|
  {
    var s := p + t;
    if p == "" {
      assert s == t;
    } else if CrlfAt(s, 0) {
      if |p| >= 2 {
        FitFrom("", p[2..], t);
        assert s[2..] == p[2..] + t;
      }
    } else {
      FitFrom(cur + [p[0]], p[1..], t);
      assert s[1..] == p[1..] + t;
    }
  }

  lemma {:induction false} FitContinued(rest: string)
    ensures var t := Continued(Chunks(rest)); t == "" || (CrlfAt(t, 0) && Fit(LinesFrom("", t[2..])))
    decreases |rest|
  {
    if rest != "" {
      var n := if |rest| < 74 then |rest| else 74;
      FitContinued(rest[n..]);
      ContinuedStep(rest, n);
      Marked(rest[..n], Continued(Chunks(rest[n..])));
      FitFrom("", " " + rest[..n], Continued(Chunks(rest[n..])));
    }
  }

  /** No physical line of a folded line has more than 75 code points, its leading space included. */
  lemma FoldedLinesFit(line: string)
    ensures Fit(LinesFrom("", Fold(line)))
  {
    if |line| <= FOLD_LIMIT {
      FitFrom("", line, "");
      assert line + "" == line;
    } else {
      FitContinued(line[FOLD_LIMIT..]);
      FitFrom("", line[..FOLD_LIMIT], Continued(Chunks(line[FOLD_LIMIT..])));
    }
  }
}
