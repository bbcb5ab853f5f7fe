/** Section 3.1 of RFC 5545 limits a physical line to 75 octets. The encoder counts code points, so the
    limit holds only for some lines; this module says for which. */
module ICalOctets {
  import opened ICalText
  import ICal

  /** The octets of a code point in UTF-8. */
  function Width(c: char): nat {
    if c as int < 0x80 then 1 else if c as int < 0x800 then 2 else if c as int < 0x10000 then 3 else 4
  }

  function Octets(s: string): nat {
    if s == "" then 0 else Octets(s[..|s| - 1]) + Width(s[|s| - 1])
  }

  predicate Ascii(s: string) {
    forall i :: 0 <= i < |s| ==> s[i] as int < 0x80
  }

  predicate Short(lines: seq<string>) {
    forall l <- lines :: Octets(l) <= 75
  }

  lemma {:induction false} OctetsAppend(a: string, b: string)
    ensures Octets(a + b) == Octets(a) + Octets(b)
  {
    if b == "" {
      assert a + b == a;
    } else {
      OctetsAppend(a, b[..|b| - 1]);
      assert (a + b)[..|a + b| - 1] == a + b[..|b| - 1];
    }
  }

  lemma AsciiAppend(a: string, b: string)
    ensures Ascii(a + b) <==> Ascii(a) && Ascii(b)
  {
    if Ascii(a + b) {
      forall i | 0 <= i < |b| ensures b[i] as int < 0x80 { assert (a + b)[|a| + i] == b[i]; }
      forall i | 0 <= i < |a| ensures a[i] as int < 0x80 { assert (a + b)[i] == a[i]; }
    }
  }

  lemma {:induction false} OctetsAtLeast(s: string)
    ensures Octets(s) >= |s|
    ensures Octets(s) == |s| <==> Ascii(s)
  {
    if s != "" {
      var n := |s| - 1;
      OctetsAtLeast(s[..n]);
      assert s == s[..n] + [s[n]];
      assert Width(s[n]) >= 1 && (Width(s[n]) == 1 <==> s[n] as int < 0x80);
      AsciiAppend(s[..n], [s[n]]);
    }
  }

  function Spaced(chunks: seq<string>): seq<string> {
    if chunks == [] then [] else [" " + chunks[0]] + Spaced(chunks[1..])
  }

  /** The physical lines of a folded line. */
  function PhysicalLines(line: string): seq<string> {
    if |line| <= FOLD_LIMIT then [line] else [line[..FOLD_LIMIT]] + Spaced(Chunks(line[FOLD_LIMIT..]))
  }

  lemma {:induction false} OnePiece(cur: string, p: string)
    requires NoCrlf(p)
    ensures LinesFrom(cur, p) == [cur + p]
    decreases |p|
  {
    if p == "" {
      assert cur + p == cur;
    } else {
      assert !CrlfAt(p, 0);
      NoCrlfPart(p, 1, |p|);
      assert p[1..|p|] == p[1..];
      OnePiece(cur + [p[0]], p[1..]);
      assert cur + [p[0]] + p[1..] == cur + p;
    }
  }

  lemma SpacedNoCrlf(a: string)
    requires NoCrlf(a)
    ensures NoCrlf(" " + a)
  {
    forall i | 0 <= i < |" " + a| ensures !CrlfAt(" " + a, i) { assert i > 0 ==> !CrlfAt(a, i - 1); }
  }

  // The text splits after its first chunk.
  lemma NextChunk(p: string, rest: string, n: nat)
    requires NoCrlf(p) && rest != "" && n == if |rest| < 74 then |rest| else 74
    ensures LinesFrom("", p + Continued(Chunks(rest))) ==
      [p] + LinesFrom("", " " + rest[..n] + Continued(Chunks(rest[n..])))
    ensures Spaced(Chunks(rest)) == [" " + rest[..n]] + Spaced(Chunks(rest[n..]))
  {
    var next, more := " " + rest[..n], Continued(Chunks(rest[n..]));
    ContinuedStep(rest, n);
    assert CRLF + " " + rest[..n] + more == CRLF + next + more;
    FirstPiece(p, next, more);
    assert Chunks(rest) == [rest[..n]] + Chunks(rest[n..]);
    SpacedStep(rest[..n], Chunks(rest[n..]));
  }

  lemma ChunkOk(rest: string, n: nat)
    requires NoCrlf(rest) && n <= |rest|
    ensures NoCrlf(" " + rest[..n]) && NoCrlf(rest[n..])
  {
    NoCrlfPart(rest, 0, n);
    NoCrlfPart(rest, n, |rest|);
    assert rest[0..n] == rest[..n] && rest[n..|rest|] == rest[n..];
    SpacedNoCrlf(rest[..n]);
  }

  lemma {:induction false} ContinuedPieces(p: string, rest: string)
    requires NoCrlf(p) && NoCrlf(rest)
    ensures LinesFrom("", p + Continued(Chunks(rest))) == [p] + Spaced(Chunks(rest))
    decreases |rest|
  {
    if rest == "" {
      assert p + Continued(Chunks(rest)) == p && "" + p == p;
      OnePiece("", p);
    } else {
      var n := if |rest| < 74 then |rest| else 74;
      ChunkOk(rest, n);
      NextChunk(p, rest, n);
      ContinuedPieces(" " + rest[..n], rest[n..]);
    }
  }

  lemma FirstPiece(p: string, next: string, more: string)
    requires NoCrlf(p)
    ensures LinesFrom("", p + (CRLF + next + more)) == [p] + LinesFrom("", next + more)
  {
    assert p + (CRLF + next + more) == p + CRLF + (next + more);
    SplitLine("", p, next + more);
    assert "" + p == p;
  }

  lemma SpacedStep(first: string, chunks: seq<string>)
    ensures Spaced([first] + chunks) == [" " + first] + Spaced(chunks)
  {
    assert ([first] + chunks)[1..] == chunks;
  }

  /** Splitting a folded line at its line breaks gives these lines. */
  lemma FoldedPieces(line: string)
    requires NoCrlf(line)
    ensures LinesFrom("", Fold(line)) == PhysicalLines(line)
  {
    if |line| <= FOLD_LIMIT {
      OnePiece("", line);
      assert "" + line == line;
    } else {
      NoCrlfPart(line, 0, FOLD_LIMIT);
      NoCrlfPart(line, FOLD_LIMIT, |line|);
      assert line[0..FOLD_LIMIT] == line[..FOLD_LIMIT] && line[FOLD_LIMIT..|line|] == line[FOLD_LIMIT..];
      ContinuedPieces(line[..FOLD_LIMIT], line[FOLD_LIMIT..]);
    }
  }

  // Everything before the last, shorter chunk is ASCII, and that chunk leaves room for its space.
  predicate TailFits(rest: string) {
    var q := |rest| - |rest| % 74;
    Ascii(rest[..q]) && Octets(rest[q..]) <= 74
  }

  lemma OneChunk(rest: string)
    requires 0 < |rest| <= 74
    ensures Chunks(rest) == [rest]
  {
    assert rest[..|rest|] == rest && rest[|rest|..] == "";
  }

  lemma ShortOne(a: string)
    ensures Short(Spaced([a])) <==> Octets(a) <= 74
  {
    OctetsAppend(" ", a);
    assert [a][1..] == [];
    assert Spaced([a]) == [" " + a];
  }

  lemma Below74(n: nat)
    requires n < 74
    ensures n % 74 == n
  {}

  lemma TailFitsShort(rest: string)
    requires |rest| < 74
    ensures TailFits(rest) <==> Octets(rest) <= 74
  {
    var q := |rest| - |rest| % 74;
    Below74(|rest|);
    assert rest[q..] == rest && rest[..q] == "";
  }

  lemma LastChunk(rest: string)
    requires |rest| < 74
    ensures Short(Spaced(Chunks(rest))) <==> TailFits(rest)
  {
    TailFitsShort(rest);
    if rest != "" {
      OneChunk(rest);
      ShortOne(rest);
    }
  }

  lemma FullChunk(first: string, chunks: seq<string>)
    requires |first| == 74
    ensures Short(Spaced([first] + chunks)) <==> Ascii(first) && Short(Spaced(chunks))
  {
    OctetsAtLeast(first);
    OctetsAppend(" ", first);
    assert ([first] + chunks)[1..] == chunks;
    assert Spaced([first] + chunks) == [" " + first] + Spaced(chunks);
  }

  lemma TailStep(rest: string)
    requires |rest| >= 74
    ensures TailFits(rest) <==> Ascii(rest[..74]) && TailFits(rest[74..])
  {
    var more := rest[74..];
    var q := |more| - |more| % 74;
    assert |rest| - |rest| % 74 == q + 74;
    assert rest[..q + 74] == rest[..74] + more[..q] && rest[q + 74..] == more[q..];
    AsciiAppend(rest[..74], more[..q]);
  }

  lemma {:induction false} SpacedShort(rest: string)
    ensures Short(Spaced(Chunks(rest))) <==> TailFits(rest)
    decreases |rest|
  {
    if |rest| < 74 {
      LastChunk(rest);
    } else {
      SpacedShort(rest[74..]);
      assert Chunks(rest) == [rest[..74]] + Chunks(rest[74..]);
      FullChunk(rest[..74], Chunks(rest[74..]));
      TailStep(rest);
    }
  }

  /** Every physical line keeps to 75 octets exactly if a short line does as a whole, and a longer one is
      ASCII up to its last, shorter chunk, which has at most 74 octets. */
  predicate OctetsFit(line: string) {
    if |line| <= FOLD_LIMIT then Octets(line) <= FOLD_LIMIT
    else Ascii(line[..FOLD_LIMIT]) && TailFits(line[FOLD_LIMIT..])
  }

  lemma FoldedOctets(line: string)
    requires NoCrlf(line)
    ensures Short(LinesFrom("", Fold(line))) <==> OctetsFit(line)
  {
    FoldedPieces(line);
    if |line| > FOLD_LIMIT {
      OctetsAtLeast(line[..FOLD_LIMIT]);
      SpacedShort(line[FOLD_LIMIT..]);
    }
  }

  lemma AsciiFits(line: string)
    requires NoCrlf(line) && Ascii(line)
    ensures Short(LinesFrom("", Fold(line)))
  {
    FoldedOctets(line);
    OctetsAtLeast(line);
    if |line| > FOLD_LIMIT {
      var rest := line[FOLD_LIMIT..];
      assert line == line[..FOLD_LIMIT] + rest;
      AsciiAppend(line[..FOLD_LIMIT], rest);
      AsciiTail(rest);
    }
  }

  lemma AsciiTail(rest: string)
    requires Ascii(rest)
    ensures TailFits(rest)
  {
    var q := |rest| - |rest| % 74;
    assert rest == rest[..q] + rest[q..];
    AsciiAppend(rest[..q], rest[q..]);
    OctetsAtLeast(rest[q..]);
  }

  // 40 times the letter e with an acute accent, two octets each.
  const ACCENTS: string := seq(40, _ => '\U{E9}')

  lemma {:induction false} AccentOctets(n: nat)
    requires n <= 40
    ensures Octets(ACCENTS[..n]) == 2 * n
  {
    if n > 0 {
      AccentOctets(n - 1);
      assert ACCENTS[..n][..n - 1] == ACCENTS[..n - 1];
    }
  }

  lemma NoCrNoCrlf(s: string)
    requires '\r' !in s
    ensures NoCrlf(s)
  {}

  /** A summary of 40 such letters, which needs no escaping, is not folded at all: its line has 48 code points
      and more than 75 octets. */
  lemma AccentsOverflow()
    ensures EscapeText(ACCENTS) == ACCENTS
    ensures var line := ICal.SUMMARY + ":" + ACCENTS; |line| == 48 && NoCrlf(line) && !Short(LinesFrom("", Fold(line)))
  {
    var line := ICal.SUMMARY + ":" + ACCENTS;
    AccentsPlain();
    AccentOctets(40);
    assert ACCENTS[..40] == ACCENTS;
    OctetsAppend(ICal.SUMMARY + ":", ACCENTS);
    assert '\r' !in ICal.SUMMARY && '\r' !in ACCENTS;
    NoCrNoCrlf(line);
    FoldedOctets(line);
  }

  lemma {:induction false} PlainOnce(s: string)
    requires forall c <- s :: EscapeChar(c) == [c]
    ensures EscapeOnce(s) == s
  {
    if s != "" { PlainOnce(s[1..]); }
  }

  lemma AccentsPlain()
    ensures EscapeText(ACCENTS) == ACCENTS
  {
    EscapeIsOnce(ACCENTS);
    forall c <- ACCENTS ensures EscapeChar(c) == [c] {
      var i :| 0 <= i < 40 && c == ACCENTS[i];
    }
    PlainOnce(ACCENTS);
  }
}
