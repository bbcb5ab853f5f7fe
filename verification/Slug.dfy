/** Tag slugs. The lower-casing of single characters is a parameter; all that is known of it is that it
    leaves the characters of a slug alone. */
module Slug {
  import opened Strings

  predicate Alnum(c: char) {
    'a' <= c <= 'z' || '0' <= c <= '9'
  }

  ghost predicate LowerOk(lower: char -> char) {
    forall c :: Alnum(c) || c == '-' ==> lower(c) == c
  }

  // strings.ToLower
  function Lower(lower: char -> char, s: string): string {
    seq(|s|, i requires 0 <= i < |s| => lower(s[i]))
  }

  // The leading characters that are, or are not, alphanumeric.
  function RunLength(s: string, alnum: bool): (n: nat)
    ensures n <= |s|
    ensures forall i :: 0 <= i < n ==> Alnum(s[i]) == alnum
    ensures n < |s| ==> Alnum(s[n]) != alnum
  {
    if s == "" || Alnum(s[0]) != alnum then 0 else 1 + RunLength(s[1..], alnum)
  }

  // Every maximal match of [^a-z0-9]+ becomes one hyphen.
  function ReplaceRuns(s: string): string
    decreases |s|
  {
    if s == "" then ""
    else if Alnum(s[0]) then [s[0]] + ReplaceRuns(s[1..])
    else "-" + ReplaceRuns(s[RunLength(s, false)..])
  }

  function TrimLeft(s: string): string {
    if s != "" && s[0] == '-' then TrimLeft(s[1..]) else s
  }

  function TrimRight(s: string): string {
    if s != "" && s[|s| - 1] == '-' then TrimRight(s[..|s| - 1]) else s
  }

  function Slugify(lower: char -> char, s: string): string {
    TrimRight(TrimLeft(ReplaceRuns(Lower(lower, s))))
  }

  // ---------------------------------------------------------------- what a slug is

  /** The maximal alphanumeric runs. */
  function Words(s: string): seq<string>
    decreases |s|
  {
    if s == "" then []
    else if Alnum(s[0]) then [s[..RunLength(s, true)]] + Words(s[RunLength(s, true)..])
    else Words(s[1..])
  }

  function Join(words: seq<string>): string {
    if words == [] then "" else if |words| == 1 then words[0] else words[0] + "-" + Join(words[1..])
  }

  predicate Word(w: string) {
    w != "" && forall i :: 0 <= i < |w| ==> Alnum(w[i])
  }

  predicate AllWords(ws: seq<string>) {
    forall w <- ws :: Word(w)
  }

  lemma {:induction false} WordsAreWords(s: string)
    ensures AllWords(Words(s))
    ensures s != "" && Alnum(s[0]) ==> Words(s) != []
    decreases |s|
  {
    if s != "" {
      if Alnum(s[0]) { WordsAreWords(s[RunLength(s, true)..]); } else { WordsAreWords(s[1..]); }
    }
  }

  lemma {:induction false} SkipRun(s: string, n: nat)
    requires n <= |s| && forall i :: 0 <= i < n ==> !Alnum(s[i])
    ensures Words(s) == Words(s[n..])
  {
    if n == 0 {
      assert s[0..] == s;
    } else {
      SkipRun(s[1..], n - 1);
      assert s[1..][n - 1..] == s[n..];
    }
  }

  lemma {:induction false} KeepRun(s: string, n: nat)
    requires n <= |s| && forall i :: 0 <= i < n ==> Alnum(s[i])
    ensures ReplaceRuns(s) == s[..n] + ReplaceRuns(s[n..])
  {
    if n == 0 {
      assert s[0..] == s;
    } else {
      KeepRun(s[1..], n - 1);
      assert s[1..][n - 1..] == s[n..];
      assert s[..n] == [s[0]] + s[1..][..n - 1];
    }
  }

  // The hyphen a trailing run leaves behind.
  function Trailing(s: string): string {
    if s != "" && !Alnum(s[|s| - 1]) then "-" else ""
  }

  lemma {:induction false} ReplacedFromWord(s: string)
    requires s != "" && Alnum(s[0])
    ensures ReplaceRuns(s) == Join(Words(s)) + Trailing(s)
    decreases |s|
  {
    var n := RunLength(s, true);
    var w, t := s[..n], s[n..];
    KeepRun(s, n);
    if t != "" {
      var m := RunLength(t, false);
      var u := t[m..];
      SkipRun(t, m);
      assert Words(s) == [w] + Words(u);
      if u != "" {
        ReplacedFromWord(u);
        WordsAreWords(u);
        assert s[|s| - 1] == u[|u| - 1];
        JoinMore(w, Words(u));
        Regroup(w + "-", Join(Words(u)), Trailing(u));
        Regroup(w, "-", Join(Words(u)) + Trailing(u));
      } else {
        assert Trailing(s) == "-" && ReplaceRuns(t) == "-" && Words(s) == [w];
      }
    } else {
      assert Words(s) == [w] && w == s;
    }
  }

  lemma JoinMore(w: string, ws: seq<string>)
    requires ws != []
    ensures Join([w] + ws) == w + "-" + Join(ws)
  {
    assert ([w] + ws)[1..] == ws;
  }

  lemma ReplacedFromGap(s: string, u: string)
    requires s != "" && !Alnum(s[0]) && u == s[RunLength(s, false)..]
    ensures ReplaceRuns(s) == "-" + ReplaceRuns(u) && Words(s) == Words(u) && (u != "" ==> Trailing(s) == Trailing(u))
  {
    SkipRun(s, RunLength(s, false));
    if u != "" { assert s[|s| - 1] == u[|u| - 1]; }
  }

  function Leading(s: string): string {
    if s != "" && !Alnum(s[0]) && Words(s) != [] then "-" else ""
  }

  lemma Replaced(s: string)
    ensures ReplaceRuns(s) == Leading(s) + Join(Words(s)) + Trailing(s)
  {
    if s != "" {
      if Alnum(s[0]) {
        ReplacedFromWord(s);
        assert "" + Join(Words(s)) == Join(Words(s));
      } else {
        var u := s[RunLength(s, false)..];
        ReplacedFromGap(s, u);
        if u != "" {
          ReplacedFromWord(u);
          WordsAreWords(u);
          Regroup("-", Join(Words(u)), Trailing(u));
        }
      }
    }
  }

  /** A join of words starts and ends with a word character. */
  lemma {:induction false} JoinEnds(ws: seq<string>)
    requires AllWords(ws) && ws != []
    ensures Join(ws) != "" && Alnum(Join(ws)[0]) && Alnum(Join(ws)[|Join(ws)| - 1])
  {
    assert Word(ws[0]);
    if |ws| > 1 { JoinEnds(ws[1..]); }
  }

  lemma Trimmed(lead: string, j: string, trail: string)
    requires (lead == "" || lead == "-") && (trail == "" || trail == "-")
    requires j != "" && j[0] != '-' && j[|j| - 1] != '-'
    ensures TrimRight(TrimLeft(lead + j + trail)) == j
  {
    var s := lead + j + trail;
    if lead == "-" { assert s[1..] == j + trail; } else { assert s == j + trail; }
    assert TrimLeft(j + trail) == j + trail;
    if trail == "-" { assert (j + trail)[..|j + trail| - 1] == j; } else { assert j + trail == j; }
  }

  /** A slug is the words of the lower-cased text, joined by single hyphens. */
  lemma SlugIsJoin(lower: char -> char, s: string)
    ensures Slugify(lower, s) == Join(Words(Lower(lower, s)))
  {
    var t := Lower(lower, s);
    Replaced(t);
    WordsAreWords(t);
    if Words(t) == [] {
      assert ReplaceRuns(t) == Trailing(t);
      assert "-"[1..] == "";
    } else {
      JoinEnds(Words(t));
      Trimmed(Leading(t), Join(Words(t)), Trailing(t));
    }
  }

  lemma WordsStep(w: string, t: string)
    requires Word(w) && (t == "" || !Alnum(t[0]))
    ensures Words(w + t) == [w] + Words(t)
  {
    var s := w + t;
    var n := RunLength(s, true);
    assert forall i :: 0 <= i < |w| ==> s[i] == w[i];
    assert t != "" ==> s[|w|] == t[0];
    assert n == |w|;
    assert s[..n] == w && s[n..] == t;
  }

  /** and the words can be read back from it. */
  lemma {:induction false} WordsOfJoin(ws: seq<string>)
    requires AllWords(ws)
    ensures Words(Join(ws)) == ws
  {
    if ws != [] {
      assert Word(ws[0]);
      if |ws| == 1 {
        WordsStep(ws[0], "");
        assert ws[0] + "" == ws[0] && ws == [ws[0]];
      } else {
        WordsOfJoin(ws[1..]);
        var t := "-" + Join(ws[1..]);
        WordsStep(ws[0], t);
        assert Join(ws) == ws[0] + t;
        assert t[1..] == Join(ws[1..]);
        assert ws == [ws[0]] + ws[1..];
      }
    }
  }

  predicate SlugChars(s: string) {
    forall i :: 0 <= i < |s| ==> Alnum(s[i]) || s[i] == '-'
  }

  lemma {:induction false} JoinChars(ws: seq<string>)
    requires AllWords(ws)
    ensures SlugChars(Join(ws))
  {
    if ws != [] {
      assert Word(ws[0]);
      if |ws| > 1 { JoinChars(ws[1..]); }
    }
  }

  lemma LowerKeepsSlug(lower: char -> char, s: string)
    requires LowerOk(lower) && SlugChars(s)
    ensures Lower(lower, s) == s
  {
    assert forall i :: 0 <= i < |s| ==> lower(s[i]) == s[i];
  }

  lemma SlugIdempotent(lower: char -> char, s: string)
    requires LowerOk(lower)
    ensures Slugify(lower, Slugify(lower, s)) == Slugify(lower, s)
  {
    var ws := Words(Lower(lower, s));
    SlugIsJoin(lower, s);
    WordsAreWords(Lower(lower, s));
    JoinChars(ws);
    LowerKeepsSlug(lower, Join(ws));
    SlugIsJoin(lower, Join(ws));
    WordsOfJoin(ws);
  }

  /** Two texts share their slug exactly if they have the same words, whatever stands between these. */
  lemma SameSlug(lower: char -> char, a: string, b: string)
    ensures Slugify(lower, a) == Slugify(lower, b) <==> Words(Lower(lower, a)) == Words(Lower(lower, b))
  {
    SlugIsJoin(lower, a);
    SlugIsJoin(lower, b);
    WordsAreWords(Lower(lower, a));
    WordsAreWords(Lower(lower, b));
    WordsOfJoin(Words(Lower(lower, a)));
    WordsOfJoin(Words(Lower(lower, b)));
  }

  // ---------------------------------------------------------------- nothing is lost but separators

  /** The letters a to z and the digits of a text, in order. */
  function Letters(s: string): string {
    if s == "" then ""
    else (if 'a' <= s[0] <= 'z' || '0' <= s[0] <= '9' then [s[0]] else "") + Letters(s[1..])
  }

  lemma {:induction false} LettersAppend(s: string, t: string)
    ensures Letters(s + t) == Letters(s) + Letters(t)
  {
    if s == "" {
      assert s + t == t;
    } else {
      LettersAppend(s[1..], t);
      assert (s + t)[0] == s[0] && (s + t)[1..] == s[1..] + t;
      Regroup(if 'a' <= s[0] <= 'z' || '0' <= s[0] <= '9' then [s[0]] else "", Letters(s[1..]), Letters(t));
    }
  }

  lemma {:induction false} NoLetters(s: string)
    requires forall i :: 0 <= i < |s| ==> !Alnum(s[i])
    ensures Letters(s) == ""
  {
    if s != "" { NoLetters(s[1..]); }
  }

  lemma {:induction false} LettersStay(s: string)
    ensures Letters(ReplaceRuns(s)) == Letters(s)
    decreases |s|
  {
    if s != "" && Alnum(s[0]) {
      LettersStay(s[1..]);
      assert ([s[0]] + ReplaceRuns(s[1..]))[1..] == ReplaceRuns(s[1..]);
    } else if s != "" {
      var n := RunLength(s, false);
      LettersStay(s[n..]);
      NoLetters(s[..n]);
      LettersAppend(s[..n], s[n..]);
      assert s == s[..n] + s[n..];
      assert ("-" + ReplaceRuns(s[n..]))[1..] == ReplaceRuns(s[n..]);
    }
  }

  lemma {:induction false} LettersTrimmedLeft(s: string)
    ensures Letters(TrimLeft(s)) == Letters(s)
  {
    if s != "" && s[0] == '-' { LettersTrimmedLeft(s[1..]); }
  }

  lemma {:induction false} LettersTrimmedRight(s: string)
    ensures Letters(TrimRight(s)) == Letters(s)
  {
    if s != "" && s[|s| - 1] == '-' {
      var n := |s| - 1;
      LettersTrimmedRight(s[..n]);
      LettersAppend(s[..n], "-");
      assert s == s[..n] + "-";
      assert Letters("-") == "";
    }
  }

  /** A slug has the letters and digits of the lower-cased text, all of them in order, and else only hyphens. */
  lemma SlugKeepsLetters(lower: char -> char, s: string)
    ensures Letters(Slugify(lower, s)) == Letters(Lower(lower, s))
    ensures forall c <- Slugify(lower, s) :: 'a' <= c <= 'z' || '0' <= c <= '9' || c == '-'
  {
    var t := Lower(lower, s);
    LettersStay(t);
    LettersTrimmedLeft(ReplaceRuns(t));
    LettersTrimmedRight(TrimLeft(ReplaceRuns(t)));
    SlugIsJoin(lower, s);
    WordsAreWords(t);
    JoinChars(Words(t));
  }
}
