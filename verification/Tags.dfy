/** The tag and track tables, and the one operation that replaces what a conference has in them. */
module Tags {
  import opened DispatchLog
  import opened Slug

  type Conf = nat

  ghost function Slugs(lower: char -> char, texts: seq<string>): set<string> {
    set t <- texts :: Slugify(lower, t)
  }

  lemma SlugsStep(lower: char -> char, texts: seq<string>, i: nat)
    requires i < |texts|
    ensures Slugs(lower, texts[..i + 1]) == Slugs(lower, texts[..i]) + {Slugify(lower, texts[i])}
  {
    assert texts[..i + 1] == texts[..i] + [texts[i]];
  }

  // What the conference_tags rows ct say of conference c.
  ghost function TagsIn(tags: map<string, nat>, ct: set<(Conf, nat)>, c: Conf): set<string> {
    set s <- tags | (c, tags[s]) in ct
  }

  ghost function TracksIn(ct: set<(Conf, string)>, c: Conf): set<string> {
    set p <- ct | p.0 == c :: p.1
  }

  ghost predicate TagTableOk(tags: map<string, nat>, nextTag: nat, ct: set<(Conf, nat)>) {
    && (forall s <- tags :: tags[s] < nextTag)
    && (forall s <- tags, r <- tags :: s != r ==> tags[s] != tags[r])
    && (forall p <- ct :: p.1 < nextTag)
  }

  class TagStore {
    const lower: char -> char
    const codes: set<string>
    var tags: map<string, nat>
    var nextTag: nat
    var conferenceTags: set<(Conf, nat)>
    var conferenceTracks: set<(Conf, string)>

    ghost predicate Valid()
      reads this
    {
      TagTableOk(tags, nextTag, conferenceTags)
    }

    ghost function TagsOf(c: Conf): set<string>
      reads this
    {
      TagsIn(tags, conferenceTags, c)
    }

    ghost function TracksOf(c: Conf): set<string>
      reads this
    {
      TracksIn(conferenceTracks, c)
    }

    constructor (lower: char -> char, codes: set<string>)
      ensures Valid() && forall c :: TagsOf(c) == {} && TracksOf(c) == {}
      ensures this.lower == lower && this.codes == codes
    {
      this.lower, this.codes := lower, codes;
      tags, nextTag, conferenceTags, conferenceTracks := map[], 0, {}, {};
    }

    method UpsertTagBySlug(slug: string) returns (id: nat)
      requires Valid()
      modifies this`tags, this`nextTag
      ensures Valid() && slug in tags && tags[slug] == id
      ensures tags == (if slug in old(tags) then old(tags) else old(tags)[slug := old(nextTag)])
      ensures nextTag >= old(nextTag)
      ensures slug !in old(tags) ==> id == old(nextTag)
    {
      if slug !in tags { tags, nextTag := tags[slug := nextTag], nextTag + 1; }
      id := tags[slug];
    }

    /** Whatever the conference had before, it ends up with the slugs of the given texts and the given
        tracks; a track that does not exist stops the transaction. Other conferences are not touched. */
    method SetTagsAndTracks(c: Conf, texts: seq<string>, tracks: seq<string>) returns (ok: bool)
      requires Valid()
      modifies this`tags, this`nextTag, this`conferenceTags, this`conferenceTracks
      ensures Valid() && ok == (Elements(tracks) <= codes)
      ensures ok ==> TagsOf(c) == Slugs(lower, texts) && TracksOf(c) == Elements(tracks)
      ensures OtherTags(old(tags), old(conferenceTags), tags, conferenceTags, c)
      ensures OtherTracks(old(conferenceTracks), conferenceTracks, c)
    {
      SetTags(c, texts);
      ok := SetTracks(c, tracks);
    }

    method AddTag(c: Conf, slug: string)
      requires Valid()
      modifies this`tags, this`nextTag, this`conferenceTags
      ensures Valid() && TagsOf(c) == old(TagsOf(c)) + {slug}
      ensures OtherTags(old(tags), old(conferenceTags), tags, conferenceTags, c)
    {
      var id := UpsertTagBySlug(slug);
      TagAdded(old(tags), nextTag, tags, conferenceTags, c, slug, id);
      conferenceTags := conferenceTags + {(c, id)};
    }

    method DeleteAllConferenceTags(c: Conf)
      requires Valid()
      modifies this`conferenceTags
      ensures Valid() && TagsOf(c) == {}
      ensures OtherTags(tags, old(conferenceTags), tags, conferenceTags, c)
    {
      conferenceTags := set p <- conferenceTags | p.0 != c;
    }

    method SetTags(c: Conf, texts: seq<string>)
      requires Valid()
      modifies this`tags, this`nextTag, this`conferenceTags
      ensures Valid() && TagsOf(c) == Slugs(lower, texts)
      ensures OtherTags(old(tags), old(conferenceTags), tags, conferenceTags, c)
    {
      DeleteAllConferenceTags(c);
      for i := 0 to |texts|
        invariant Valid() && TagsOf(c) == Slugs(lower, texts[..i])
        invariant OtherTags(old(tags), old(conferenceTags), tags, conferenceTags, c)
      {
        ghost var before, linked := tags, conferenceTags;
        AddTag(c, Slugify(lower, texts[i]));
        OtherTagsStep(old(tags), old(conferenceTags), before, linked, tags, conferenceTags, c);
        SlugsStep(lower, texts, i);
      }
      assert texts[..|texts|] == texts;
    }

    method SetTracks(c: Conf, tracks: seq<string>) returns (ok: bool)
      modifies this`conferenceTracks
      ensures ok == (Elements(tracks) <= codes)
      ensures ok ==> TracksOf(c) == Elements(tracks)
      ensures OtherTracks(old(conferenceTracks), conferenceTracks, c)
    {
      ghost var start := conferenceTracks;
      conferenceTracks := set p <- conferenceTracks | p.0 != c;
      TracksCleared(start, c);
      for i := 0 to |tracks|
        invariant Elements(tracks[..i]) <= codes && TracksIn(conferenceTracks, c) == Elements(tracks[..i])
        invariant OtherTracks(start, conferenceTracks, c)
      {
        var code := tracks[i];
        if code !in codes {
          assert code in Elements(tracks);
          return false;
        }
        TrackAdded(conferenceTracks, c, code);
        conferenceTracks := conferenceTracks + {(c, code)};
        assert tracks[..i + 1] == tracks[..i] + [tracks[i]];
      }
      assert tracks[..|tracks|] == tracks;
      ok := true;
    }
  }

  ghost predicate OtherTags(
    tags: map<string, nat>, ct: set<(Conf, nat)>, tags': map<string, nat>, ct': set<(Conf, nat)>, c: Conf)
  {
    forall d: Conf | d != c :: TagsIn(tags', ct', d) == TagsIn(tags, ct, d)
  }

  ghost predicate OtherTracks(ct: set<(Conf, string)>, ct': set<(Conf, string)>, c: Conf) {
    forall d: Conf | d != c :: TracksIn(ct', d) == TracksIn(ct, d)
  }

  lemma OtherTagsStep(
    tags: map<string, nat>, ct: set<(Conf, nat)>, tags': map<string, nat>, ct': set<(Conf, nat)>,
    tags'': map<string, nat>, ct'': set<(Conf, nat)>, c: Conf)
    requires OtherTags(tags, ct, tags', ct', c) && OtherTags(tags', ct', tags'', ct'', c)
    ensures OtherTags(tags, ct, tags'', ct'', c)
  {
    forall d: Conf | d != c ensures TagsIn(tags'', ct'', d) == TagsIn(tags, ct, d) {
      assert TagsIn(tags', ct', d) == TagsIn(tags, ct, d);
    }
  }

  lemma TracksCleared(ct: set<(Conf, string)>, c: Conf)
    ensures var ct' := set p <- ct | p.0 != c; TracksIn(ct', c) == {} && OtherTracks(ct, ct', c)
  {
    var ct' := set p <- ct | p.0 != c;
    forall d: Conf, x: string | d != c ensures x in TracksIn(ct', d) <==> x in TracksIn(ct, d) {
      TrackIs(ct, d, x);
      TrackIs(ct', d, x);
    }
  }

  lemma TrackIs(ct: set<(Conf, string)>, d: Conf, x: string)
    ensures x in TracksIn(ct, d) <==> (d, x) in ct
  {
    assert (d, x).1 == x;
  }

  lemma TrackAdded(ct: set<(Conf, string)>, c: Conf, code: string)
    ensures var ct' := ct + {(c, code)}; TracksIn(ct', c) == TracksIn(ct, c) + {code} && OtherTracks(ct, ct', c)
  {
    var ct' := ct + {(c, code)};
    forall d: Conf, x: string
      ensures x in TracksIn(ct', d) <==> x in TracksIn(ct, d) || (d == c && x == code)
    {
      TrackIs(ct, d, x);
      TrackIs(ct', d, x);
    }
  }

  lemma TagAdded(before: map<string, nat>, nextTag: nat, after: map<string, nat>, ct: set<(Conf, nat)>,
                 c: Conf, slug: string, id: nat)
    requires TagTableOk(after, nextTag, ct) && slug in after && after[slug] == id
    requires after == (if slug in before then before else before[slug := id])
    requires slug !in before ==> forall p <- ct :: p.1 < id
    ensures var ct' := ct + {(c, id)};
      TagsIn(after, ct', c) == TagsIn(before, ct, c) + {slug} && OtherTags(before, ct, after, ct', c)
  {
    var ct' := ct + {(c, id)};
    forall d: Conf, s: string
      ensures s in TagsIn(after, ct', d) <==> s in TagsIn(before, ct, d) || (d == c && s == slug)
    {
      if s in before && s != slug {
        assert after[s] == before[s] && after[s] != id;
      }
    }
  }
}
