/** The genre rule shared by the desktop tag reader (music_player.py), the
    browser tag reader (music_player_gradio/music_player_gradio.py) and the
    cache migration (migrate_tags_cache.py): split the raw genre text on
    every run of `; | , / \ > -`, strip each piece, drop the blank ones. */
module Genres {
  import opened Text

  predicate IsGenreDelimiter(c: char) {
    c == ';' || c == '|' || c == ',' || c == '/' || c == '\\' || c == '>' || c == '-'
  }

  /** What every produced genre looks like. */
  predicate IsGenreToken(t: string) {
    t != [] && IsStripped(t) && forall j :: 0 <= j < |t| ==> !IsGenreDelimiter(t[j])
  }

  /** `[g.strip() for g in re.split(r'[;|,/\\>\-]+', raw) if g.strip()]` */
  function SplitGenres(raw: string): seq<string> {
    Clean(SplitRuns(raw, IsGenreDelimiter))
  }

  /** Every genre is non-empty, has no surrounding whitespace and holds no
      delimiter. */
  lemma SplitGenresTokens(raw: string)
    ensures forall i :: 0 <= i < |SplitGenres(raw)| ==> IsGenreToken(SplitGenres(raw)[i])
  {
    CleanAvoids(SplitRuns(raw, IsGenreDelimiter), IsGenreDelimiter);
  }

  /** A delimiter cuts the raw text into two halves that split on their own,
      and their genres come out in left-to-right order. */
  lemma SplitGenresAt(a: string, c: char, b: string)
    requires IsGenreDelimiter(c)
    ensures SplitGenres(a + [c] + b) == SplitGenres(a) + SplitGenres(b)
  {
    CleanRunsIsCleanEach(a + [c] + b, IsGenreDelimiter);
    CleanRunsIsCleanEach(a, IsGenreDelimiter);
    CleanRunsIsCleanEach(b, IsGenreDelimiter);
    SplitEachAt(a, c, b, IsGenreDelimiter);
    CleanAppend(SplitEach(a, IsGenreDelimiter), SplitEach(b, IsGenreDelimiter));
  }

  /** Text without a delimiter gives its strip as the one genre, or none
      when it is blank. */
  lemma SplitGenresPiece(t: string)
    requires forall j :: 0 <= j < |t| ==> !IsGenreDelimiter(t[j])
    ensures Strip(t) == [] ==> SplitGenres(t) == []
    ensures Strip(t) != [] ==> SplitGenres(t) == [Strip(t)]
  {
    CleanRunsIsCleanEach(t, IsGenreDelimiter);
    SplitEachNoSep(t, IsGenreDelimiter);
    assert Clean([t]) == CleanOne(t) + Clean([]);
  }

  /** Round trip: genres written out with ';' between them split back into
      the same list. */
  lemma {:induction false} SplitGenresOfJoin(ts: seq<string>)
    requires forall i :: 0 <= i < |ts| ==> IsGenreToken(ts[i])
    ensures SplitGenres(Join(ts, ";")) == ts
  {
    if ts == [] {
      SplitGenresPiece([]);
    } else {
      SplitGenresToken(ts[0]);
      if |ts| > 1 {
        SplitGenresOfJoin(ts[1..]);
        assert Join(ts, ";") == ts[0] + [';'] + Join(ts[1..], ";");
        SplitGenresAt(ts[0], ';', Join(ts[1..], ";"));
        assert ts == [ts[0]] + ts[1..];
      }
    }
  }

  /** Re-applying the rule to its own output, written out again, changes
      nothing. */
  lemma SplitGenresIdempotent(raw: string)
    ensures SplitGenres(Join(SplitGenres(raw), ";")) == SplitGenres(raw)
  {
    SplitGenresTokens(raw);
    SplitGenresOfJoin(SplitGenres(raw));
  }

  /** A single well-formed genre splits to itself. */
  lemma SplitGenresToken(t: string)
    requires IsGenreToken(t)
    ensures SplitGenres(t) == [t]
  {
    SplitGenresPiece(t);
    StripOfStripped(t);
  }

  /** A well-formed genre followed by a delimiter comes out first, ahead of
      the genres of the rest. */
  lemma SplitGenresCons(t: string, c: char, rest: string)
    requires SplitGenres(t) == [t] && IsGenreDelimiter(c)
    ensures SplitGenres(t + [c] + rest) == [t] + SplitGenres(rest)
  {
    SplitGenresAt(t, c, rest);
  }

  /** Leading whitespace changes nothing: it ends up stripped off the first
      piece. */
  lemma SplitGenresLeadingSpace(c: char, x: string)
    requires IsSpace(c)
    ensures SplitGenres([c] + x) == SplitGenres(x)
  {
    assert !IsGenreDelimiter(c);
    CleanRunsIsCleanEach([c] + x, IsGenreDelimiter);
    CleanRunsIsCleanEach(x, IsGenreDelimiter);
    var rest := SplitEach(x, IsGenreDelimiter);
    SplitEachCons(c, x, IsGenreDelimiter);
    StripLeadingSpace(c, rest[0]);
    var each := SplitEach([c] + x, IsGenreDelimiter);
    assert Clean(each) == CleanOne([c] + rest[0]) + Clean(rest[1..]);
    assert Clean(rest) == CleanOne(rest[0]) + Clean(rest[1..]);
  }

  /** Round trip through a join on a delimiter followed by whitespace, as
      the ", " join of a table cell: the genres come back as they were. */
  lemma {:induction false} SplitGenresOfSpacedJoin(ts: seq<string>, d: char, c: char)
    requires IsGenreDelimiter(d) && IsSpace(c)
    requires forall i :: 0 <= i < |ts| ==> IsGenreToken(ts[i])
    ensures SplitGenres(Join(ts, [d, c])) == ts
  {
    if ts == [] {
      SplitGenresPiece([]);
    } else {
      SplitGenresToken(ts[0]);
      if |ts| > 1 {
        var rest := Join(ts[1..], [d, c]);
        assert Join(ts, [d, c]) == ts[0] + [d] + ([c] + rest);
        SplitGenresOfSpacedJoin(ts[1..], d, c);
        calc {
          SplitGenres(ts[0] + [d] + ([c] + rest));
          { SplitGenresAt(ts[0], d, [c] + rest); }
          SplitGenres(ts[0]) + SplitGenres([c] + rest);
          { SplitGenresLeadingSpace(c, rest); }
          [ts[0]] + ts[1..];
        }
        assert [ts[0]] + ts[1..] == ts;
      }
    }
  }
}
