/** The MusicBrainz preview of music_player_gradio/musicbrainz_utils.py:
    build a search query from the title, artist and album a file already
    has, and fill in only the year, title, artist and album that are
    missing, from the first recording found. The search itself is a
    parameter: a function from the query text to the search result. */
module MusicBrainz {
  import opened Text

  /** A value in a tags dictionary: tag text, or the integer year this
      preview writes. */
  datatype Value = Str(s: string) | Int(n: int)

  /** `tags.get(key)` */
  function Get(tags: map<string, Value>, key: string): Option<Value> {
    if key in tags then Some(tags[key]) else None
  }

  /** Python truthiness of a looked-up value: present, and neither the
      empty string nor 0. */
  predicate Truthy(v: Option<Value>) {
    v.Some? && match v.value
      case Str(s) => s != []
      case Int(n) => n != 0
  }

  /** The four fields the preview fills. */
  const Fields: set<string> := {"title", "artist", "album", "year"}

  /** The four field names are different keys. */
  lemma FieldNamesDiffer()
    ensures "title" != "album" && "title" != "artist" && "title" != "year"
    ensures "album" != "artist" && "album" != "year" && "artist" != "year"
  {
    assert "title"[0] != "album"[0];
  }

  // ---------------------------------------------------------------------
  // Decimal numbers: str() of an integer and int() of a string.

  /** An ASCII digit; none of them is whitespace. */
  predicate IsDigit(c: char)
    ensures IsDigit(c) ==> !IsSpace(c)
  {
    '0' <= c <= '9'
  }

  function DigitChar(d: nat): (c: char)
    requires d < 10
    ensures IsDigit(c)
  {
    ['0', '1', '2', '3', '4', '5', '6', '7', '8', '9'][d]
  }

  function DigitValue(c: char): nat
    requires IsDigit(c)
  {
    (c as int - '0' as int) as nat
  }

  /** The decimal digits of a natural number, most significant first. */
  function Digits(n: nat): (r: string)
    ensures r != [] && forall i :: 0 <= i < |r| ==> IsDigit(r[i])
  {
    if n < 10 then [DigitChar(n)] else Digits(n / 10) + [DigitChar(n % 10)]
  }

  /** `str(n)` */
  function Decimal(n: int): string {
    if n < 0 then "-" + Digits(-n) else Digits(n)
  }

  /** How a value reads inside an f-string. */
  function Display(v: Value): string {
    match v
    case Str(s) => s
    case Int(n) => Decimal(n)
  }

  /** Digits, with single underscores allowed between two digits: the body
      int() accepts after the sign. Read from the back: a last digit, and
      before it nothing, a numeral, or an underscore after a numeral. */
  predicate IsNumeral(b: string) {
    b != [] && IsDigit(b[|b| - 1]) &&
    (|b| == 1 ||
     var p := b[..|b| - 1];
     if p[|p| - 1] == '_' then IsNumeral(p[..|p| - 1]) else IsNumeral(p))
  }

  /** The number a numeral denotes; underscores carry no value. */
  function NumeralValue(b: string): nat
    requires IsNumeral(b)
  {
    var d := DigitValue(b[|b| - 1]);
    if |b| == 1 then d
    else
      var p := b[..|b| - 1];
      (if p[|p| - 1] == '_' then NumeralValue(p[..|p| - 1]) else NumeralValue(p)) * 10 + d
  }

  /** int() after the whitespace is stripped: an optional sign and a
      numeral; None stands for the ValueError. */
  function ParseSigned(t: string): Option<int> {
    if t == [] then None
    else
      var negative := t[0] == '-';
      var body := if t[0] == '-' || t[0] == '+' then t[1..] else t;
      if !IsNumeral(body) then None
      else
        var v: int := NumeralValue(body);
        Some(if negative then -v else v)
  }

  /** `int(s)` for a string: surrounding whitespace is ignored. */
  function ParseInt(s: string): Option<int> {
    ParseSigned(Strip(s))
  }

  function Pow10(k: nat): (r: nat)
    ensures r >= 1
  {
    if k == 0 then 1 else 10 * Pow10(k - 1)
  }

  /** A numeral of k characters denotes less than 10^k. */
  lemma {:induction false} NumeralBound(b: string)
    requires IsNumeral(b)
    ensures NumeralValue(b) < Pow10(|b|)
  {
    if |b| > 1 {
      var p := b[..|b| - 1];
      var q := if p[|p| - 1] == '_' then p[..|p| - 1] else p;
      NumeralBound(q);
      assert Pow10(|q|) <= Pow10(|p|) by {
        if q != p {
          assert Pow10(|p|) == 10 * Pow10(|q|);
        }
      }
      assert NumeralValue(b) == NumeralValue(q) * 10 + DigitValue(b[|b| - 1]);
      assert (NumeralValue(q) + 1) * 10 <= Pow10(|p|) * 10;
    }
  }

  /** The digits of n denote n. */
  lemma {:induction false} NumeralOfDigits(n: nat)
    ensures IsNumeral(Digits(n))
    ensures NumeralValue(Digits(n)) == n
  {
    var d := Digits(n);
    if n >= 10 {
      NumeralOfDigits(n / 10);
      assert d[..|d| - 1] == Digits(n / 10);
    }
  }

  /** A numeral starts with a digit. */
  lemma {:induction false} NumeralStartsWithDigit(b: string)
    requires IsNumeral(b)
    ensures IsDigit(b[0])
  {
    if |b| > 1 {
      var p := b[..|b| - 1];
      var q := if p[|p| - 1] == '_' then p[..|p| - 1] else p;
      NumeralStartsWithDigit(q);
      assert q[0] == b[0];
    }
  }

  /** A numeral, with or without a minus sign in front, parses to its
      value. */
  lemma ParseSignedOfNumeral(b: string)
    requires IsNumeral(b)
    ensures ParseSigned(b) == Some(NumeralValue(b))
    ensures ParseSigned("-" + b) == Some(-(NumeralValue(b) as int))
  {
    NumeralStartsWithDigit(b);
    assert ("-" + b)[1..] == b;
  }

  /** Round trip: int(str(n)) == n. */
  lemma ParseIntOfDecimal(n: int)
    ensures ParseInt(Decimal(n)) == Some(n)
  {
    var m: nat := if n < 0 then -n else n;
    var s := Decimal(n);
    NumeralOfDigits(m);
    NumeralStartsWithDigit(Digits(m));
    ParseSignedOfNumeral(Digits(m));
    assert s[|s| - 1] == Digits(m)[|Digits(m)| - 1];
    assert IsStripped(s);
    StripOfStripped(s);
  }

  /** A sign and at most three digits, or at most four digits, denote a
      number between -999 and 9999. */
  lemma SignedBounds(t: string)
    requires |t| <= 4 && ParseSigned(t).Some?
    ensures -999 <= ParseSigned(t).value <= 9999
  {
    var body := if t[0] == '-' || t[0] == '+' then t[1..] else t;
    NumeralBound(body);
    assert Pow10(1) == 10 && Pow10(2) == 100 && Pow10(3) == 1000 && Pow10(4) == 10000;
  }

  /** The year taken from the first four characters of a date lies between
      -999 and 9999. */
  lemma YearBounds(date: string)
    requires ParseInt(Take(date, 4)).Some?
    ensures -999 <= ParseInt(Take(date, 4)).value <= 9999
  {
    SignedBounds(Strip(Take(date, 4)));
  }

  // ---------------------------------------------------------------------
  // The query.

  /** The query parts for the truthy title, artist and album, in that
      order. */
  function QueryParts(title: Option<Value>, artist: Option<Value>, album: Option<Value>): (r: seq<string>)
    ensures |r| == (if Truthy(title) then 1 else 0) + (if Truthy(artist) then 1 else 0) + (if Truthy(album) then 1 else 0)
    ensures forall i :: 0 <= i < |r| ==> r[i] != []
    ensures Truthy(title) ==> r[0] == "track:" + Display(title.value)
    ensures Truthy(album) ==> r[|r| - 1] == "release:" + Display(album.value)
  {
    (if Truthy(title) then ["track:" + Display(title.value)] else []) +
    (if Truthy(artist) then ["artist:" + Display(artist.value)] else []) +
    (if Truthy(album) then ["release:" + Display(album.value)] else [])
  }

  /** The query text built from a tags dictionary. */
  function Query(tags: map<string, Value>): string {
    Join(QueryParts(Get(tags, "title"), Get(tags, "artist"), Get(tags, "album")), " AND ")
  }

  /** The query is empty exactly when none of title, artist and album is
      truthy. */
  lemma QueryEmpty(tags: map<string, Value>)
    ensures Query(tags) == [] <==>
      !Truthy(Get(tags, "title")) && !Truthy(Get(tags, "artist")) && !Truthy(Get(tags, "album"))
  {
    var parts := QueryParts(Get(tags, "title"), Get(tags, "artist"), Get(tags, "album"));
    if parts != [] {
      JoinStartsWithFirst(parts, " AND ");
    }
  }

  /** A join starts with its first part. */
  lemma JoinStartsWithFirst(parts: seq<string>, sep: string)
    requires parts != []
    ensures |Join(parts, sep)| >= |parts[0]| && Join(parts, sep)[..|parts[0]|] == parts[0]
  {
    if |parts| > 1 {
      assert Join(parts, sep) == parts[0] + (sep + Join(parts[1..], sep));
    }
  }

  /** The year is never part of the query. */
  lemma QueryIgnoresYear(tags: map<string, Value>, year: Option<Value>)
    ensures Query(if year.Some? then tags["year" := year.value] else tags - {"year"}) == Query(tags)
  {
    var t := if year.Some? then tags["year" := year.value] else tags - {"year"};
    assert Get(t, "title") == Get(tags, "title");
    assert Get(t, "artist") == Get(tags, "artist");
    assert Get(t, "album") == Get(tags, "album");
  }

  /** The three appends of fetch_metadata_preview and the " AND " join. */
  method BuildQuery(title: Option<Value>, artist: Option<Value>, album: Option<Value>) returns (query: string)
    ensures query == Join(QueryParts(title, artist, album), " AND ")
  {
    var parts: seq<string> := [];
    if Truthy(title) {
      parts := parts + ["track:" + Display(title.value)];
    }
    ghost var first := parts;
    if Truthy(artist) {
      parts := parts + ["artist:" + Display(artist.value)];
    }
    ghost var second := parts;
    if Truthy(album) {
      parts := parts + ["release:" + Display(album.value)];
    }
    assert parts == QueryParts(title, artist, album) by {
      assert first == (if Truthy(title) then ["track:" + Display(title.value)] else []);
      assert second == first + (if Truthy(artist) then ["artist:" + Display(artist.value)] else []);
      assert parts == second + (if Truthy(album) then ["release:" + Display(album.value)] else []);
    }
    query := Join(parts, " AND ");
  }

  // ---------------------------------------------------------------------
  // The search result.

  /** One entry of a recording's release list. */
  datatype Release = Release(date: Option<string>, title: string)

  /** The first recording of a search: its first release date, its release
      list (empty when absent), its title and the artist names of its
      artist credit. */
  datatype Recording = Recording(firstReleaseDate: Option<string>, releases: seq<Release>,
                                 title: Option<string>, artists: seq<string>)

  /** The outcome of the search: it raised, or it returned a recording
      list. */
  datatype SearchResult = SearchFailed | Found(recordings: seq<Recording>)

  /** A date that is present and not blank. */
  predicate NonBlank(d: Option<string>) {
    d.Some? && Strip(d.value) != []
  }

  /** The position of the first release, from `start` on, whose date is
      not blank; the length of the list when there is none. */
  function FirstDatedFrom(releases: seq<Release>, start: nat): (i: nat)
    requires start <= |releases|
    ensures start <= i <= |releases|
    ensures i < |releases| ==> NonBlank(releases[i].date)
    ensures forall j :: start <= j < i ==> !NonBlank(releases[j].date)
    decreases |releases| - start
  {
    if start == |releases| then start
    else if NonBlank(releases[start].date) then start
    else FirstDatedFrom(releases, start + 1)
  }

  /** The position of the first release whose date is not blank. */
  function FirstDatedIndex(releases: seq<Release>): (i: nat)
    ensures i <= |releases|
  {
    FirstDatedFrom(releases, 0)
  }

  /** The first position whose date is not blank is the only one with a
      non-blank date and only blank dates before it. */
  lemma FirstDatedIndexIs(releases: seq<Release>, i: nat)
    requires i < |releases| && NonBlank(releases[i].date)
    requires forall j :: 0 <= j < i ==> !NonBlank(releases[j].date)
    ensures FirstDatedIndex(releases) == i
  {
  }

  /** The date of the first release whose date is not blank. */
  function FirstDated(releases: seq<Release>): Option<string> {
    var i := FirstDatedIndex(releases);
    if i < |releases| then releases[i].date else None
  }

  /** The date the year is read from: the first release date when it is
      not blank, else the first non-blank release date, else the (blank)
      first release date itself. */
  function YearDate(rec: Recording): (r: Option<string>)
    ensures NonBlank(r) <==> NonBlank(rec.firstReleaseDate) || exists i :: 0 <= i < |rec.releases| && NonBlank(rec.releases[i].date)
    ensures !NonBlank(rec.firstReleaseDate) && NonBlank(r) ==> r == rec.releases[FirstDatedIndex(rec.releases)].date
  {
    if NonBlank(rec.firstReleaseDate) then rec.firstReleaseDate
    else
      var d := FirstDated(rec.releases);
      if d.Some? then d else rec.firstReleaseDate
  }

  /** The year the recording supplies: int() of the first four characters
      of its date, None when the date is blank or does not parse. */
  function YearOf(rec: Recording): (r: Option<int>)
    ensures r.Some? ==> -999 <= r.value <= 9999
  {
    var d := YearDate(rec);
    if !NonBlank(d) then None
    else
      var y := ParseInt(Take(d.value, 4));
      assert y.Some? ==> -999 <= y.value <= 9999 by {
        if y.Some? {
          YearBounds(d.value);
        }
      }
      y
  }

  /** The date lookup with its breaking loop over the release list. */
  method ReleaseDate(rec: Recording) returns (date: Option<string>)
    ensures date == YearDate(rec)
  {
    date := rec.firstReleaseDate;
    if !NonBlank(date) && rec.releases != [] {
      var i := 0;
      while i < |rec.releases|
        invariant 0 <= i <= |rec.releases|
        invariant date == rec.firstReleaseDate
        invariant forall j :: 0 <= j < i ==> !NonBlank(rec.releases[j].date)
      {
        var releaseDate := rec.releases[i].date;
        if NonBlank(releaseDate) {
          FirstDatedIndexIs(rec.releases, i);
          date := releaseDate;
          break;
        }
        i := i + 1;
      }
    }
  }

  // ---------------------------------------------------------------------
  // The merge.

  /** What the recording offers for each field: the parsed year, a
      non-empty title, the first credited artist, the first release's
      title. */
  function Offered(rec: Recording, key: string): Option<Value> {
    if key == "year" then (if YearOf(rec).Some? then Some(Int(YearOf(rec).value)) else None)
    else if key == "title" then (if rec.title.Some? && rec.title.value != [] then Some(Str(rec.title.value)) else None)
    else if key == "artist" then (if rec.artists != [] then Some(Str(rec.artists[0])) else None)
    else if key == "album" then (if rec.releases != [] then Some(Str(rec.releases[0].title)) else None)
    else None
  }

  /** One `tags[key] = …` of the merge, done when the field was missing
      and the recording offers a value. */
  function FillField(t: map<string, Value>, key: string, missing: bool, v: Option<Value>): (r: map<string, Value>)
    ensures r.Keys == t.Keys + (if missing && v.Some? then {key} else {})
    ensures forall k :: k != key ==> Get(r, k) == Get(t, k)
    ensures Get(r, key) == if missing && v.Some? then v else Get(t, key)
  {
    if missing && v.Some? then t[key := v.value] else t
  }

  /** What a recording offers, as a lookup by field name. */
  function OfferOf(rec: Recording): string -> Option<Value> {
    k => Offered(rec, k)
  }

  /** The fields of `tags` that are missing or falsy, filled from what is
      offered: year, then title, then artist, then album. */
  function FillFrom(tags: map<string, Value>, offer: string -> Option<Value>): (r: map<string, Value>)
    ensures r.Keys <= tags.Keys + Fields && tags.Keys <= r.Keys
  {
    var t1 := FillField(tags, "year", !Truthy(Get(tags, "year")), offer("year"));
    var t2 := FillField(t1, "title", !Truthy(Get(tags, "title")), offer("title"));
    var t3 := FillField(t2, "artist", !Truthy(Get(tags, "artist")), offer("artist"));
    FillField(t3, "album", !Truthy(Get(tags, "album")), offer("album"))
  }

  /** Each field ends up with what is offered when it was missing and
      something is offered, and as it was otherwise. */
  lemma FillFromGet(tags: map<string, Value>, offer: string -> Option<Value>, k: string)
    ensures Get(FillFrom(tags, offer), k) ==
      if k in Fields && !Truthy(Get(tags, k)) && offer(k).Some? then offer(k) else Get(tags, k)
  {
  }

  /** The tags after fetch_metadata_preview, given the search. */
  function Filled(tags: map<string, Value>, search: string -> SearchResult): (r: map<string, Value>)
    ensures r.Keys <= tags.Keys + Fields && tags.Keys <= r.Keys
    ensures (forall k :: k in Fields ==> Truthy(Get(tags, k))) ==> r == tags
    ensures Query(tags) == [] ==> r == tags
    ensures search(Query(tags)).SearchFailed? || search(Query(tags)) == Found([]) ==> r == tags
  {
    if Truthy(Get(tags, "title")) && Truthy(Get(tags, "artist")) && Truthy(Get(tags, "album")) && Truthy(Get(tags, "year")) then tags
    else
      var q := Query(tags);
      if q == [] then tags
      else match search(q)
        case SearchFailed => tags
        case Found(recs) => if recs == [] then tags else FillFrom(tags, OfferOf(recs[0]))
  }

  /** When a field is missing, the query is not empty and the search
      finds a recording, the tags are filled from the first one. */
  lemma FilledFromFirst(tags: map<string, Value>, search: string -> SearchResult)
    requires !(forall k :: k in Fields ==> Truthy(Get(tags, k)))
    requires Query(tags) != [] && search(Query(tags)).Found? && search(Query(tags)).recordings != []
    ensures Filled(tags, search) == FillFrom(tags, OfferOf(search(Query(tags)).recordings[0]))
  {
  }

  /** A field outside the four, or one already truthy, is never
      overwritten. */
  lemma FilledKeeps(tags: map<string, Value>, search: string -> SearchResult, k: string)
    requires k !in Fields || Truthy(Get(tags, k))
    ensures Get(Filled(tags, search), k) == Get(tags, k)
  {
    var q := Query(tags);
    if search(q).Found? && search(q).recordings != [] {
      FillFromGet(tags, OfferOf(search(q).recordings[0]), k);
    }
  }

  /** With every field present nothing is searched for, and with none of
      title, artist and album present nothing can be; either way the tags
      come back as they were. */
  lemma NothingToDo(tags: map<string, Value>, search: string -> SearchResult)
    requires (forall k :: k in Fields ==> Truthy(Get(tags, k))) ||
      (!Truthy(Get(tags, "title")) && !Truthy(Get(tags, "artist")) && !Truthy(Get(tags, "album")))
    ensures Filled(tags, search) == tags
  {
    QueryEmpty(tags);
  }

  /** The year lookup of fetch_metadata_preview: the date, then int() of
      its first four characters. */
  method RecordedYear(rec: Recording) returns (year: Option<int>)
    ensures year == YearOf(rec)
  {
    var date := ReleaseDate(rec);
    year := None;
    if NonBlank(date) {
      year := ParseInt(Take(date.value, 4));
    }
  }

  /** The caller's tags dictionary, which the preview fills in place. */
  class TagDict {
    var entries: map<string, Value>

    constructor (entries: map<string, Value>)
      ensures this.entries == entries
    {
      this.entries := entries;
    }

    /** `if not <field> and <value found>: tags[key] = value` */
    method FillIn(key: string, missing: bool, v: Option<Value>)
      modifies this
      ensures entries == FillField(old(entries), key, missing, v)
    {
      if missing && v.Some? {
        entries := entries[key := v.value];
      }
    }
  }

  /** The merge of fetch_metadata_preview: each field that was missing or
      falsy takes what the recording offers, when it offers something. */
  method FillFromRecording(tags: TagDict, rec: Recording)
    modifies tags
    ensures tags.entries == FillFrom(old(tags.entries), OfferOf(rec))
  {
    var title := Get(tags.entries, "title");
    var artist := Get(tags.entries, "artist");
    var album := Get(tags.entries, "album");
    var year := Get(tags.entries, "year");
    FieldNamesDiffer();
    var found: Option<Value> := None;
    if !Truthy(year) {
      var y := RecordedYear(rec);
      if y.Some? {
        found := Some(Int(y.value));
      }
    }
    assert !Truthy(year) ==> found == Offered(rec, "year");
    tags.FillIn("year", !Truthy(year), found);
    var newTitle := if rec.title.Some? && rec.title.value != [] then Some(Str(rec.title.value)) else None;
    assert newTitle == Offered(rec, "title");
    tags.FillIn("title", !Truthy(title), newTitle);
    var newArtist := if rec.artists != [] then Some(Str(rec.artists[0])) else None;
    assert newArtist == Offered(rec, "artist");
    tags.FillIn("artist", !Truthy(artist), newArtist);
    var newAlbum := if rec.releases != [] then Some(Str(rec.releases[0].title)) else None;
    assert newAlbum == Offered(rec, "album");
    tags.FillIn("album", !Truthy(album), newAlbum);
  }

  /** fetch_metadata_preview with the tags given: the missing fields of
      `tags` are filled from the first recording the search returns. */
  method FetchMetadataPreview(tags: TagDict, search: string -> SearchResult)
    modifies tags
    ensures tags.entries == Filled(old(tags.entries), search)
  {
    var title := Get(tags.entries, "title");
    var artist := Get(tags.entries, "artist");
    var album := Get(tags.entries, "album");
    var year := Get(tags.entries, "year");
    if Truthy(title) && Truthy(artist) && Truthy(album) && Truthy(year) {
      return;
    }
    var query := BuildQuery(title, artist, album);
    if query == [] {
      return;
    }
    var result := search(query);
    if result.SearchFailed? || result.recordings == [] {
      return;
    }
    FilledFromFirst(tags.entries, search);
    FillFromRecording(tags, result.recordings[0]);
  }
}
