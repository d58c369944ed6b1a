/** The browser player (music_player_gradio/music_player_gradio.py): its tag
    reader, the playlist state that the page's buttons update, the folder
    box parser and the playlist table. Opening a file is a parameter
    `read` that gives what the tag library found in it; `os.path.isdir` is
    a parameter `isDir`; `random.sample` and `random.shuffle` are choices
    the methods make, so every ensures holds for every draw. */
module GradioPlayer {
  import opened Text
  import opened Genres
  import opened Lists

  /** A tag value as the tag library hands it over: one text, or a list of
      texts with a first entry. */
  datatype TagValue = Single(text: string) | Multi(first: string, rest: seq<string>)

  /** What opening a file gives: the open fails, the file carries no tags,
      or its tags as key/value pairs in key order. */
  datatype AudioFile = Unreadable | Untagged | Tagged(entries: seq<(string, TagValue)>)

  /** A tags dictionary of this reader: its genre list, and the text
      entries it holds ('genre', 'title', 'artist', 'album', 'lyrics',
      'lyric'). */
  datatype Tags = Tags(genres: seq<string>, fields: map<string, string>)

  /** The texts under a key, one per list entry. */
  function Texts(v: TagValue): (r: seq<string>)
    ensures |r| >= 1 && r[0] == (if v.Single? then v.text else v.first)
  {
    if v.Single? then [v.text] else [v.first] + v.rest
  }

  /** The text kept for a title-like tag: the first entry of a list. */
  function FirstText(v: TagValue): string {
    if v.Single? then v.text else v.first
  }

  /** The keys read as genres, whatever their case. */
  predicate IsGenreKey(k: string) {
    Lower(k) == "genre" || Lower(k) == "tcon"
  }

  /** The genres of several texts, split one after the other. */
  function SplitAll(vs: seq<string>): seq<string> {
    if vs == [] then [] else SplitAll(vs[..|vs| - 1]) + SplitGenres(vs[|vs| - 1])
  }

  /** The genre list of a tagged file: the split texts of every genre key,
      in key order. */
  function KeyGenres(entries: seq<(string, TagValue)>): seq<string> {
    if entries == [] then []
    else
      var last := entries[|entries| - 1];
      KeyGenres(entries[..|entries| - 1]) + (if IsGenreKey(last.0) then SplitAll(Texts(last.1)) else [])
  }

  /** The value under the last key whose lower case is `tag`: a later key
      overwrites what an earlier one set. */
  function LastValue(entries: seq<(string, TagValue)>, tag: string): (r: Option<TagValue>)
    ensures r.Some? <==> exists i :: 0 <= i < |entries| && Lower(entries[i].0) == tag
  {
    if entries == [] then None
    else if Lower(entries[|entries| - 1].0) == tag then Some(entries[|entries| - 1].1)
    else LastValue(entries[..|entries| - 1], tag)
  }

  /** The text tags looked up after the genres, in lookup order. */
  const TextTagOrder: seq<string> := ["title", "artist", "album", "lyrics", "lyric"]

  /** `tags[tag] = ...` when some key matched, nothing otherwise. */
  function Put(m: map<string, string>, tag: string, v: Option<TagValue>): map<string, string> {
    if v.Some? then m[tag := FirstText(v.value)] else m
  }

  /** The dictionary after looking up each of `tags` in turn. */
  function WithTexts(base: map<string, string>, entries: seq<(string, TagValue)>, tags: seq<string>): map<string, string> {
    if tags == [] then base
    else Put(WithTexts(base, entries, tags[..|tags| - 1]), tags[|tags| - 1], LastValue(entries, tags[|tags| - 1]))
  }

  /** The 'genre' entry: the first genre, when there is one. */
  function GenreEntry(genres: seq<string>): map<string, string> {
    if genres == [] then map[] else map["genre" := genres[0]]
  }

  /** get_tags: nothing but an empty genre list for a file that cannot be
      opened or has no tags; otherwise the genres of every genre key, the
      first of them as 'genre', and each text tag some key matched. */
  function TagsOf(f: AudioFile): (t: Tags)
    ensures !f.Tagged? ==> t == Tags([], map[])
  {
    if !f.Tagged? then Tags([], map[])
    else
      var gs := KeyGenres(f.entries);
      Tags(gs, WithTexts(GenreEntry(gs), f.entries, TextTagOrder))
  }

  lemma {:induction false} SplitAllTokens(vs: seq<string>)
    ensures forall i :: 0 <= i < |SplitAll(vs)| ==> IsGenreToken(SplitAll(vs)[i])
  {
    if vs != [] {
      SplitAllTokens(vs[..|vs| - 1]);
      SplitGenresTokens(vs[|vs| - 1]);
    }
  }

  /** Every genre read from the keys is a well-formed genre. */
  lemma {:induction false} KeyGenresTokens(entries: seq<(string, TagValue)>)
    ensures forall i :: 0 <= i < |KeyGenres(entries)| ==> IsGenreToken(KeyGenres(entries)[i])
  {
    if entries != [] {
      KeyGenresTokens(entries[..|entries| - 1]);
      SplitAllTokens(Texts(entries[|entries| - 1].1));
    }
  }

  /** Without a genre or TCON key there are no genres. */
  lemma {:induction false} KeyGenresNone(entries: seq<(string, TagValue)>)
    requires forall i :: 0 <= i < |entries| ==> !IsGenreKey(entries[i].0)
    ensures KeyGenres(entries) == []
  {
    if entries != [] {
      KeyGenresNone(entries[..|entries| - 1]);
    }
  }

  /** Looking up text tags sets exactly the tags some key matched, each to
      the first text of the last matching key, and leaves the other
      entries as they were. */
  lemma {:induction false} WithTextsEntries(base: map<string, string>, entries: seq<(string, TagValue)>, tags: seq<string>)
    ensures forall k :: k in WithTexts(base, entries, tags) <==> k in base || (k in tags && LastValue(entries, k).Some?)
    ensures forall k :: k in tags && LastValue(entries, k).Some? ==>
      WithTexts(base, entries, tags)[k] == FirstText(LastValue(entries, k).value)
    ensures forall k :: k in base && !(k in tags && LastValue(entries, k).Some?) ==>
      WithTexts(base, entries, tags)[k] == base[k]
  {
    if tags != [] {
      WithTextsEntries(base, entries, tags[..|tags| - 1]);
      assert tags == tags[..|tags| - 1] + [tags[|tags| - 1]];
    }
  }

  /** What get_tags promises: the genres are the well-formed split of the
      genre keys, 'genre' is present exactly when there is a genre and is
      then the first one, and a text tag is present exactly when some key
      matches it, holding the first text of the last such key. */
  lemma TagsOfEntries(f: AudioFile)
    requires f.Tagged?
    ensures TagsOf(f).genres == KeyGenres(f.entries)
    ensures forall i :: 0 <= i < |TagsOf(f).genres| ==> IsGenreToken(TagsOf(f).genres[i])
    ensures "genre" in TagsOf(f).fields <==> TagsOf(f).genres != []
    ensures TagsOf(f).genres != [] ==> TagsOf(f).fields["genre"] == TagsOf(f).genres[0]
    ensures forall k :: k in TextTagOrder ==>
      (k in TagsOf(f).fields <==> LastValue(f.entries, k).Some?)
    ensures forall k :: k in TextTagOrder && LastValue(f.entries, k).Some? ==>
      TagsOf(f).fields[k] == FirstText(LastValue(f.entries, k).value)
    ensures forall k :: k in TagsOf(f).fields ==> k == "genre" || k in TextTagOrder
  {
    KeyGenresTokens(f.entries);
    var gs := KeyGenres(f.entries);
    WithTextsEntries(GenreEntry(gs), f.entries, TextTagOrder);
    assert "genre" !in TextTagOrder;
  }

  /** Every genre get_tags gives is well formed. */
  lemma TagsOfTokens(f: AudioFile)
    ensures forall i :: 0 <= i < |TagsOf(f).genres| ==> IsGenreToken(TagsOf(f).genres[i])
  {
    if f.Tagged? {
      KeyGenresTokens(f.entries);
    }
  }

  lemma SplitAllStep(vs: seq<string>, j: int)
    requires 0 <= j < |vs|
    ensures SplitAll(vs[..j + 1]) == SplitAll(vs[..j]) + SplitGenres(vs[j])
  {
    assert vs[..j + 1][..j] == vs[..j];
  }

  lemma SplitAllOne(t: string)
    ensures SplitAll([t]) == SplitGenres(t)
  {
    assert [t][..0] == [];
  }

  lemma KeyGenresStep(entries: seq<(string, TagValue)>, i: int)
    requires 0 <= i < |entries|
    ensures KeyGenres(entries[..i + 1]) ==
      KeyGenres(entries[..i]) + (if IsGenreKey(entries[i].0) then SplitAll(Texts(entries[i].1)) else [])
  {
    assert entries[..i + 1][..i] == entries[..i];
  }

  /** `for v in val: genres.extend(...)`: the split of each text, one
      after the other, added at the end. */
  method ExtendGenres(genres: seq<string>, vs: seq<string>) returns (r: seq<string>)
    ensures r == genres + SplitAll(vs)
  {
    r := genres;
    var j := 0;
    while j < |vs|
      invariant 0 <= j <= |vs|
      invariant r == genres + SplitAll(vs[..j])
    {
      SplitAllStep(vs, j);
      AppendAssoc(genres, SplitAll(vs[..j]), SplitGenres(vs[j]));
      r := r + SplitGenres(vs[j]);
      j := j + 1;
    }
    assert vs[..j] == vs;
  }

  /** One key of the genre loop: a genre or TCON key adds the split of its
      text, or of each text of its list; any other key adds nothing. */
  method AddKeyGenres(genres: seq<string>, key: string, val: TagValue) returns (r: seq<string>)
    ensures r == genres + (if IsGenreKey(key) then SplitAll(Texts(val)) else [])
  {
    r := genres;
    if IsGenreKey(key) {
      if val.Multi? {
        r := ExtendGenres(genres, Texts(val));
      } else {
        SplitAllOne(val.text);
        r := genres + SplitGenres(val.text);
      }
    } else {
      assert genres + [] == genres;
    }
  }

  /** The genre loop of get_tags, over the keys in order. */
  method CollectGenres(entries: seq<(string, TagValue)>) returns (genres: seq<string>)
    ensures genres == KeyGenres(entries)
    ensures forall i :: 0 <= i < |genres| ==> IsGenreToken(genres[i])
  {
    genres := [];
    var i := 0;
    while i < |entries|
      invariant 0 <= i <= |entries|
      invariant genres == KeyGenres(entries[..i])
    {
      KeyGenresStep(entries, i);
      genres := AddKeyGenres(genres, entries[i].0, entries[i].1);
      i := i + 1;
    }
    assert entries[..i] == entries;
    KeyGenresTokens(entries);
  }

  /** The text-tag loop of get_tags: for each tag in turn, every key whose
      lower case is the tag writes its first text. */
  method CollectTexts(base: map<string, string>, entries: seq<(string, TagValue)>) returns (fields: map<string, string>)
    ensures fields == WithTexts(base, entries, TextTagOrder)
  {
    fields := base;
    var t := 0;
    while t < |TextTagOrder|
      invariant 0 <= t <= |TextTagOrder|
      invariant fields == WithTexts(base, entries, TextTagOrder[..t])
    {
      var tag := TextTagOrder[t];
      ghost var start := fields;
      var j := 0;
      while j < |entries|
        invariant 0 <= j <= |entries|
        invariant fields == Put(start, tag, LastValue(entries[..j], tag))
      {
        ghost var next := entries[..j + 1];
        assert next[..j] == entries[..j] && next[j] == entries[j];
        if Lower(entries[j].0) == tag {
          fields := fields[tag := FirstText(entries[j].1)];
        }
        j := j + 1;
        assert entries[..j] == next;
      }
      assert entries[..j] == entries;
      ghost var done := TextTagOrder[..t + 1];
      assert done[..t] == TextTagOrder[..t] && done[t] == tag;
      t := t + 1;
    }
    assert TextTagOrder[..t] == TextTagOrder;
  }

  /** get_tags, step by step. */
  method ReadTags(f: AudioFile) returns (t: Tags)
    ensures t == TagsOf(f)
  {
    if !f.Tagged? {
      return Tags([], map[]);
    }
    var genres := CollectGenres(f.entries);
    var fields: map<string, string> := map[];
    if genres != [] {
      fields := fields["genre" := genres[0]];
    }
    fields := CollectTexts(fields, f.entries);
    t := Tags(genres, fields);
  }

  /** The count box of pick_songs: an integer, or text that is none. */
  datatype CountInput = Int(n: int) | NotInt

  /** `int(n)`, with 10 for text that is no integer and for a count that
      is not positive. */
  function PickSize(c: CountInput): (n: int)
    ensures n >= 1
    ensures c.Int? && c.n >= 1 ==> n == c.n
    ensures !(c.Int? && c.n >= 1) ==> n == 10
  {
    if c.NotInt? || c.n <= 0 then 10 else c.n
  }

  /** A file meets the request when it is in the tags cache and one of its
      cached genres was asked for. */
  predicate Wanted(cache: map<string, Tags>, f: string, request: seq<string>) {
    f in cache && exists i :: 0 <= i < |request| && request[i] in cache[f].genres
  }

  /** The files that meet the request, in library order. */
  function Requested(files: seq<string>, cache: map<string, Tags>, request: seq<string>): seq<string> {
    if files == [] then []
    else
      Requested(files[..|files| - 1], cache, request) +
      (if Wanted(cache, files[|files| - 1], request) then [files[|files| - 1]] else [])
  }

  /** The pool of pick_songs and filter_by_genre: every file when nothing is
      asked for, else the files that meet the request. */
  function PoolOf(files: seq<string>, cache: map<string, Tags>, request: seq<string>): seq<string> {
    if request == [] then files else Requested(files, cache, request)
  }

  /** A file is in the filtered list iff it is in the library and meets the
      request; so a file the cache does not know never is. The filter keeps
      a list without repeats free of them. */
  lemma {:induction false} RequestedMembers(files: seq<string>, cache: map<string, Tags>, request: seq<string>)
    ensures forall f :: f in Requested(files, cache, request) <==> f in files && Wanted(cache, f, request)
    ensures |Requested(files, cache, request)| <= |files|
    ensures Distinct(files) ==> Distinct(Requested(files, cache, request))
  {
    if files != [] {
      var init := files[..|files| - 1];
      assert files == init + [files[|files| - 1]];
      RequestedMembers(init, cache, request);
    }
  }

  /** The filter keeps library order: filtering two parts one after the
      other is filtering the whole. */
  lemma {:induction false} RequestedAppend(a: seq<string>, b: seq<string>, cache: map<string, Tags>, request: seq<string>)
    ensures Requested(a + b, cache, request) == Requested(a, cache, request) + Requested(b, cache, request)
  {
    if b == [] {
      assert a + b == a;
    } else {
      var init := b[..|b| - 1];
      RequestedAppend(a, init, cache, request);
      assert (a + b)[..|a + b| - 1] == a + init;
    }
  }

  /** With nothing asked for, the pool is the library; otherwise a file is in
      the pool iff it meets the request. */
  lemma PoolMembers(files: seq<string>, cache: map<string, Tags>, request: seq<string>)
    ensures request == [] ==> PoolOf(files, cache, request) == files
    ensures request != [] ==>
      forall f :: f in PoolOf(files, cache, request) <==> f in files && Wanted(cache, f, request)
    ensures Distinct(files) ==> Distinct(PoolOf(files, cache, request))
  {
    RequestedMembers(files, cache, request);
  }

  /** One row of the playlist table. */
  datatype Row = Row(number: int, title: string, artist: string, album: string, genres: string)

  /** `tags.get(key, default)` */
  function Field(t: Tags, key: string, default: string): string {
    if key in t.fields then t.fields[key] else default
  }

  /** The tags shown for a file: the cached ones, or a fresh read. */
  function TagsFor(cache: map<string, Tags>, read: string -> AudioFile, f: string): Tags {
    if f in cache then cache[f] else TagsOf(read(f))
  }

  /** TagsFor as a lookup. */
  function TagsLookup(cache: map<string, Tags>, read: string -> AudioFile): string -> Tags {
    f => TagsFor(cache, read, f)
  }

  /** Row `idx` of the table, for file f with tags t. */
  function RowOf(idx: int, f: string, t: Tags): Row {
    Row(idx + 1, Field(t, "title", Basename(f)), Field(t, "artist", ""), Field(t, "album", ""), Join(t.genres, ", "))
  }

  /** get_playlist_table: one row per playlist entry, in playlist order,
      from the tags `tagsOf` gives for the entry. */
  function Table(pl: seq<string>, tagsOf: string -> Tags): (rows: seq<Row>)
    ensures |rows| == |pl|
  {
    seq(|pl|, i requires 0 <= i < |pl| => RowOf(i, pl[i], tagsOf(pl[i])))
  }

  /** Row i is numbered i + 1 and shows the title, or the file's base name
      when the tags have none, and the artist and album or blanks. */
  lemma TableRow(pl: seq<string>, cache: map<string, Tags>, read: string -> AudioFile, i: int)
    requires 0 <= i < |pl|
    ensures |Table(pl, TagsLookup(cache, read))| == |pl|
    ensures var t := TagsFor(cache, read, pl[i]);
      var row := Table(pl, TagsLookup(cache, read))[i];
      row.number == i + 1 &&
      (row.title == if "title" in t.fields then t.fields["title"] else Basename(pl[i])) &&
      (row.artist == if "artist" in t.fields then t.fields["artist"] else "") &&
      (row.album == if "album" in t.fields then t.fields["album"] else "")
  {
  }

  /** Every cached genre list is made of well-formed genres, as get_tags
      makes them. */
  predicate CacheTokens(cache: map<string, Tags>) {
    forall f, i :: f in cache && 0 <= i < |cache[f].genres| ==> IsGenreToken(cache[f].genres[i])
  }

  /** The genre cell of a row splits back into the file's genre list. */
  lemma TableGenresRoundTrip(pl: seq<string>, cache: map<string, Tags>, read: string -> AudioFile, i: int)
    requires CacheTokens(cache) && 0 <= i < |pl|
    ensures |Table(pl, TagsLookup(cache, read))| == |pl|
    ensures SplitGenres(Table(pl, TagsLookup(cache, read))[i].genres) == TagsFor(cache, read, pl[i]).genres
  {
    var t := TagsFor(cache, read, pl[i]);
    if pl[i] !in cache {
      TagsOfTokens(read(pl[i]));
    }
    assert ", " == [',', ' '];
    SplitGenresOfSpacedJoin(t.genres, ',', ' ');
  }

  /** The folder box separators. */
  predicate IsFolderSep(c: char) {
    c == ';' || c == ','
  }

  /** `[p for p in paths if os.path.isdir(p)]` */
  function KeepDirs(ps: seq<string>, isDir: string -> bool): seq<string> {
    if ps == [] then []
    else KeepDirs(ps[..|ps| - 1], isDir) + (if isDir(ps[|ps| - 1]) then [ps[|ps| - 1]] else [])
  }

  lemma {:induction false} KeepDirsMembers(ps: seq<string>, isDir: string -> bool)
    ensures forall p :: p in KeepDirs(ps, isDir) <==> p in ps && isDir(p)
    ensures (forall i :: 0 <= i < |ps| ==> isDir(ps[i])) ==> KeepDirs(ps, isDir) == ps
  {
    if ps != [] {
      KeepDirsMembers(ps[..|ps| - 1], isDir);
      assert ps == ps[..|ps| - 1] + [ps[|ps| - 1]];
    }
  }

  /** parse_folder_input: nothing for an empty box; else the pieces between
      ';' and ',', stripped, without the blank ones and the ones that are
      no directory, in the order typed. */
  function ParseFolderInput(input: string, isDir: string -> bool): seq<string> {
    if input == [] then [] else KeepDirs(Clean(SplitEach(input, IsFolderSep)), isDir)
  }

  /** Every parsed folder is non-empty, stripped, free of separators and a
      directory. */
  lemma ParseFolderInputPieces(input: string, isDir: string -> bool)
    ensures input == [] ==> ParseFolderInput(input, isDir) == []
    ensures forall i :: 0 <= i < |ParseFolderInput(input, isDir)| ==>
      var p := ParseFolderInput(input, isDir)[i];
      p != [] && IsStripped(p) && isDir(p) && forall j :: 0 <= j < |p| ==> !IsFolderSep(p[j])
  {
    if input != [] {
      var pieces := SplitEach(input, IsFolderSep);
      CleanAvoids(pieces, IsFolderSep);
      KeepDirsMembers(Clean(pieces), isDir);
      forall i | 0 <= i < |ParseFolderInput(input, isDir)|
        ensures var p := ParseFolderInput(input, isDir)[i];
          p != [] && IsStripped(p) && isDir(p) && forall j :: 0 <= j < |p| ==> !IsFolderSep(p[j])
      {
        var p := ParseFolderInput(input, isDir)[i];
        assert p in Clean(pieces);
      }
    }
  }

  /** Round trip: directories typed with one separator between them parse
      back into the same list. */
  lemma ParseFolderInputOfJoin(ps: seq<string>, c: char, isDir: string -> bool)
    requires IsFolderSep(c) && ps != []
    requires forall i :: 0 <= i < |ps| ==> ps[i] != [] && IsStripped(ps[i]) && isDir(ps[i])
    requires forall i, j :: 0 <= i < |ps| && 0 <= j < |ps[i]| ==> !IsFolderSep(ps[i][j])
    ensures ParseFolderInput(Join(ps, [c]), isDir) == ps
  {
    SplitEachOfJoin(ps, c, IsFolderSep);
    CleanOfClean(ps);
    KeepDirsMembers(ps, isDir);
    JoinNonEmpty(ps, [c]);
  }

  lemma JoinNonEmpty(ps: seq<string>, sep: string)
    requires ps != [] && ps[0] != []
    ensures Join(ps, sep) != []
  {
    if |ps| > 1 {
      assert Join(ps, sep) == ps[0] + sep + Join(ps[1..], sep);
    }
  }

  /** The browser player's state: the library, the playlist with its
      cursor, the genres last filtered on and the tags cache. */
  class MusicPlayerGradio {
    var audioFiles: seq<string>
    var playlist: seq<string>
    var current: int
    var genreFilter: set<string>
    var tagsCache: map<string, Tags>

    /** The cursor points into the playlist, or is 0 for an empty one. */
    predicate Valid()
      reads this
    {
      0 <= current && (current < |playlist| || current == 0)
    }

    constructor ()
      ensures audioFiles == [] && playlist == [] && current == 0
      ensures genreFilter == {} && tagsCache == map[]
      ensures Valid()
    {
      audioFiles := [];
      playlist := [];
      current := 0;
      genreFilter := {};
      tagsCache := map[];
    }

    /** pick_songs: the pool copied in order when it has at most n files,
        else n of its files drawn at distinct places; the cursor goes back
        to the start. */
    method PickSongs(count: CountInput, request: seq<string>)
      modifies this`playlist, this`current
      ensures current == 0 && Valid()
      ensures var pool := PoolOf(audioFiles, tagsCache, request);
        (|pool| <= PickSize(count) ==> playlist == pool) &&
        (|pool| > PickSize(count) ==> |playlist| == PickSize(count) && multiset(playlist) <= multiset(pool))
      ensures forall f :: f in playlist ==> f in PoolOf(audioFiles, tagsCache, request)
      ensures Distinct(audioFiles) ==> Distinct(playlist)
    {
      var n := PickSize(count);
      var pool := if request == [] then audioFiles else Requested(audioFiles, tagsCache, request);
      PoolMembers(audioFiles, tagsCache, request);
      if |pool| <= n {
        playlist := pool;
      } else {
        assert pool == pool[..n] + pool[n..];
        assert multiset(pool[..n]) <= multiset(pool);
        var sample :| |sample| == n && multiset(sample) <= multiset(pool);
        forall f | f in sample ensures f in pool {
          assert f in multiset(sample);
        }
        if Distinct(audioFiles) {
          DistinctSub(sample, pool);
        }
        playlist := sample;
      }
      current := 0;
    }

    /** filter_by_genre: remembers the request (none counts as empty) and
        shuffles the pool into the playlist; the cursor goes back to the
        start. */
    method FilterByGenre(request: Option<seq<string>>)
      modifies this`genreFilter, this`playlist, this`current
      ensures var req := if request.Some? then request.value else [];
        genreFilter == (set g | g in req) &&
        multiset(playlist) == multiset(PoolOf(audioFiles, tagsCache, req))
      ensures current == 0 && Valid()
    {
      var req := if request.None? then [] else request.value;
      genreFilter := set g | g in req;
      var pool := if req == [] then audioFiles else Requested(audioFiles, tagsCache, req);
      var shuffled :| multiset(shuffled) == multiset(pool);
      playlist := shuffled;
      current := 0;
    }

    /** The file play() starts: none for an empty playlist. */
    function Playing(): (song: Option<string>)
      requires Valid()
      reads this
      ensures song.None? <==> playlist == []
      ensures song.Some? ==> song.value in playlist
    {
      if playlist == [] then None else Some(playlist[current])
    }

    /** next: one step forward, stopping at the last song; an empty
        playlist plays nothing. */
    method Next() returns (song: Option<string>)
      requires Valid()
      modifies this`current
      ensures Valid()
      ensures current == (if old(current) < |playlist| - 1 then old(current) + 1 else old(current))
      ensures song == Playing()
    {
      if playlist == [] {
        return None;
      }
      if current < |playlist| - 1 {
        current := current + 1;
      }
      song := Some(playlist[current]);
    }

    /** prev: one step back, stopping at the first song; an empty playlist
        plays nothing. */
    method Prev() returns (song: Option<string>)
      requires Valid()
      modifies this`current
      ensures Valid()
      ensures current == (if playlist != [] && old(current) > 0 then old(current) - 1 else old(current))
      ensures song == Playing()
    {
      if playlist == [] {
        return None;
      }
      if current > 0 {
        current := current - 1;
      }
      song := Some(playlist[current]);
    }

    /** play(selected_index): a 1-based row number within the playlist moves
        the cursor to that row; any other selection, or none, leaves it. */
    method PlayAt(selected: Option<int>) returns (song: Option<string>)
      requires Valid()
      modifies this`current
      ensures Valid()
      ensures selected.Some? && 1 <= selected.value <= |playlist| ==> current == selected.value - 1
      ensures !(selected.Some? && 1 <= selected.value <= |playlist|) ==> current == old(current)
      ensures song == Playing()
    {
      if selected.Some? {
        var idx := selected.value - 1;
        if 0 <= idx < |playlist| {
          current := idx;
        }
      }
      song := Playing();
    }

    /** get_playlist_table, reading the tags of files the cache lacks. */
    method PlaylistTable(read: string -> AudioFile) returns (rows: seq<Row>)
      ensures rows == Table(playlist, TagsLookup(tagsCache, read))
    {
      rows := [];
      var i := 0;
      while i < |playlist|
        invariant 0 <= i <= |playlist|
        invariant rows == Table(playlist, TagsLookup(tagsCache, read))[..i]
      {
        var f := playlist[i];
        var tags: Tags;
        if f in tagsCache {
          tags := tagsCache[f];
        } else {
          tags := ReadTags(read(f));
        }
        ghost var table := Table(playlist, TagsLookup(tagsCache, read));
        assert table[i] == RowOf(i, f, tags);
        PrefixStep(table, i);
        rows := rows + [RowOf(i, f, tags)];
        i := i + 1;
      }
      assert Table(playlist, TagsLookup(tagsCache, read))[..i] == Table(playlist, TagsLookup(tagsCache, read));
    }
  }
}
