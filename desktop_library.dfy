/** The value-level part of the desktop player (music_player.py): what a tag
    read gives, the tags cache and its lookups, the genre pool, the artist
    of a file, the per-artist cap arithmetic, the folder-list helpers and the
    lyric newline clean-up. The class that updates these in place is in
    desktop_player.dfy. */
module DesktopLibrary {
  import opened Text
  import opened Genres
  import opened Lists

  /** What the tag library makes of one file. `Corrupt` is a file whose
      read raises; `NotAudio` is one it does not recognise (`File` gives
      None); `Audio` carries, for every tag whose value is non-empty, the
      text of its first value. */
  datatype AudioRead = Corrupt | NotAudio | Audio(raw: map<string, string>)

  /** A tags dictionary as get_tags builds it: `NoTags` is the empty
      dictionary returned for a non-audio file; otherwise the common text
      tags that were present, and the split genre list. */
  datatype Tags = NoTags | Tags(fields: map<string, string>, genres: seq<string>)

  /** The tag names get_tags copies. */
  predicate IsCommonTag(k: string) {
    k == "title" || k == "artist" || k == "album" || k == "genre" || k == "lyrics" || k == "lyric"
  }

  /** get_tags: None when the read raises. */
  function GetTags(a: AudioRead): (r: Option<Tags>)
    ensures r.None? <==> a.Corrupt?
  {
    match a
    case Corrupt => None
    case NotAudio => Some(NoTags)
    case Audio(raw) =>
      var fields := map k | k in raw && IsCommonTag(k) :: raw[k];
      Some(Tags(fields, if "genre" in raw then SplitGenres(raw["genre"]) else []))
  }

  /** The genre list of a read file: split from its genre tag, and empty when
      the file has no genre tag or is not audio. */
  lemma GetTagsGenres(a: AudioRead)
    requires a.Audio? || a.NotAudio?
    ensures GetTags(a).Some?
    ensures var gs := GenresOf(GetTags(a).value);
      (forall i :: 0 <= i < |gs| ==> IsGenreToken(gs[i])) &&
      SplitGenres(Join(gs, ";")) == gs &&
      (a.Audio? && "genre" in a.raw ==> gs == SplitGenres(a.raw["genre"])) &&
      (a.NotAudio? || "genre" !in a.raw ==> gs == [])
  {
    if a.Audio? && "genre" in a.raw {
      SplitGenresTokens(a.raw["genre"]);
      SplitGenresOfJoin(SplitGenres(a.raw["genre"]));
    } else {
      SplitGenresOfJoin([]);
    }
  }

  /** `tags.get('genres', [])` */
  function GenresOf(t: Tags): seq<string> {
    if t.NoTags? then [] else t.genres
  }

  /** `tags.get('artist', '')` */
  function ArtistField(t: Tags): string {
    if t.Tags? && "artist" in t.fields then t.fields["artist"] else ""
  }

  /** `tags.get('artist', '').strip() or 'Unknown Artist'`: never blank. */
  function ArtistName(t: Tags): (a: string)
    ensures a != [] && IsStripped(a)
    ensures Strip(ArtistField(t)) != [] ==> a == Strip(ArtistField(t))
  {
    var s := Strip(ArtistField(t));
    if s == [] then "Unknown Artist" else s
  }

  /** The cached entry of `f`, or a fresh read of it when it is not cached. */
  function Lookup(cache: map<string, Tags>, read: string -> AudioRead, f: string): Option<Tags> {
    if f in cache then Some(cache[f]) else GetTags(read(f))
  }

  /** Readable files of `fs` that the cache does not hold yet. */
  function Missing(cache: map<string, Tags>, fs: seq<string>, read: string -> AudioRead): set<string> {
    set f | f in fs && f !in cache && GetTags(read(f)).Some?
  }

  /** The cache after get-or-extract over `fs`: every old entry kept as it
      was, and one entry added for each readable file that was missing. */
  function MemoCache(cache: map<string, Tags>, fs: seq<string>, read: string -> AudioRead): (c: map<string, Tags>)
    ensures c.Keys == cache.Keys + Missing(cache, fs, read)
  {
    map k | k in cache.Keys + Missing(cache, fs, read) :: if k in cache then cache[k] else GetTags(read(k)).value
  }

  /** Memoising changes no lookup: a cached entry and a fresh read agree. */
  lemma MemoLookup(cache: map<string, Tags>, fs: seq<string>, read: string -> AudioRead, f: string)
    ensures Lookup(MemoCache(cache, fs, read), read, f) == Lookup(cache, read, f)
  {
  }

  /** Memoising twice over the same files is memoising once. */
  lemma MemoTwice(cache: map<string, Tags>, fs: seq<string>, read: string -> AudioRead)
    ensures MemoCache(MemoCache(cache, fs, read), fs, read) == MemoCache(cache, fs, read)
  {
    var once := MemoCache(cache, fs, read);
    assert Missing(once, fs, read) == {};
  }

  /** One more get-or-extract step: a file that is cached or unreadable
      leaves the cache as it is, any other gets its entry. */
  lemma MemoStep(cache: map<string, Tags>, fs: seq<string>, f: string, read: string -> AudioRead)
    ensures var m := MemoCache(cache, fs, read);
      MemoCache(cache, fs + [f], read) ==
        if f in m || GetTags(read(f)).None? then m else m[f := GetTags(read(f)).value]
  {
    MissingStep(cache, fs, f, read);
  }

  /** After get-or-extract over `fs`, no readable file of `fs` is missing. */
  lemma MemoComplete(cache: map<string, Tags>, fs: seq<string>, read: string -> AudioRead)
    ensures Missing(MemoCache(cache, fs, read), fs, read) == {}
  {
  }

  lemma MissingStep(cache: map<string, Tags>, fs: seq<string>, f: string, read: string -> AudioRead)
    ensures Missing(cache, fs + [f], read) ==
      Missing(cache, fs, read) + (if f !in cache && GetTags(read(f)).Some? then {f} else {})
  {
  }

  /** MemoStep and MissingStep for the prefix of length i + 1, and the
      lookup of the next file, as a loop over `fs` needs them. */
  lemma MemoStepAt(cache: map<string, Tags>, fs: seq<string>, i: int, read: string -> AudioRead)
    requires 0 <= i < |fs|
    ensures var m := MemoCache(cache, fs[..i], read);
      MemoCache(cache, fs[..i + 1], read) ==
        (if fs[i] in m || GetTags(read(fs[i])).None? then m else m[fs[i] := GetTags(read(fs[i])).value])
    ensures Missing(cache, fs[..i + 1], read) ==
      Missing(cache, fs[..i], read) + (if fs[i] !in cache && GetTags(read(fs[i])).Some? then {fs[i]} else {})
    ensures Lookup(MemoCache(cache, fs[..i], read), read, fs[i]) == Lookup(cache, read, fs[i])
  {
    assert fs[..i + 1] == fs[..i] + [fs[i]];
    MemoStep(cache, fs[..i], fs[i], read);
    MissingStep(cache, fs[..i], fs[i], read);
    MemoLookup(cache, fs[..i], read, fs[i]);
  }

  /** Every genre of the readable files of `fs`: the set a scan collects. */
  function AllGenres(fs: seq<string>, cache: map<string, Tags>, read: string -> AudioRead): set<string> {
    if fs == [] then {}
    else
      var t := Lookup(cache, read, fs[|fs| - 1]);
      AllGenres(fs[..|fs| - 1], cache, read) + (if t.None? then {} else set g | g in GenresOf(t.value))
  }

  lemma AllGenresAt(fs: seq<string>, i: int, cache: map<string, Tags>, read: string -> AudioRead)
    requires 0 <= i < |fs|
    ensures var t := Lookup(cache, read, fs[i]);
      AllGenres(fs[..i + 1], cache, read) ==
        AllGenres(fs[..i], cache, read) + (if t.None? then {} else set g | g in GenresOf(t.value))
  {
    assert fs[..i + 1][..i] == fs[..i];
  }

  lemma MatchingAt(fs: seq<string>, i: int, cache: map<string, Tags>, read: string -> AudioRead, selected: seq<string>)
    requires 0 <= i < |fs|
    ensures Matching(fs[..i + 1], cache, read, selected) ==
      Matching(fs[..i], cache, read, selected) + (if Matches(cache, read, selected, fs[i]) then [fs[i]] else [])
  {
    assert fs[..i + 1][..i] == fs[..i];
  }

  /** A memoised cache collects the same genres as the cache it came from. */
  lemma {:induction false} AllGenresMemo(fs: seq<string>, cache: map<string, Tags>, gs: seq<string>, read: string -> AudioRead)
    ensures AllGenres(fs, MemoCache(cache, gs, read), read) == AllGenres(fs, cache, read)
  {
    if fs != [] {
      AllGenresMemo(fs[..|fs| - 1], cache, gs, read);
      MemoLookup(cache, gs, read, fs[|fs| - 1]);
    }
  }

  /** `any(g in selected for g in genres)` */
  predicate AnyTicked(gs: seq<string>, selected: seq<string>) {
    exists i :: 0 <= i < |gs| && gs[i] in selected
  }

  /** A file belongs to the pool of the ticked genres: its tags can be had
      and one of its genres is ticked. */
  predicate Matches(cache: map<string, Tags>, read: string -> AudioRead, selected: seq<string>, f: string) {
    var t := Lookup(cache, read, f);
    t.Some? && AnyTicked(GenresOf(t.value), selected)
  }

  /** The matching files of `fs`, in order. */
  function Matching(fs: seq<string>, cache: map<string, Tags>, read: string -> AudioRead, selected: seq<string>): seq<string> {
    if fs == [] then []
    else
      var last := fs[|fs| - 1];
      Matching(fs[..|fs| - 1], cache, read, selected) + (if Matches(cache, read, selected, last) then [last] else [])
  }

  /** The pool pick_songs draws from and the song-count label counts: every
      file when no genre is ticked, else the matching files. */
  function Pool(files: seq<string>, cache: map<string, Tags>, read: string -> AudioRead, selected: seq<string>): seq<string> {
    if selected == [] then files else Matching(files, cache, read, selected)
  }

  /** A file is in the pool of ticked genres exactly when it is one of the
      files and it matches; the pool keeps the files' order, so distinct
      files give a distinct pool. */
  lemma {:induction false} MatchingMembers(fs: seq<string>, cache: map<string, Tags>, read: string -> AudioRead, selected: seq<string>)
    ensures |Matching(fs, cache, read, selected)| <= |fs|
    ensures forall f :: f in Matching(fs, cache, read, selected) <==> f in fs && Matches(cache, read, selected, f)
    ensures Distinct(fs) ==> Distinct(Matching(fs, cache, read, selected))
  {
    if fs != [] {
      var init := fs[..|fs| - 1];
      MatchingMembers(init, cache, read, selected);
      assert fs == init + [fs[|fs| - 1]];
    }
  }

  /** A memoised cache gives the same pool as the cache it came from. */
  lemma {:induction false} MatchingMemo(fs: seq<string>, cache: map<string, Tags>, gs: seq<string>, read: string -> AudioRead, selected: seq<string>)
    ensures Matching(fs, MemoCache(cache, gs, read), read, selected) == Matching(fs, cache, read, selected)
  {
    if fs != [] {
      MatchingMemo(fs[..|fs| - 1], cache, gs, read, selected);
      MemoLookup(cache, gs, read, fs[|fs| - 1]);
    }
  }

  /** The artist pick_songs files `f` under: the cache entry when it is a
      non-empty dictionary, otherwise a fresh read (which is not stored);
      None when that read raises. */
  function ArtistOf(cache: map<string, Tags>, read: string -> AudioRead, f: string): Option<string> {
    var t := if f in cache && cache[f] != NoTags then Some(cache[f]) else GetTags(read(f));
    if t.None? then None else Some(ArtistName(t.value))
  }

  /** The files of `pool` filed under artist `a`, in pool order. */
  function FilesOf(pool: seq<string>, artistOf: string -> Option<string>, a: string): seq<string> {
    if pool == [] then []
    else
      var last := pool[|pool| - 1];
      FilesOf(pool[..|pool| - 1], artistOf, a) + (if artistOf(last) == Some(a) then [last] else [])
  }

  /** An artist's files are exactly the pool files filed under it, and
      there are no more of them than pool files. */
  lemma {:induction false} FilesOfMembers(pool: seq<string>, artistOf: string -> Option<string>, a: string)
    ensures |FilesOf(pool, artistOf, a)| <= |pool|
    ensures forall f :: f in FilesOf(pool, artistOf, a) <==> f in pool && artistOf(f) == Some(a)
  {
    if pool != [] {
      var last := pool[|pool| - 1];
      assert pool == pool[..|pool| - 1] + [last];
      FilesOfMembers(pool[..|pool| - 1], artistOf, a);
    }
  }

  lemma FilesOfAt(pool: seq<string>, i: int, artistOf: string -> Option<string>, a: string)
    requires 0 <= i < |pool|
    ensures FilesOf(pool[..i + 1], artistOf, a) ==
      FilesOf(pool[..i], artistOf, a) + (if artistOf(pool[i]) == Some(a) then [pool[i]] else [])
  {
    assert pool[..i + 1][..i] == pool[..i];
  }

  /** `max(1, int(math.ceil(0.6 * n)))`: the least whole number no smaller
      than three fifths of n, and never below 1. */
  function MaxPerArtist(n: int): (m: int)
    ensures m >= 1
    ensures n >= 1 ==> 5 * (m - 1) < 3 * n <= 5 * m
    ensures m == 1 <==> n <= 1
  {
    var c := (3 * n + 4) / 5;
    if c < 1 then 1 else c
  }

  /** `lst.count(x)` */
  function Count(s: seq<string>, x: string): nat {
    if s == [] then 0 else Count(s[..|s| - 1], x) + (if s[|s| - 1] == x then 1 else 0)
  }

  /** A value that is not in the list is counted zero times: the cap test
      `playlist.count(artist)` is 0 while no path in the playlist is spelt
      like the artist. */
  lemma {:induction false} CountAbsent(s: seq<string>, x: string)
    requires x !in s
    ensures Count(s, x) == 0
  {
    if s != [] {
      CountAbsent(s[..|s| - 1], x);
    }
  }

  /** A path just appended that was not in the playlist before is counted
      once: the test `playlist.count(song) >= max_per_artist` holds only when
      the cap is 1. */
  lemma CountFresh(s: seq<string>, x: string, n: int)
    requires x !in s
    ensures Count(s + [x], x) == 1
    ensures Count(s + [x], x) >= MaxPerArtist(n) <==> n <= 1
  {
    assert (s + [x])[..|s|] == s;
    CountAbsent(s, x);
  }

  /** The folder list after `add_selected`: each chosen folder not yet
      listed is appended, in the order chosen. */
  function AppendNew(folders: seq<string>, chosen: seq<string>): seq<string> {
    if chosen == [] then folders
    else
      var before := AppendNew(folders, chosen[..|chosen| - 1]);
      var f := chosen[|chosen| - 1];
      if f in before then before else before + [f]
  }

  /** Adding keeps the old list as a prefix, lists every chosen folder, adds
      nothing else, never lists a folder twice, and grows the list exactly
      when some chosen folder was new. */
  lemma {:induction false} AppendNewProps(folders: seq<string>, chosen: seq<string>)
    ensures var r := AppendNew(folders, chosen);
      |folders| <= |r| && r[..|folders|] == folders &&
      (forall f :: f in r <==> f in folders || f in chosen) &&
      (Distinct(folders) ==> Distinct(r)) &&
      (|r| > |folders| <==> exists i :: 0 <= i < |chosen| && chosen[i] !in folders)
  {
    if chosen != [] {
      var init := chosen[..|chosen| - 1];
      AppendNewProps(folders, init);
      assert chosen == init + [chosen[|chosen| - 1]];
      var before := AppendNew(folders, init);
      var f := chosen[|chosen| - 1];
      if f !in before {
        assert (before + [f])[..|folders|] == before[..|folders|];
      }
      if |AppendNew(folders, chosen)| > |folders| && |before| == |folders| {
        assert f !in folders;
      }
    }
  }

  /** `del lst[idx]` when `0 <= idx < len(lst)`, otherwise nothing. */
  function DeleteAt(s: seq<string>, i: int): (r: seq<string>)
    ensures 0 <= i < |s| ==> |r| == |s| - 1
  {
    if 0 <= i < |s| then s[..i] + s[i + 1..] else s
  }

  /** `remove_selected_folders`: delete the chosen positions, the last one
      first. */
  function RemoveAt(s: seq<string>, idxs: seq<int>): seq<string> {
    if idxs == [] then s
    else RemoveAt(DeleteAt(s, idxs[|idxs| - 1]), idxs[..|idxs| - 1])
  }

  /** One step of the deletion loop: removing the first i positions is
      deleting the i-th and then removing the ones before it. */
  lemma RemoveAtStep(s: seq<string>, idxs: seq<int>, i: int)
    requires 0 < i <= |idxs|
    ensures RemoveAt(s, idxs[..i]) == RemoveAt(DeleteAt(s, idxs[i - 1]), idxs[..i - 1])
  {
    assert idxs[..i][..i - 1] == idxs[..i - 1];
  }

  /** The entries of `s` at positions outside `gone`, in order. */
  function Keep(s: seq<string>, gone: set<int>): (r: seq<string>)
    ensures |r| <= |s|
  {
    if s == [] then []
    else Keep(s[..|s| - 1], gone) + (if |s| - 1 in gone then [] else [s[|s| - 1]])
  }

  /** Deleting position i, the highest of the positions removed, keeps what
      removing i along with the others keeps. */
  lemma {:induction false} KeepDelete(s: seq<string>, i: int, gone: set<int>)
    requires 0 <= i < |s|
    requires forall j :: j in gone ==> j < i
    ensures Keep(DeleteAt(s, i), gone) == Keep(s, gone + {i})
  {
    var init, last := s[..|s| - 1], s[|s| - 1];
    assert s == init + [last];
    KeepSnoc(init, last, gone + {i});
    if i == |s| - 1 {
      assert DeleteAt(s, i) == init;
      KeepBelow(init, gone, gone + {i});
    } else {
      KeepDelete(init, i, gone);
      DeleteAtSnoc(init, last, i);
      KeepSnoc(DeleteAt(init, i), last, gone);
    }
  }

  lemma KeepSnoc(t: seq<string>, x: string, gone: set<int>)
    ensures Keep(t + [x], gone) == Keep(t, gone) + (if |t| in gone then [] else [x])
  {
    assert (t + [x])[..|t|] == t;
  }

  lemma DeleteAtSnoc(t: seq<string>, x: string, i: int)
    requires 0 <= i < |t|
    ensures DeleteAt(t + [x], i) == DeleteAt(t, i) + [x]
  {
    assert (t + [x])[..i] == t[..i];
    assert (t + [x])[i + 1..] == t[i + 1..] + [x];
  }

  /** Positions past the end make no difference to Keep. */
  lemma {:induction false} KeepBelow(s: seq<string>, a: set<int>, b: set<int>)
    requires forall j :: 0 <= j < |s| ==> (j in a <==> j in b)
    ensures Keep(s, a) == Keep(s, b)
  {
    if s != [] {
      KeepBelow(s[..|s| - 1], a, b);
    }
  }

  /** The positions listed in `idxs`, as a set. */
  function Positions(idxs: seq<int>): (p: set<int>)
    ensures forall j :: j in p <==> j in idxs
  {
    if idxs == [] then {} else Positions(idxs[..|idxs| - 1]) + {idxs[|idxs| - 1]}
  }

  /** With the strictly ascending, in-range positions a list selection
      reports, removing from the highest down deletes exactly those
      positions and keeps the others in order. */
  lemma {:induction false} RemoveAtKeeps(s: seq<string>, idxs: seq<int>)
    requires forall k :: 0 <= k < |idxs| ==> 0 <= idxs[k] < |s|
    requires forall k, l :: 0 <= k < l < |idxs| ==> idxs[k] < idxs[l]
    ensures RemoveAt(s, idxs) == Keep(s, Positions(idxs))
  {
    if idxs == [] {
      KeepNone(s);
    } else {
      var init := idxs[..|idxs| - 1];
      var i := idxs[|idxs| - 1];
      var t := DeleteAt(s, i);
      assert forall k :: 0 <= k < |init| ==> init[k] == idxs[k] < i;
      RemoveAtKeeps(t, init);
      KeepDelete(s, i, Positions(init));
    }
  }

  lemma {:induction false} KeepNone(s: seq<string>)
    ensures Keep(s, {}) == s
  {
    if s != [] {
      KeepNone(s[..|s| - 1]);
    }
  }

  /** A line-break character. */
  predicate IsBreak(c: char) {
    c == '\n' || c == '\r'
  }

  /** The text with its line-break characters taken out. */
  function RemoveBreaks(s: string): string {
    if s == [] then [] else (if IsBreak(s[0]) then [] else [s[0]]) + RemoveBreaks(s[1..])
  }

  /** No blank line: no two newlines in a row. */
  predicate NoDoubleNewline(s: string) {
    forall i :: 0 <= i < |s| - 1 ==> !(s[i] == '\n' && s[i + 1] == '\n')
  }

  /** `.replace('\r\n', '\n')` */
  function ReplaceCrLf(s: string): string {
    if s == [] then []
    else if |s| >= 2 && s[0] == '\r' && s[1] == '\n' then "\n" + ReplaceCrLf(s[2..])
    else [s[0]] + ReplaceCrLf(s[1..])
  }

  /** `.replace('\r', '\n')` */
  function ReplaceCr(s: string): string {
    if s == [] then [] else [if s[0] == '\r' then '\n' else s[0]] + ReplaceCr(s[1..])
  }

  /** `re.sub(r'\n{2,}', '\n', s)`: every run of newlines becomes one. */
  function CollapseNewlines(s: string): string {
    if s == [] then []
    else if |s| >= 2 && s[0] == '\n' && s[1] == '\n' then CollapseNewlines(s[1..])
    else [s[0]] + CollapseNewlines(s[1..])
  }

  /** The lyrics panel text: line endings made '\n', blank lines removed,
      and a fixed message when there are no lyrics. */
  function NormalizeLyrics(lyrics: string): string {
    if lyrics == [] then "No lyrics found."
    else CollapseNewlines(ReplaceCr(ReplaceCrLf(lyrics)))
  }

  lemma {:induction false} ReplaceCrLfKeepsText(s: string)
    ensures RemoveBreaks(ReplaceCrLf(s)) == RemoveBreaks(s)
  {
    if s != [] {
      if |s| >= 2 && s[0] == '\r' && s[1] == '\n' {
        ReplaceCrLfKeepsText(s[2..]);
        assert RemoveBreaks(s) == RemoveBreaks(s[1..]);
        assert s[1..][1..] == s[2..];
        assert ("\n" + ReplaceCrLf(s[2..]))[1..] == ReplaceCrLf(s[2..]);
      } else {
        ReplaceCrLfKeepsText(s[1..]);
        assert ([s[0]] + ReplaceCrLf(s[1..]))[1..] == ReplaceCrLf(s[1..]);
      }
    }
  }

  lemma {:induction false} ReplaceCrProps(s: string)
    ensures |ReplaceCr(s)| == |s|
    ensures '\r' !in ReplaceCr(s)
    ensures RemoveBreaks(ReplaceCr(s)) == RemoveBreaks(s)
  {
    if s != [] {
      ReplaceCrProps(s[1..]);
      var r := ReplaceCr(s);
      assert r[1..] == ReplaceCr(s[1..]);
    }
  }

  /** Collapsing keeps the first character and takes no character in that
      was not there. */
  lemma {:induction false} CollapseShape(s: string)
    ensures s != [] ==> CollapseNewlines(s) != [] && CollapseNewlines(s)[0] == s[0]
    ensures forall c :: c in CollapseNewlines(s) ==> c in s
    ensures RemoveBreaks(CollapseNewlines(s)) == RemoveBreaks(s)
  {
    if s != [] {
      CollapseShape(s[1..]);
      var r := CollapseNewlines(s);
      if |s| >= 2 && s[0] == '\n' && s[1] == '\n' {
        assert RemoveBreaks(s) == RemoveBreaks(s[1..]);
      } else {
        assert r[1..] == CollapseNewlines(s[1..]);
      }
    }
  }

  lemma {:induction false} CollapseNoDouble(s: string)
    ensures NoDoubleNewline(CollapseNewlines(s))
  {
    if s != [] {
      CollapseNoDouble(s[1..]);
      var t := CollapseNewlines(s[1..]);
      if !(|s| >= 2 && s[0] == '\n' && s[1] == '\n') {
        CollapseShape(s[1..]);
        var r := [s[0]] + t;
        forall i | 0 <= i < |r| - 1 ensures !(r[i] == '\n' && r[i + 1] == '\n') {
          if i > 0 {
            assert r[i] == t[i - 1] && r[i + 1] == t[i];
          }
        }
      }
    }
  }

  /** Text already without blank lines is left alone. */
  lemma {:induction false} CollapseFixed(s: string)
    requires NoDoubleNewline(s)
    ensures CollapseNewlines(s) == s
  {
    if s != [] {
      assert NoDoubleNewline(s[1..]) by {
        forall i | 0 <= i < |s[1..]| - 1 ensures !(s[1..][i] == '\n' && s[1..][i + 1] == '\n') {
          assert s[1..][i] == s[i + 1] && s[1..][i + 1] == s[i + 2];
        }
      }
      CollapseFixed(s[1..]);
      assert s == [s[0]] + s[1..];
    }
  }

  lemma {:induction false} ReplaceCrLfFixed(s: string)
    requires '\r' !in s
    ensures ReplaceCrLf(s) == s
  {
    if s != [] {
      assert s[0] != '\r';
      ReplaceCrLfFixed(s[1..]);
      assert s == [s[0]] + s[1..];
    }
  }

  lemma {:induction false} ReplaceCrFixed(s: string)
    requires '\r' !in s
    ensures ReplaceCr(s) == s
  {
    if s != [] {
      ReplaceCrFixed(s[1..]);
      assert s == [s[0]] + s[1..];
    }
  }

  /** The shown lyrics hold no carriage return and no blank line, keep every
      other character of the lyrics in order, and normalising them again
      changes nothing. */
  lemma NormalizeLyricsProps(lyrics: string)
    requires lyrics != []
    ensures var r := NormalizeLyrics(lyrics);
      '\r' !in r && NoDoubleNewline(r) && RemoveBreaks(r) == RemoveBreaks(lyrics) &&
      NormalizeLyrics(r) == r
  {
    var a := ReplaceCrLf(lyrics);
    var b := ReplaceCr(a);
    var r := CollapseNewlines(b);
    ReplaceCrLfKeepsText(lyrics);
    ReplaceCrProps(a);
    CollapseShape(b);
    CollapseNoDouble(b);
    assert r != [];
    ReplaceCrLfFixed(r);
    ReplaceCrFixed(r);
    CollapseFixed(r);
  }
}
