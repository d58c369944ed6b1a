/** The desktop player object of music_player.py (class PlayerApp) with the
    state its library, scan, pick and cursor operations update in place.
    Widgets, playback and persistence are not part of it: file reads are
    the `read` parameter, the walk of the folders is the `files` parameter,
    and a save of the cache is reported as a returned flag. */
module DesktopPlayer {
  import opened Text
  import opened DesktopLibrary
  import opened RoundRobin
  import opened Lists

  /** The text of the playlist-size box: empty, a whole number, or text
      `int()` rejects. */
  datatype Entry = Blank | Number(n: int) | NotANumber

  /** How pick_songs ended: the count text raised, there was nothing to pick
      (it returns early), or a playlist was made. */
  datatype PickResult = BadCount | NothingToPick | Picked

  /** `int(entry or 10)` for an entry int() accepts. */
  function Wanted(e: Entry): int
    requires !e.NotANumber?
  {
    if e.Blank? then 10 else e.n
  }

  /** n lowered to the pool size when the pool is smaller. */
  function Clamp(n: int, size: nat): (m: int)
    ensures m <= n && (0 <= n ==> 0 <= m <= size)
    ensures m == n || m == size
  {
    if size < n then size else n
  }

  /** The artist lookup of pick_songs over a given cache, as a function of
      the file. */
  function ArtistLookup(cache: map<string, Tags>, read: string -> AudioRead): string -> Option<string> {
    f => ArtistOf(cache, read, f)
  }

  /** No pool path is spelt like the artist of a pool file. */
  predicate NoPathIsAnArtist(pool: seq<string>, artistOf: string -> Option<string>) {
    forall f, g :: f in pool && g in pool ==> artistOf(g) != Some(f)
  }

  /** A file of the pool that pick_songs files under an artist. */
  predicate IsGrouped(pool: seq<string>, artistOf: string -> Option<string>, f: string) {
    f in pool && artistOf(f).Some?
  }

  /** What pick_songs promises about fairness when no path is spelt like an
      artist: the leftover fill is used only once every grouped file is in
      the playlist, and an artist two or more files ahead of another means
      the other has none left. */
  ghost predicate FairPick(pl: seq<string>, pool: seq<string>, artistOf: string -> Option<string>) {
    NoPathIsAnArtist(pool, artistOf) ==>
      ((forall f :: IsGrouped(pool, artistOf, f) ==> f in pl) ||
       (forall f :: f in pl ==> IsGrouped(pool, artistOf, f))) &&
      (forall a, b ::
        Picks(pl, FilesOf(pool, artistOf, a)) >= Picks(pl, FilesOf(pool, artistOf, b)) + 2 ==>
        Exhausted(FilesOf(pool, artistOf, b), pl))
  }

  function Max0(n: int): nat {
    if n < 0 then 0 else n
  }

  /** The size pick_songs aims for: the number asked for, lowered to the
      pool size. */
  function PickCount(e: Entry, size: nat): int
    requires !e.NotANumber?
  {
    Clamp(Wanted(e), size)
  }

  /** The artist grouping of pick_songs over `fs`: each file whose tags can
      be had joins the group of its artist, in file order. */
  function ArtistGroups(fs: seq<string>, artistOf: string -> Option<string>): map<string, seq<string>> {
    if fs == [] then map[]
    else
      var groups := ArtistGroups(fs[..|fs| - 1], artistOf);
      var f := fs[|fs| - 1];
      var artist := artistOf(f);
      if artist.None? then groups else groups[artist.value := Group(groups, artist.value) + [f]]
  }

  /** The artists of the grouping in the order they first appear. */
  function ArtistOrder(fs: seq<string>, artistOf: string -> Option<string>): seq<string> {
    if fs == [] then []
    else
      var order := ArtistOrder(fs[..|fs| - 1], artistOf);
      var artist := artistOf(fs[|fs| - 1]);
      if artist.None? || artist.value in order then order else order + [artist.value]
  }

  /** Each artist's group holds exactly its files, in pool order; the order
      lists each artist that has a file, once. */
  lemma {:induction false} ArtistGroupsFiles(fs: seq<string>, artistOf: string -> Option<string>)
    ensures forall a :: Group(ArtistGroups(fs, artistOf), a) == FilesOf(fs, artistOf, a)
    ensures forall a :: a in ArtistGroups(fs, artistOf) <==> a in ArtistOrder(fs, artistOf)
    ensures forall a :: a in ArtistOrder(fs, artistOf) <==> FilesOf(fs, artistOf, a) != []
    ensures Distinct(ArtistOrder(fs, artistOf))
  {
    if fs != [] {
      var init := fs[..|fs| - 1];
      ArtistGroupsFiles(init, artistOf);
      var order := ArtistOrder(init, artistOf);
      var artist := artistOf(fs[|fs| - 1]);
      if artist.Some? && artist.value !in order {
        DistinctAppend(order, artist.value);
      }
    }
  }

  /** The grouping loop of pick_songs: `order` lists the artists as they
      first appear and `groups` maps each to its files. */
  method GroupByArtist(pool: seq<string>, artistOf: string -> Option<string>)
    returns (order: seq<string>, groups: map<string, seq<string>>)
    ensures order == ArtistOrder(pool, artistOf) && groups == ArtistGroups(pool, artistOf)
    ensures Distinct(order)
    ensures forall a :: a in order <==> FilesOf(pool, artistOf, a) != []
    ensures forall a :: Group(groups, a) == FilesOf(pool, artistOf, a)
  {
    order := [];
    groups := map[];
    var i := 0;
    while i < |pool|
      invariant 0 <= i <= |pool|
      invariant order == ArtistOrder(pool[..i], artistOf)
      invariant groups == ArtistGroups(pool[..i], artistOf)
      invariant forall a :: a in groups <==> a in order
    {
      var f := pool[i];
      ghost var next := pool[..i + 1];
      assert next[..|next| - 1] == pool[..i] && next[|next| - 1] == f;
      ArtistGroupsFiles(pool[..i], artistOf);
      var artist := artistOf(f);
      if artist.Some? {
        var a := artist.value;
        if a in groups {
          groups := groups[a := groups[a] + [f]];
        } else {
          assert Group(groups, a) + [f] == [f];
          groups := groups[a := [f]];
          order := order + [a];
        }
      }
      assert groups == ArtistGroups(next, artistOf);
      assert order == ArtistOrder(next, artistOf);
      i := i + 1;
      assert pool[..i] == next;
    }
    assert pool[..i] == pool;
    ArtistGroupsFiles(pool, artistOf);
  }

  /** The round robin draws pool files only. */
  lemma DrawnInPool(pool: seq<string>, artistOf: string -> Option<string>,
                    artists: seq<string>, groups: map<string, seq<string>>, drawn: seq<string>)
    requires forall a :: Group(groups, a) == FilesOf(pool, artistOf, a)
    requires forall f :: f in drawn ==> Grouped(f, artists, groups)
    ensures forall f :: f in drawn ==> f in pool
  {
    forall f | f in drawn ensures f in pool {
      var i :| 0 <= i < |artists| && f in Group(groups, artists[i]);
      FilesOfMembers(pool, artistOf, artists[i]);
    }
  }

  /** The leftover fill of pick_songs draws only pool files the round
      robin did not use. */
  lemma FillFromLeftovers(pool: seq<string>, drawn: seq<string>, leftovers: seq<string>,
                          shuffled: seq<string>, fill: seq<string>, k: int)
    requires leftovers == Unused(pool, set f | f in drawn)
    requires multiset(shuffled) == multiset(leftovers)
    requires fill == Take(shuffled, k)
    ensures forall f :: f in fill ==> f in pool && f !in drawn
  {
    forall f | f in fill ensures f in pool && f !in drawn {
      assert f in shuffled;
      assert f in multiset(leftovers);
    }
  }

  /** From a pool without repeats, the fill has none either, repeats nothing
      the round robin drew, and tops the playlist up to n. */
  lemma FillDistinct(pool: seq<string>, drawn: seq<string>, leftovers: seq<string>,
                     shuffled: seq<string>, fill: seq<string>, n: int)
    requires Distinct(pool) && Distinct(drawn) && forall f :: f in drawn ==> f in pool
    requires |drawn| < n <= |pool|
    requires leftovers == Unused(pool, set f | f in drawn)
    requires multiset(shuffled) == multiset(leftovers)
    requires fill == Take(shuffled, n - |drawn|)
    ensures Distinct(drawn + fill) && |drawn + fill| == n
  {
    var used := set f | f in drawn;
    SetSize(drawn);
    UnusedSize(pool, used);
    UnusedDistinct(pool, used);
    DistinctPerm(leftovers, shuffled);
    FillFromLeftovers(pool, drawn, leftovers, shuffled, fill, n - |drawn|);
    assert |shuffled| == |multiset(shuffled)| == |leftovers|;
    forall i, j | 0 <= i < j < |drawn + fill| ensures (drawn + fill)[i] != (drawn + fill)[j] {
      if j >= |drawn| {
        assert (drawn + fill)[j] in fill;
        if i >= |drawn| {
          assert fill[i - |drawn|] == shuffled[i - |drawn|];
          assert fill[j - |drawn|] == shuffled[j - |drawn|];
        }
      }
    }
  }

  /** Two artists never share a file. */
  lemma GroupsDisjoint(pool: seq<string>, artistOf: string -> Option<string>,
                       artists: seq<string>, groups: map<string, seq<string>>)
    requires Distinct(artists)
    requires forall a :: Group(groups, a) == FilesOf(pool, artistOf, a)
    ensures Disjoint(artists, groups)
  {
    forall i, j, f | 0 <= i < |artists| && 0 <= j < |artists| && i != j && f in Group(groups, artists[i])
      ensures f !in Group(groups, artists[j])
    {
      FilesOfMembers(pool, artistOf, artists[i]);
      FilesOfMembers(pool, artistOf, artists[j]);
    }
  }

  /** When no pool path is spelt like the artist of a pool file, no path of
      a group is spelt like one of the artists. */
  lemma NoArtistPaths(pool: seq<string>, artistOf: string -> Option<string>,
                      artists: seq<string>, groups: map<string, seq<string>>)
    requires NoPathIsAnArtist(pool, artistOf)
    requires forall a :: a in artists ==> FilesOf(pool, artistOf, a) != []
    requires forall a :: Group(groups, a) == FilesOf(pool, artistOf, a)
    ensures NoPathIsArtist(artists, groups)
  {
    forall i, j | 0 <= i < |artists| && 0 <= j < |artists|
      ensures artists[i] !in Group(groups, artists[j])
    {
      var fs := FilesOf(pool, artistOf, artists[i]);
      FilesOfMembers(pool, artistOf, artists[i]);
      FilesOfMembers(pool, artistOf, artists[j]);
      assert fs[0] in fs;
    }
  }

  /** The round robin followed by the leftover fill is fair: the fill holds
      only files the draw could not reach, and a file in the fill is under no
      artist's group, so the counts of the draw carry over. */
  lemma {:induction false} PickIsFair(pool: seq<string>, artistOf: string -> Option<string>,
                                      artists: seq<string>, groups: map<string, seq<string>>,
                                      drawn: seq<string>, fill: seq<string>, n: int)
    requires forall a :: Group(groups, a) == FilesOf(pool, artistOf, a)
    requires forall a :: a in artists <==> FilesOf(pool, artistOf, a) != []
    requires forall f :: f in drawn ==> Grouped(f, artists, groups)
    requires NoPathIsArtist(artists, groups) ==> Balanced(drawn, artists, groups)
    requires NoPathIsArtist(artists, groups) && |drawn| < n ==>
      forall i :: 0 <= i < |artists| ==> Exhausted(Group(groups, artists[i]), drawn)
    requires forall f :: f in fill ==> f !in drawn
    requires |drawn| >= n ==> fill == []
    ensures FairPick(drawn + fill, pool, artistOf)
  {
    if NoPathIsAnArtist(pool, artistOf) {
      NoArtistPaths(pool, artistOf, artists, groups);
      var pl := drawn + fill;
      if |drawn| < n {
        forall f | IsGrouped(pool, artistOf, f) ensures f in drawn {
          var a := artistOf(f).value;
          FilesOfMembers(pool, artistOf, a);
          assert f in FilesOf(pool, artistOf, a);
          var i :| 0 <= i < |artists| && artists[i] == a;
          assert f in Group(groups, artists[i]);
        }
      } else {
        assert pl == drawn;
        forall f | f in pl ensures IsGrouped(pool, artistOf, f) {
          var i :| 0 <= i < |artists| && f in Group(groups, artists[i]);
          FilesOfMembers(pool, artistOf, artists[i]);
        }
      }
      forall a, b | Picks(pl, FilesOf(pool, artistOf, a)) >= Picks(pl, FilesOf(pool, artistOf, b)) + 2
        ensures Exhausted(FilesOf(pool, artistOf, b), pl)
      {
        FillOutside(pool, artistOf, drawn, fill, a, n);
        FillOutside(pool, artistOf, drawn, fill, b, n);
        PicksEmpty(drawn);
        if FilesOf(pool, artistOf, b) != [] {
          var i :| 0 <= i < |artists| && artists[i] == a;
          var j :| 0 <= j < |artists| && artists[j] == b;
        }
      }
    }
  }

  /** The promise of the comment in pick_songs, "no artist over 60 % of the
      playlist unless there are not enough alternatives", for any fair pick
      of at most n songs: an artist with more than `MaxPerArtist(n)` files
      in it means every other artist has none left. The cap test itself
      never fires; the round-robin balance keeps the promise. */
  lemma CapKept(pl: seq<string>, pool: seq<string>, artistOf: string -> Option<string>,
                n: int, a: string, b: string)
    requires n >= 1 && |pl| <= n
    requires FairPick(pl, pool, artistOf) && NoPathIsAnArtist(pool, artistOf)
    requires a != b && Picks(pl, FilesOf(pool, artistOf, a)) > MaxPerArtist(n)
    ensures Exhausted(FilesOf(pool, artistOf, b), pl)
  {
    FilesOfMembers(pool, artistOf, a);
    FilesOfMembers(pool, artistOf, b);
    PicksDisjoint(pl, FilesOf(pool, artistOf, a), FilesOf(pool, artistOf, b));
  }

  /** A fill after a draw that missed no grouped file leaves every group's
      count as the draw made it. */
  lemma FillOutside(pool: seq<string>, artistOf: string -> Option<string>,
                    drawn: seq<string>, fill: seq<string>, a: string, n: int)
    requires forall f :: f in fill ==> f !in drawn
    requires |drawn| >= n ==> fill == []
    requires |drawn| < n ==> forall f :: IsGrouped(pool, artistOf, f) ==> f in drawn
    ensures Picks(drawn + fill, FilesOf(pool, artistOf, a)) == Picks(drawn, FilesOf(pool, artistOf, a))
  {
    FilesOfMembers(pool, artistOf, a);
    PicksAppendOutside(drawn, fill, FilesOf(pool, artistOf, a));
  }

  /** The drawing part of pick_songs, for a pool and a count n already
      lowered to the pool size: group by artist, shuffle the artists, take
      turns, fill any shortfall from the shuffled leftovers, keep the first
      n. Every song comes from the pool, there are at most n of them (none
      for a negative n), exactly n without repeats when the pool has none,
      and the pick is fair. */
  method PickFrom(pool: seq<string>, n: int, artistOf: string -> Option<string>) returns (playlist: seq<string>)
    requires n <= |pool|
    ensures forall f :: f in playlist ==> f in pool
    ensures |playlist| <= Max0(n)
    ensures Distinct(pool) ==> Distinct(playlist) && |playlist| == Max0(n)
    ensures FairPick(playlist, pool, artistOf)
  {
    var order, groups := GroupByArtist(pool, artistOf);
    var artists :| multiset(artists) == multiset(order);
    DistinctPerm(order, artists);
    GroupsDisjoint(pool, artistOf, artists, groups);
    var drawn: seq<string> := [];
    if n >= 1 {
      drawn := Draw(artists, groups, n);
    }
    DrawnInPool(pool, artistOf, artists, groups, drawn);
    playlist := FillUp(pool, drawn, n);
    FilledIsFair(pool, artistOf, artists, groups, drawn, playlist, n);
  }

  /** PickIsFair for the playlist that FillUp returns: the drawn songs in
      front, then a fill that repeats none of them. */
  lemma FilledIsFair(pool: seq<string>, artistOf: string -> Option<string>,
                     artists: seq<string>, groups: map<string, seq<string>>,
                     drawn: seq<string>, playlist: seq<string>, n: int)
    requires forall a :: Group(groups, a) == FilesOf(pool, artistOf, a)
    requires forall a :: a in artists <==> FilesOf(pool, artistOf, a) != []
    requires forall f :: f in drawn ==> Grouped(f, artists, groups)
    requires NoPathIsArtist(artists, groups) ==> Balanced(drawn, artists, groups)
    requires NoPathIsArtist(artists, groups) && |drawn| < n ==>
      forall i :: 0 <= i < |artists| ==> Exhausted(Group(groups, artists[i]), drawn)
    requires |drawn| <= |playlist| && playlist[..|drawn|] == drawn
    requires forall f :: f in playlist[|drawn|..] ==> f !in drawn
    requires |drawn| >= n ==> playlist == drawn
    ensures FairPick(playlist, pool, artistOf)
  {
    var fill := playlist[|drawn|..];
    assert playlist == drawn + fill;
    PickIsFair(pool, artistOf, artists, groups, drawn, fill, n);
  }

  /** The top-up of pick_songs together: at most the shortfall, pool files
      not drawn before, and from a pool without repeats exactly n songs
      without repeats. */
  lemma FillFacts(pool: seq<string>, drawn: seq<string>, leftovers: seq<string>,
                  shuffled: seq<string>, fill: seq<string>, n: int)
    requires Distinct(drawn) && forall f :: f in drawn ==> f in pool
    requires |drawn| < n <= |pool|
    requires leftovers == Unused(pool, set f | f in drawn)
    requires multiset(shuffled) == multiset(leftovers)
    requires fill == Take(shuffled, n - |drawn|)
    ensures |fill| <= n - |drawn|
    ensures forall f :: f in fill ==> f in pool && f !in drawn
    ensures Distinct(pool) ==> Distinct(drawn + fill) && |drawn + fill| == n
  {
    FillFromLeftovers(pool, drawn, leftovers, shuffled, fill, n - |drawn|);
    if Distinct(pool) {
      FillDistinct(pool, drawn, leftovers, shuffled, fill, n);
    }
  }

  /** The end of pick_songs: when the round robin drew fewer than n songs,
      top up from the shuffled pool files it did not use, then keep the
      first n. The drawn songs stay in front, the fill repeats none of them
      and comes from the pool, and from a pool without repeats the result
      has none and holds exactly n songs. */
  method FillUp(pool: seq<string>, drawn: seq<string>, n: int) returns (playlist: seq<string>)
    requires n <= |pool| && |drawn| <= Max0(n)
    requires Distinct(drawn) && forall f :: f in drawn ==> f in pool
    ensures |drawn| <= |playlist| <= Max0(n) && playlist[..|drawn|] == drawn
    ensures forall f :: f in playlist[|drawn|..] ==> f in pool && f !in drawn
    ensures |drawn| >= n ==> playlist == drawn
    ensures Distinct(pool) ==> Distinct(playlist) && |playlist| == Max0(n)
  {
    var fill: seq<string> := [];
    if |drawn| < n {
      var leftovers := Unused(pool, set f | f in drawn);
      var shuffled :| multiset(shuffled) == multiset(leftovers);
      fill := Take(shuffled, n - |drawn|);
      FillFacts(pool, drawn, leftovers, shuffled, fill, n);
    }
    var whole := drawn + fill;
    assert whole[..|drawn|] == drawn && whole[|drawn|..] == fill;
    assert |whole| <= Max0(n);
    playlist := Take(whole, n);
    assert playlist == whole;
  }

  class PlayerApp {
    var folders: seq<string>
    var audioFiles: seq<string>
    var tagsCache: map<string, Tags>
    var genres: set<string>
    var playlist: seq<string>
    var current: int

    /** `__init__` with the saved folder list and tags cache as loaded. */
    constructor (savedFolders: seq<string>, savedCache: map<string, Tags>)
      ensures folders == savedFolders && tagsCache == savedCache
      ensures audioFiles == [] && genres == {} && playlist == [] && current == 0
    {
      folders := savedFolders;
      tagsCache := savedCache;
      audioFiles := [];
      genres := {};
      playlist := [];
      current := 0;
    }

    /** The genre filter of pick_songs: every file when no genre is ticked;
        otherwise each file whose tags (cached, or read and then cached) have
        a ticked genre. A file whose read raises is skipped. */
    method FilterPool(selected: seq<string>, read: string -> AudioRead) returns (pool: seq<string>)
      modifies this`tagsCache
      ensures pool == Pool(audioFiles, old(tagsCache), read, selected)
      ensures tagsCache == if selected == [] then old(tagsCache) else MemoCache(old(tagsCache), audioFiles, read)
    {
      if selected == [] {
        pool := audioFiles;
        return;
      }
      pool := [];
      var i := 0;
      while i < |audioFiles|
        invariant 0 <= i <= |audioFiles|
        invariant tagsCache == MemoCache(old(tagsCache), audioFiles[..i], read)
        invariant pool == Matching(audioFiles[..i], old(tagsCache), read, selected)
      {
        var f := audioFiles[i];
        MemoStepAt(old(tagsCache), audioFiles, i, read);
        MatchingAt(audioFiles, i, old(tagsCache), read, selected);
        var t: Option<Tags>;
        if f in tagsCache {
          t := Some(tagsCache[f]);
        } else {
          t := GetTags(read(f));
          if t.Some? {
            tagsCache := tagsCache[f := t.value];
          }
        }
        if t.Some? && AnyTicked(GenresOf(t.value), selected) {
          pool := pool + [f];
        }
        i := i + 1;
      }
      assert audioFiles[..i] == audioFiles;
    }

    /** `pick_songs`: filter the pool, read the count (10 when the box is
        blank; text int() rejects raises, after the filter has cached what
        it read) and lower it to the pool size. A count of 0 returns early
        with the playlist and the cursor untouched; otherwise the playlist
        is drawn from the pool with the artists looked up in the updated
        cache, and the cursor goes back to the first song. */
    method PickSongs(selected: seq<string>, entry: Entry, read: string -> AudioRead) returns (outcome: PickResult)
      modifies this`tagsCache, this`playlist, this`current
      ensures tagsCache == if selected == [] then old(tagsCache) else MemoCache(old(tagsCache), audioFiles, read)
      ensures outcome.BadCount? <==> entry.NotANumber?
      ensures outcome.NothingToPick? <==>
        !entry.NotANumber? && PickCount(entry, |Pool(audioFiles, old(tagsCache), read, selected)|) == 0
      ensures !outcome.Picked? ==> playlist == old(playlist) && current == old(current)
      ensures outcome.Picked? ==>
        var pool := Pool(audioFiles, old(tagsCache), read, selected);
        var n := PickCount(entry, |pool|);
        current == 0 &&
        (forall f :: f in playlist ==> f in pool) &&
        |playlist| <= Max0(n) &&
        (Distinct(pool) ==> Distinct(playlist) && |playlist| == Max0(n)) &&
        FairPick(playlist, pool, ArtistLookup(tagsCache, read))
    {
      var pool := FilterPool(selected, read);
      if entry.NotANumber? {
        return BadCount;
      }
      var n := Wanted(entry);
      if |pool| < n {
        n := |pool|;
      }
      if n == 0 {
        return NothingToPick;
      }
      assert n == PickCount(entry, |pool|);
      var pl := PickFrom(pool, n, ArtistLookup(tagsCache, read));
      playlist := pl;
      current := 0;
      outcome := Picked;
    }

    /** `update_song_count_by_genre`: the size of the pool, caching what it
        reads on the way. */
    method SongCount(selected: seq<string>, read: string -> AudioRead) returns (count: nat)
      modifies this`tagsCache
      ensures count == |Pool(audioFiles, old(tagsCache), read, selected)|
      ensures tagsCache == if selected == [] then old(tagsCache) else MemoCache(old(tagsCache), audioFiles, read)
    {
      var pool := FilterPool(selected, read);
      count := |pool|;
    }

    /** The tag loop of a scan: get-or-extract the tags of every audio
        file, collecting every genre seen; a file whose read raises is
        skipped. `changed` tells whether an entry was added, which is when
        the cache is saved. */
    method GatherGenres(read: string -> AudioRead) returns (changed: bool)
      modifies this`tagsCache, this`genres
      ensures tagsCache == MemoCache(old(tagsCache), audioFiles, read)
      ensures genres == AllGenres(audioFiles, old(tagsCache), read)
      ensures changed <==> Missing(old(tagsCache), audioFiles, read) != {}
    {
      genres := {};
      changed := false;
      var i := 0;
      while i < |audioFiles|
        invariant 0 <= i <= |audioFiles|
        invariant tagsCache == MemoCache(old(tagsCache), audioFiles[..i], read)
        invariant genres == AllGenres(audioFiles[..i], old(tagsCache), read)
        invariant changed <==> Missing(old(tagsCache), audioFiles[..i], read) != {}
      {
        var f := audioFiles[i];
        MemoStepAt(old(tagsCache), audioFiles, i, read);
        AllGenresAt(audioFiles, i, old(tagsCache), read);
        var t: Option<Tags>;
        if f in tagsCache {
          t := Some(tagsCache[f]);
        } else {
          t := GetTags(read(f));
          if t.Some? {
            tagsCache := tagsCache[f := t.value];
            changed := true;
          }
        }
        if t.Some? {
          genres := genres + set g | g in GenresOf(t.value);
        }
        i := i + 1;
      }
      assert audioFiles[..i] == audioFiles;
    }

    /** `scan_files`: take the files found under the folders, refresh the
        song count for the genres ticked so far, then run the tag loop. The
        count already caches every readable file when a genre is ticked, so
        the cache is saved only when none is and some readable file was not
        cached. */
    method ScanFiles(files: seq<string>, ticked: seq<string>, read: string -> AudioRead) returns (saved: bool)
      modifies this`audioFiles, this`tagsCache, this`genres
      ensures audioFiles == files
      ensures tagsCache == MemoCache(old(tagsCache), files, read)
      ensures genres == AllGenres(files, old(tagsCache), read)
      ensures saved <==> ticked == [] && Missing(old(tagsCache), files, read) != {}
    {
      audioFiles := files;
      var _ := SongCount(ticked, read);
      saved := GatherGenres(read);
      if ticked != [] {
        MemoTwice(old(tagsCache), files, read);
        MemoComplete(old(tagsCache), files, read);
        AllGenresMemo(files, old(tagsCache), files, read);
      }
    }

    /** The rescan that follows adding folders (`scan_with_counter`): the
        same tag loop without the song count, so the cache is saved exactly
        when some readable file was not cached. */
    method ScanWithCounter(files: seq<string>, read: string -> AudioRead) returns (saved: bool)
      modifies this`audioFiles, this`tagsCache, this`genres
      ensures audioFiles == files
      ensures tagsCache == MemoCache(old(tagsCache), files, read)
      ensures genres == AllGenres(files, old(tagsCache), read)
      ensures saved <==> Missing(old(tagsCache), files, read) != {}
    {
      audioFiles := files;
      saved := GatherGenres(read);
    }

    /** `next`: one place on, wrapping from the last song to the first. */
    method Next()
      modifies this`current
      ensures playlist == [] ==> current == old(current)
      ensures playlist != [] ==> current == (old(current) + 1) % |playlist| && 0 <= current < |playlist|
    {
      if playlist == [] {
        return;
      }
      current := (current + 1) % |playlist|;
    }

    /** `prev`: one place back, wrapping from the first song to the last. */
    method Prev()
      modifies this`current
      ensures playlist == [] ==> current == old(current)
      ensures playlist != [] ==> current == (old(current) - 1) % |playlist| && 0 <= current < |playlist|
    {
      if playlist == [] {
        return;
      }
      current := (current - 1) % |playlist|;
    }

    /** `add_selected`: append each chosen folder not listed yet; `added`
        tells whether the list grew (and a save and rescan follow). */
    method AddSelected(chosen: seq<string>) returns (added: bool)
      modifies this`folders
      ensures folders == AppendNew(old(folders), chosen)
      ensures added <==> exists i :: 0 <= i < |chosen| && chosen[i] !in old(folders)
    {
      added := false;
      var i := 0;
      while i < |chosen|
        invariant 0 <= i <= |chosen|
        invariant folders == AppendNew(old(folders), chosen[..i])
        invariant added <==> |folders| > |old(folders)|
      {
        AppendNewProps(old(folders), chosen[..i]);
        var f := chosen[i];
        assert chosen[..i + 1][..i] == chosen[..i];
        if f !in folders {
          folders := folders + [f];
          added := true;
        }
        i := i + 1;
      }
      assert chosen[..i] == chosen;
      AppendNewProps(old(folders), chosen);
    }

    /** `remove_selected_folders`: delete the selected positions from the
        highest down, skipping any out of range; `rescan` tells whether
        anything was selected (and a save and rescan follow). */
    method RemoveSelected(idxs: seq<int>) returns (rescan: bool)
      modifies this`folders
      ensures folders == RemoveAt(old(folders), idxs)
      ensures rescan <==> idxs != []
    {
      if idxs == [] {
        return false;
      }
      var i := |idxs|;
      assert idxs[..i] == idxs;
      while i > 0
        invariant 0 <= i <= |idxs|
        invariant RemoveAt(folders, idxs[..i]) == RemoveAt(old(folders), idxs)
      {
        var idx := idxs[i - 1];
        var before := folders;
        RemoveAtStep(before, idxs, i);
        if 0 <= idx < |folders| {
          folders := folders[..idx] + folders[idx + 1..];
        }
        assert folders == DeleteAt(before, idx);
        i := i - 1;
      }
      rescan := true;
    }
  }

  /** Euclidean remainder is determined by the quotient and remainder. */
  lemma ModOf(x: int, len: int, q: int, r: int)
    requires 0 <= r < len && x == q * len + r
    ensures x % len == r
  {
    var d := x / len;
    if d > q {
      MulAtLeast(d - q, len);
    } else if d < q {
      MulAtLeast(q - d, len);
    }
  }

  lemma {:induction false} MulAtLeast(a: int, b: int)
    requires a >= 1 && b > 0
    ensures a * b >= b
  {
    if a > 1 {
      MulAtLeast(a - 1, b);
    }
  }

  /** Going forward then back, or back then forward, returns the cursor to
      where it was. */
  lemma CursorRoundTrip(c: int, len: int)
    requires 0 <= c < len
    ensures ((c + 1) % len - 1) % len == c
    ensures ((c - 1) % len + 1) % len == c
  {
    if c + 1 == len {
      ModOf(c + 1, len, 1, 0);
      ModOf(-1, len, -1, c);
    } else {
      ModOf(c + 1, len, 0, c + 1);
      ModOf(c, len, 0, c);
    }
    if c == 0 {
      ModOf(-1, len, -1, len - 1);
      ModOf(len, len, 1, 0);
    } else {
      ModOf(c - 1, len, 0, c - 1);
      ModOf(c, len, 0, c);
    }
  }
}
