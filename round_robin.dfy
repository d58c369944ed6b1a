/** The fair phase of the desktop `pick_songs` (music_player.py): artists
    take turns, in a shuffled order, each drawing one of its unused files
    per sweep, until n files are drawn or no artist could draw. */
module RoundRobin {
  import opened Lists
  import opened DesktopLibrary

  /** The files of artist `a`, empty when it has none. */
  function Group(groups: map<string, seq<string>>, a: string): seq<string> {
    if a in groups then groups[a] else []
  }

  /** `[f for f in g if f not in used]` */
  function Unused(g: seq<string>, used: set<string>): (r: seq<string>)
    ensures forall f :: f in r <==> f in g && f !in used
  {
    if g == [] then []
    else Unused(g[..|g| - 1], used) + (if g[|g| - 1] in used then [] else [g[|g| - 1]])
  }

  /** How many entries of the playlist are files of group `g`. */
  function Picks(pl: seq<string>, g: seq<string>): nat {
    if pl == [] then 0 else Picks(pl[..|pl| - 1], g) + (if pl[|pl| - 1] in g then 1 else 0)
  }

  /** Every file of `g` is already in the playlist. */
  predicate Exhausted(g: seq<string>, pl: seq<string>) {
    forall f :: f in g ==> f in pl
  }

  /** No file is filed under two different artists. */
  predicate Disjoint(artists: seq<string>, groups: map<string, seq<string>>) {
    forall i, j, f :: 0 <= i < |artists| && 0 <= j < |artists| && i != j && f in Group(groups, artists[i]) ==>
      f !in Group(groups, artists[j])
  }

  /** No file path is spelt like an artist name. This is what makes the
      per-artist cap test, which counts the artist name among the paths,
      always pass. */
  predicate NoPathIsArtist(artists: seq<string>, groups: map<string, seq<string>>) {
    forall i, j :: 0 <= i < |artists| && 0 <= j < |artists| ==> artists[i] !in Group(groups, artists[j])
  }

  /** `f` is the file of some artist. */
  predicate Grouped(f: string, artists: seq<string>, groups: map<string, seq<string>>) {
    exists i :: 0 <= i < |artists| && f in Group(groups, artists[i])
  }

  /** The sweep invariant before the turn of artist j in sweep k: artists
      that had their turn in this sweep have at most k + 1 files, the others
      at most k, and any artist that still has an unused file has exactly
      that many. */
  predicate Sweep(pl: seq<string>, artists: seq<string>, groups: map<string, seq<string>>, k: nat, j: int) {
    forall i :: 0 <= i < |artists| ==>
      var b := if i < j then k + 1 else k;
      Picks(pl, Group(groups, artists[i])) <= b &&
      (!Exhausted(Group(groups, artists[i]), pl) ==> Picks(pl, Group(groups, artists[i])) == b)
  }

  /** Fairness: an artist two or more files ahead of another means the
      other has no unused file left. */
  predicate Balanced(pl: seq<string>, artists: seq<string>, groups: map<string, seq<string>>) {
    forall i, j :: (0 <= i < |artists| && 0 <= j < |artists| &&
      Picks(pl, Group(groups, artists[i])) >= Picks(pl, Group(groups, artists[j])) + 2) ==>
      Exhausted(Group(groups, artists[j]), pl)
  }

  lemma PicksAppend(pl: seq<string>, x: string, g: seq<string>)
    ensures Picks(pl + [x], g) == Picks(pl, g) + (if x in g then 1 else 0)
  {
    assert (pl + [x])[..|pl|] == pl;
  }

  /** Appending files outside a group leaves its count alone. */
  lemma {:induction false} PicksAppendOutside(pl: seq<string>, xs: seq<string>, g: seq<string>)
    requires forall x :: x in xs ==> x !in g
    ensures Picks(pl + xs, g) == Picks(pl, g)
  {
    if xs == [] {
      assert pl + xs == pl;
    } else {
      var init := xs[..|xs| - 1];
      PicksAppendOutside(pl, init, g);
      assert pl + xs == (pl + init) + [xs[|xs| - 1]];
      PicksAppend(pl + init, xs[|xs| - 1], g);
    }
  }

  /** Two groups that share no file together account for no more entries
      than the playlist has. */
  lemma {:induction false} PicksDisjoint(pl: seq<string>, g1: seq<string>, g2: seq<string>)
    requires forall f :: f in g1 ==> f !in g2
    ensures Picks(pl, g1) + Picks(pl, g2) <= |pl|
  {
    if pl != [] {
      PicksDisjoint(pl[..|pl| - 1], g1, g2);
    }
  }

  /** An artist drawing an unused file of its own keeps the sweep
      invariant, one turn later. */
  lemma SweepDraw(pl: seq<string>, song: string, artists: seq<string>, groups: map<string, seq<string>>, k: nat, j: int)
    requires Sweep(pl, artists, groups, k, j) && Disjoint(artists, groups)
    requires 0 <= j < |artists| && song in Group(groups, artists[j]) && song !in pl
    ensures Sweep(pl + [song], artists, groups, k, j + 1)
  {
    forall i | 0 <= i < |artists|
      ensures var b := if i < j + 1 then k + 1 else k;
        Picks(pl + [song], Group(groups, artists[i])) <= b &&
        (!Exhausted(Group(groups, artists[i]), pl + [song]) ==> Picks(pl + [song], Group(groups, artists[i])) == b)
    {
      var g := Group(groups, artists[i]);
      PicksAppend(pl, song, g);
      if i != j {
        assert song !in g;
        if !Exhausted(g, pl + [song]) {
          var f :| f in g && f !in pl + [song];
        }
      } else {
        assert !Exhausted(g, pl);
      }
    }
  }

  /** An artist with no unused file skipping its turn keeps the sweep
      invariant. */
  lemma SweepSkip(pl: seq<string>, artists: seq<string>, groups: map<string, seq<string>>, k: nat, j: int)
    requires Sweep(pl, artists, groups, k, j)
    requires 0 <= j < |artists| && Exhausted(Group(groups, artists[j]), pl)
    ensures Sweep(pl, artists, groups, k, j + 1)
  {
  }

  /** At every turn of every sweep the playlist is fair. */
  lemma SweepBalanced(pl: seq<string>, artists: seq<string>, groups: map<string, seq<string>>, k: nat, j: int)
    requires Sweep(pl, artists, groups, k, j)
    ensures Balanced(pl, artists, groups)
  {
    forall i, i' | 0 <= i < |artists| && 0 <= i' < |artists| &&
      Picks(pl, Group(groups, artists[i])) >= Picks(pl, Group(groups, artists[i'])) + 2
      ensures Exhausted(Group(groups, artists[i']), pl)
    {
    }
  }

  /** The cap test never skips an artist when no path is spelt like an
      artist name. */
  lemma CapNeverFires(pl: seq<string>, artists: seq<string>, groups: map<string, seq<string>>, j: int)
    requires NoPathIsArtist(artists, groups)
    requires forall f :: f in pl ==> Grouped(f, artists, groups)
    requires 0 <= j < |artists|
    ensures Count(pl, artists[j]) == 0
  {
    assert artists[j] !in pl;
    CountAbsent(pl, artists[j]);
  }

  /** What holds before the turn of artist j in a sweep that started from
      a playlist of `start` files: the playlist has no repeats, holds files
      of the artists only, `used` is its set of files, `added` says whether
      the sweep drew anything, and the sweep invariant holds. */
  ghost predicate InSweep(artists: seq<string>, groups: map<string, seq<string>>, n: int,
                    pl: seq<string>, used: set<string>, added: bool, ok: bool, k: nat, j: int, start: nat)
  {
    0 <= j <= |artists| && start <= |pl| <= n && Distinct(pl) &&
    (forall f :: f in used <==> f in pl) &&
    (forall f :: f in pl ==> Grouped(f, artists, groups)) &&
    (added <==> |pl| > start) &&
    (ok ==> Sweep(pl, artists, groups, k, j)) &&
    (ok && !added ==> forall i :: 0 <= i < j ==> Exhausted(Group(groups, artists[i]), pl))
  }

  /** Artist j drawing one of its unused files moves the sweep on by one
      turn. */
  lemma DrawKeeps(artists: seq<string>, groups: map<string, seq<string>>, n: int,
                  pl: seq<string>, used: set<string>, added: bool, ok: bool, k: nat, j: int, start: nat, song: string)
    requires Distinct(artists) && Disjoint(artists, groups)
    requires j < |artists| && |pl| < n
    requires InSweep(artists, groups, n, pl, used, added, ok, k, j, start)
    requires song in Group(groups, artists[j]) && song !in used
    ensures InSweep(artists, groups, n, pl + [song], used + {song}, true, ok, k, j + 1, start)
  {
    if ok {
      SweepDraw(pl, song, artists, groups, k, j);
    }
    DistinctAppend(pl, song);
    assert Grouped(song, artists, groups);
  }

  /** Artist j passing its turn, for want of an unused file or because the
      cap test counts it as full, moves the sweep on by one turn. */
  lemma SkipKeeps(artists: seq<string>, groups: map<string, seq<string>>, n: int,
                  pl: seq<string>, used: set<string>, added: bool, ok: bool, k: nat, j: int, start: nat)
    requires ok == NoPathIsArtist(artists, groups)
    requires j < |artists|
    requires InSweep(artists, groups, n, pl, used, added, ok, k, j, start)
    requires Unused(Group(groups, artists[j]), used) == [] || Count(pl, artists[j]) >= MaxPerArtist(n)
    ensures InSweep(artists, groups, n, pl, used, added, ok, k, j + 1, start)
  {
    if ok {
      CapNeverFires(pl, artists, groups, j);
      var g := Group(groups, artists[j]);
      forall f | f in g ensures f in pl {
        assert f !in used ==> f in Unused(g, used);
      }
      SweepSkip(pl, artists, groups, k, j);
    }
  }

  /** The turn of artist j: draw one of its unused files when it has one
      and the per-artist cap allows, and stop the sweep when the cap test
      fires or n files are drawn. */
  method Turn(artists: seq<string>, groups: map<string, seq<string>>, n: int, maxPer: int,
              pl0: seq<string>, used0: set<string>, added0: bool, j: int,
              ghost ok: bool, ghost k: nat, ghost start: nat)
    returns (pl: seq<string>, used: set<string>, added: bool, stop: bool)
    requires Distinct(artists) && Disjoint(artists, groups) && maxPer == MaxPerArtist(n)
    requires ok == NoPathIsArtist(artists, groups)
    requires j < |artists| && |pl0| < n
    requires InSweep(artists, groups, n, pl0, used0, added0, ok, k, j, start)
    ensures InSweep(artists, groups, n, pl, used, added, ok, k, j + 1, start)
    ensures stop <==> |pl| >= n
  {
    pl, used, added, stop := pl0, used0, added0, false;
    var artist := artists[j];
    var songs := Unused(Group(groups, artist), used);
    if songs != [] && Count(pl, artist) < maxPer {
      assert songs[0] in songs;
      var song :| song in songs;
      assert song in Group(groups, artist) && song !in used;
      DrawKeeps(artists, groups, n, pl, used, added, ok, k, j, start, song);
      CountFresh(pl, song, n);
      pl := pl + [song];
      used := used + {song};
      added := true;
      if Count(pl, song) >= maxPer || |pl| >= n {
        stop := true;
      }
    } else {
      SkipKeeps(artists, groups, n, pl, used, added, ok, k, j, start);
    }
  }

  /** One sweep of the round-robin loop: each artist in turn draws one of
      its unused files while the count allows, until n files are drawn or
      the per-file cap test stops the sweep. `ok` says that no path is spelt
      like an artist name, and `k` counts the sweeps done before. */
  method SweepOnce(artists: seq<string>, groups: map<string, seq<string>>, n: int, maxPer: int,
                   pl0: seq<string>, used0: set<string>, ghost ok: bool, ghost k: nat)
    returns (pl: seq<string>, used: set<string>, addedAny: bool, stop: bool)
    requires Distinct(artists) && Disjoint(artists, groups) && maxPer == MaxPerArtist(n)
    requires ok == NoPathIsArtist(artists, groups)
    requires |pl0| < n && Distinct(pl0)
    requires forall f :: f in used0 <==> f in pl0
    requires forall f :: f in pl0 ==> Grouped(f, artists, groups)
    requires ok ==> Sweep(pl0, artists, groups, k, 0)
    ensures |pl0| <= |pl| <= n && Distinct(pl)
    ensures forall f :: f in used <==> f in pl
    ensures forall f :: f in pl ==> Grouped(f, artists, groups)
    ensures addedAny <==> |pl| > |pl0|
    ensures stop <==> |pl| >= n
    ensures ok ==> Balanced(pl, artists, groups)
    ensures ok && !stop ==> Sweep(pl, artists, groups, k + 1, 0)
    ensures ok && !addedAny ==> forall i :: 0 <= i < |artists| ==> Exhausted(Group(groups, artists[i]), pl)
  {
    pl := pl0;
    used := used0;
    addedAny := false;
    stop := false;
    var j := 0;
    while j < |artists| && !stop
      invariant InSweep(artists, groups, n, pl, used, addedAny, ok, k, j, |pl0|)
      invariant stop <==> |pl| >= n
    {
      pl, used, addedAny, stop := Turn(artists, groups, n, maxPer, pl, used, addedAny, j, ok, k, |pl0|);
      j := j + 1;
    }
    if ok {
      SweepBalanced(pl, artists, groups, k, j);
    }
  }

  /** The round-robin loop of pick_songs. `artists` is the shuffled artist
      order and `n` the clamped count; each draw of `random.choice` is any
      unused file of the artist. The result never holds a file twice,
      holds only files of the artists, and has at most n entries. When no
      path is spelt like an artist name, the loop stops short of n only
      when every file of every artist is drawn, and the result is fair. */
  method Draw(artists: seq<string>, groups: map<string, seq<string>>, n: int) returns (pl: seq<string>)
    requires Distinct(artists) && Disjoint(artists, groups)
    requires n >= 1
    ensures Distinct(pl) && |pl| <= n
    ensures forall f :: f in pl ==> Grouped(f, artists, groups)
    ensures NoPathIsArtist(artists, groups) && |pl| < n ==>
      forall i :: 0 <= i < |artists| ==> Exhausted(Group(groups, artists[i]), pl)
    ensures NoPathIsArtist(artists, groups) ==> Balanced(pl, artists, groups)
  {
    var maxPer := MaxPerArtist(n);
    ghost var ok := NoPathIsArtist(artists, groups);
    ghost var k: nat := 0;
    pl := [];
    var used: set<string> := {};
    while |pl| < n
      invariant |pl| <= n && Distinct(pl)
      invariant forall f :: f in used <==> f in pl
      invariant forall f :: f in pl ==> Grouped(f, artists, groups)
      invariant ok ==> Balanced(pl, artists, groups)
      invariant ok && |pl| < n ==> Sweep(pl, artists, groups, k, 0)
      decreases n - |pl|
    {
      var addedAny, stop;
      pl, used, addedAny, stop := SweepOnce(artists, groups, n, maxPer, pl, used, ok, k);
      if !addedAny {
        break;
      }
      if !stop {
        k := k + 1;
      }
    }
  }

  /** A group with no files is never picked from. */
  lemma {:induction false} PicksEmpty(pl: seq<string>)
    ensures Picks(pl, []) == 0
  {
    if pl != [] {
      PicksEmpty(pl[..|pl| - 1]);
    }
  }

  /** Unused only asks about members of the group. */
  lemma {:induction false} UnusedAgree(g: seq<string>, s: set<string>, t: set<string>)
    requires forall f :: f in g ==> (f in s <==> f in t)
    ensures Unused(g, s) == Unused(g, t)
  {
    if g != [] {
      UnusedAgree(g[..|g| - 1], s, t);
    }
  }

  /** Leaving out used files keeps a list without repeats free of repeats. */
  lemma {:induction false} UnusedDistinct(g: seq<string>, used: set<string>)
    requires Distinct(g)
    ensures Distinct(Unused(g, used))
  {
    if g != [] {
      var init := g[..|g| - 1];
      assert g == init + [g[|g| - 1]];
      UnusedDistinct(init, used);
    }
  }

  /** From a list without repeats, leaving out a set of its own files leaves
      exactly the others. */
  lemma {:induction false} UnusedSize(g: seq<string>, used: set<string>)
    requires Distinct(g) && forall f :: f in used ==> f in g
    ensures |Unused(g, used)| == |g| - |used|
  {
    if g == [] {
      assert used == {};
    } else {
      var init := g[..|g| - 1];
      var last := g[|g| - 1];
      assert g == init + [last];
      var rest := used - {last};
      UnusedSize(init, rest);
      UnusedAgree(init, used, rest);
      if last in used {
        assert used == rest + {last};
      } else {
        assert used == rest;
      }
    }
  }
}
