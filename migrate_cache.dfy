/** The one-off tags cache migration (migrate_tags_cache.py): every cached
    entry gets its genre list recomputed from its 'genre' text, and the
    cache is written back only when some entry changed. Reading and
    writing the pickle file are left to the caller: the stored cache is an
    input, absent when there is no file, and the written cache an output,
    absent when nothing is written. The entry-level functions take the
    split rule as a parameter `split`; the migration passes the shared
    genre rule Genres.SplitGenres. */
module MigrateCache {
  import opened Text
  import opened Genres

  /** One cached tags dictionary: its 'genre' text, its 'genres' list
      (either may be missing) and every other entry. */
  datatype Entry = Entry(genre: Option<string>, genres: Option<seq<string>>, other: map<string, string>)

  /** `tags.get('genre', '')` */
  function GenreText(e: Entry): string {
    if e.genre.Some? then e.genre.value else ""
  }

  /** The genre list the migration wants: the split of the genre text. */
  function Wanted(e: Entry, split: string -> seq<string>): seq<string> {
    split(GenreText(e))
  }

  /** The entry differs from what the migration wants: its list is missing
      or is not the split of its genre text. */
  predicate Stale(e: Entry, split: string -> seq<string>) {
    e.genres != Some(Wanted(e, split))
  }

  /** One entry after the migration. */
  function Migrated(e: Entry, split: string -> seq<string>): (r: Entry)
    ensures r.genre == e.genre && r.other == e.other
    ensures r.genres.Some? && r.genres.value == Wanted(e, split)
    ensures !Stale(e, split) ==> r == e
  {
    Entry(e.genre, Some(Wanted(e, split)), e.other)
  }

  /** The whole cache after the migration: the same files, each entry
      migrated. */
  function MigrateAll(cache: map<string, Entry>, split: string -> seq<string>): (r: map<string, Entry>)
    ensures r.Keys == cache.Keys
    ensures forall k :: k in r ==> r[k].genre == cache[k].genre && r[k].other == cache[k].other
    ensures forall k :: k in r ==> r[k].genres == Some(Wanted(cache[k], split))
  {
    map k | k in cache :: Migrated(cache[k], split)
  }

  /** After the migration no entry is stale, whatever the split rule. */
  lemma MigratedClean(cache: map<string, Entry>, split: string -> seq<string>)
    ensures forall k :: k in MigrateAll(cache, split) ==> !Stale(MigrateAll(cache, split)[k], split)
  {
    forall k | k in MigrateAll(cache, split)
      ensures !Stale(MigrateAll(cache, split)[k], split)
    {
      assert GenreText(MigrateAll(cache, split)[k]) == GenreText(cache[k]);
    }
  }

  /** With the genre rule, every migrated list is made of well-formed
      genres. */
  lemma MigratedTokens(cache: map<string, Entry>)
    ensures forall k, i :: k in MigrateAll(cache, SplitGenres) && 0 <= i < |MigrateAll(cache, SplitGenres)[k].genres.value| ==>
      IsGenreToken(MigrateAll(cache, SplitGenres)[k].genres.value[i])
  {
    forall k | k in MigrateAll(cache, SplitGenres)
      ensures forall i :: 0 <= i < |MigrateAll(cache, SplitGenres)[k].genres.value| ==>
        IsGenreToken(MigrateAll(cache, SplitGenres)[k].genres.value[i])
    {
      SplitGenresTokens(GenreText(cache[k]));
    }
  }

  /** Idempotence: migrating a migrated cache changes nothing. */
  lemma MigrateIdempotent(cache: map<string, Entry>, split: string -> seq<string>)
    ensures MigrateAll(MigrateAll(cache, split), split) == MigrateAll(cache, split)
  {
    var once := MigrateAll(cache, split);
    MigratedClean(cache, split);
    MigrateAllIs(once, once, split);
  }

  /** A cache holding the migrated entry for each file is the migrated
      cache. */
  lemma MigrateAllIs(cache: map<string, Entry>, out: map<string, Entry>, split: string -> seq<string>)
    requires out.Keys == cache.Keys
    requires forall k :: k in cache ==> out[k] == Migrated(cache[k], split)
    ensures out == MigrateAll(cache, split)
  {
  }

  /** The loop of migrate_tags_cache over the cached entries: each entry
      whose list differs from the split of its genre text gets the split,
      and `changed` records whether any did. */
  method MigrateEntries(cache: map<string, Entry>, split: string -> seq<string>) returns (out: map<string, Entry>, changed: bool)
    ensures out == MigrateAll(cache, split)
    ensures changed <==> exists k :: k in cache && Stale(cache[k], split)
  {
    out := cache;
    changed := false;
    var todo := cache.Keys;
    while todo != {}
      invariant todo <= cache.Keys && out.Keys == cache.Keys
      invariant forall k :: k in cache && k !in todo ==> out[k] == Migrated(cache[k], split)
      invariant forall k :: k in todo ==> out[k] == cache[k]
      invariant changed <==> exists k :: k in cache && k !in todo && Stale(cache[k], split)
      decreases |todo|
    {
      var k :| k in todo;
      var tags := out[k];
      var genres := split(GenreText(tags));
      if tags.genres != Some(genres) {
        out := out[k := Entry(tags.genre, Some(genres), tags.other)];
        changed := true;
      }
      todo := todo - {k};
    }
    MigrateAllIs(cache, out, split);
  }

  /** migrate_tags_cache: no file means no write; otherwise the migrated
      cache is written exactly when some entry was stale. */
  method MigrateTagsCache(stored: Option<map<string, Entry>>) returns (written: Option<map<string, Entry>>)
    ensures stored.None? ==> written.None?
    ensures stored.Some? ==> (written.Some? <==> exists k :: k in stored.value && Stale(stored.value[k], SplitGenres))
    ensures written.Some? ==> written.value == MigrateAll(stored.value, SplitGenres)
  {
    if stored.None? {
      return None;
    }
    var cache, changed := MigrateEntries(stored.value, SplitGenres);
    if changed {
      written := Some(cache);
    } else {
      written := None;
    }
  }
}
