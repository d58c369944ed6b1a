# Random Music Player: a verified model of its library and playlist logic

Random-Music-Player-across-folders is a desktop (Tk) and browser (Gradio)
music player. It builds random playlists from audio files spread over many
folders, filters them by genre, caches the tags it reads, and can ask a
language model or MusicBrainz for help. This project models the sequential
list, map and string logic inside it, and proves what that logic promises.

- **Genre rule** (`Genres`). The raw genre text is split on every run of
  `; | , / \ > -`, each piece is stripped, and blank pieces are dropped.
  The desktop tag reader, the browser tag reader and the cache migration
  all use this rule, and it is proved once. Whitespace is Python's
  `str.isspace()` set (`Text`).
- **Desktop player** (`DesktopLibrary`, `RoundRobin`, `DesktopPlayer`).
  - The tag read and the tags cache with its get-or-extract during scans.
  - The genre pool and the song count.
  - `pick_songs`: it clamps the count, groups the files by artist, draws
    round-robin over a shuffled artist order, and fills up from shuffled
    leftovers.
  - The wrap-around `next`/`prev`.
  - The folder add/remove helpers and the lyric newline clean-up.
  - The class `PlayerApp` holds the state these update in place.
- **Browser player** (`GradioPlayer`).
  - The multi-key genre aggregation of `get_tags`.
  - Module `pick_songs`, and the class `MusicPlayerGradio` with
    `filter_by_genre`, the saturating `next`/`prev`, `play(selected_index)`
    and `get_playlist_table`.
  - `parse_folder_input`.
- **Cache migration** (`MigrateCache`). Each entry's `genres` is recomputed
  from its `genre` text, and the cache is rewritten only when something
  changed.
- **Language-model helpers** (`OpenRouter`).
  - The post-processing of `parse_genre_request`: the `{…}` extraction, the
    genre whitelist and the count clamp.
  - The latency estimate, the free-only filter, and the fallback list with
    its latency pass.
  - The stable sort by latency of `get_available_models`.
- **MusicBrainz preview** (`MusicBrainz`). The search query is built from
  the title, artist and album present. The missing fields are then filled
  from the first recording found, and nothing already present is
  overwritten.

The parts of the program that cannot be modelled in Dafny become inputs:

- **Randomness.** `random.shuffle`, `random.choice` and `random.sample`
  become `:|` choices of a permutation, a member, or a sub-multiset, so
  every contract holds for every draw.
- **File tag reads.** These become a function parameter `read`, from a path
  to what the tag library makes of the file.
- **Directory walks.** The list of files found is a parameter.
- **`os.path.isdir`.** This becomes a predicate parameter.
- **Chat replies, the model list and the MusicBrainz search.** The chat
  replies and the model list are input values, and the search is a function
  from the query to the result.
- **Cache saves.** These are reported as returned flags.

The desktop `pick_songs` is modelled as written. Its comment promises that
no artist gets more than 60 % of the playlist unless there are not enough
alternatives. The test meant to enforce this,
`playlist.count(artist) >= max_per_artist`, counts the artist *name* among
file *paths*, so it is inert whenever no path is spelt like an artist
(`RoundRobin.CapNeverFires`). The second test counts the song just added,
which is always 1 (`DesktopLibrary.CountFresh`). The promise is kept all
the same, through the round-robin balance:

- an artist two picks ahead of another means the other has nothing left,
  and the leftover fill is used only once every grouped file has been
  drawn (`DesktopPlayer.PickIsFair`);
- hence an artist with more than `max_per_artist` songs means every other
  artist has nothing left (`DesktopPlayer.CapKept`).

## Model

| member | source | states |
|---|---|---|
| Genres.SplitGenresTokens | music_player.py:38-43 | every genre produced by the split rule is non-empty, carries no surrounding whitespace and holds none of the delimiters |
| Genres.SplitGenresAt | music_player.py:39-40 | a delimiter cuts the text into two halves whose genres come out in left-to-right order |
| Genres.SplitGenresPiece | music_player.py:39-40 | text without a delimiter gives its strip as the single genre, or no genre when blank |
| Genres.SplitGenresOfJoin | music_player.py:39-40 | round trip: well-formed genres joined with ';' split back into the same list |
| Genres.SplitGenresIdempotent | migrate_tags_cache.py:19-20 | re-splitting the split genres, written out with ';', changes nothing |
| Genres.SplitGenresToken | music_player.py:39-40 | a well-formed genre splits to itself |
| Genres.SplitGenresCons | music_player.py:39-40 | a well-formed genre before a delimiter comes first, ahead of the genres of the rest |
| Genres.SplitGenresLeadingSpace | music_player.py:40 | leading whitespace changes no genre |
| Genres.SplitGenresOfSpacedJoin | music_player_gradio/music_player_gradio.py:158 | a genre list joined with ", " (the table cell) splits back into the same list |
| Text.Strip | music_player.py:40 | `str.strip()`: the result has no whitespace at either end and is no longer than the input |
| Text.StripRemovesOnlySpace | music_player.py:40 | strip takes only whitespace off the two ends and keeps the middle as it was |
| Text.StripOfStripped | music_player.py:40 | text with no whitespace at either end is its own strip |
| Text.Clean | music_player.py:40 | `[g.strip() for g in pieces if g.strip()]` keeps no more pieces than it got, each non-empty and stripped |
| Text.CleanAppend | music_player.py:40 | the comprehension works piece by piece: cleaning two parts is cleaning the whole |
| Text.CleanAvoids | music_player.py:40 | pieces free of a class of characters (the delimiters) stay free of it after the comprehension |
| Text.CleanOfClean | migrate_tags_cache.py:20 | cleaning already-clean pieces changes nothing |
| Text.SplitEach | music_player_gradio/music_player_gradio.py:200 | `re.split` on a one-character class: at least one piece, and no piece holds a separator |
| Text.SplitRuns | music_player.py:39 | `re.split` on a `[…]+` class: at least one piece, none holds a separator, and leading separators give an empty first piece |
| Text.CleanRunsIsCleanEach | music_player.py:39-40 | after the strip-and-drop comprehension, splitting on runs and on single separators give the same genres |
| Text.SplitEachAt | music_player.py:39 | a separator cuts the split into the splits of its two sides |
| Text.SplitEachOfJoin | music_player_gradio/music_player_gradio.py:200 | round trip: separator-free pieces joined by a separator split back into the same pieces |
| Text.JoinOfSplitEach | music_player_gradio/music_player_gradio.py:200 | round trip: the pieces of a text joined by its only separator give the text back |
| Text.Lower | music_player_gradio/openrouter_utils.py:172 | `str.lower()` on ASCII letters: same length, each capital letter replaced by its small letter, everything else kept |
| Text.Basename | music_player_gradio/music_player_gradio.py:155 | `os.path.basename` under the Windows path rules ('/' and '\\' both separate): the suffix after the last separator, which holds none |
| Text.Take | music_player_gradio/musicbrainz_utils.py:57 | Python's `s[:n]`: a prefix of length n, the whole list when n is past its end, and `len+n` items for a negative n |
| DesktopLibrary.GetTags | music_player.py:27-43 | a tag read fails exactly when the file read raises |
| DesktopLibrary.GetTagsGenres | music_player.py:37-43 | the genre list is the split of the genre tag, empty when there is no genre tag or the file is no audio file, and made of well-formed genres |
| DesktopLibrary.ArtistName | music_player.py:583 | `tags.get('artist','').strip() or 'Unknown Artist'`: never blank, the stripped artist when there is one |
| DesktopLibrary.MemoCache | music_player.py:497-505 | the cache after get-or-extract holds the old keys plus one entry per readable file that was missing |
| DesktopLibrary.MemoLookup | music_player.py:500-504 | memoising changes no lookup: a cached entry is what a fresh read gives |
| DesktopLibrary.MemoTwice | music_player.py:497-505 | a second scan over the same files adds nothing |
| DesktopLibrary.MemoStep | music_player.py:500-505 | one get-or-extract step: a cached or unreadable file leaves the cache alone, any other gets its entry |
| DesktopLibrary.MemoComplete | music_player.py:497-505 | after a scan no readable file of the scan is missing from the cache |
| DesktopLibrary.MissingStep | music_player.py:502-505 | the missing set grows by the next file exactly when it is readable and not cached |
| DesktopLibrary.MemoStepAt | music_player.py:498-505 | the loop step of the scan, over the prefix of the file list |
| DesktopLibrary.AllGenresAt | music_player.py:506-508 | the genre set of the scan grows by the genres of the next readable file |
| DesktopLibrary.AllGenresMemo | music_player.py:506-508 | the cache collects the same genres after memoising as before |
| DesktopLibrary.MatchingAt | music_player.py:557-565 | the genre filter grows by the next file exactly when it matches |
| DesktopLibrary.MatchingMembers | music_player.py:553-567 | a file is in the pool of ticked genres iff it is a library file whose tags can be read and have a ticked genre; the pool keeps file order, so distinct files give a distinct pool |
| DesktopLibrary.MatchingMemo | music_player.py:559-562 | caching during the filter does not change the pool |
| DesktopLibrary.FilesOfMembers | music_player.py:579-586 | an artist's files are exactly the pool files filed under that artist |
| DesktopLibrary.FilesOfAt | music_player.py:580-584 | grouping one more file appends it to its artist's group |
| DesktopLibrary.MaxPerArtist | music_player.py:587 | `max(1, ceil(0.6*n))`: at least 1, the least whole number not below three fifths of n, and 1 exactly when n <= 1 |
| DesktopLibrary.CountAbsent | music_player.py:602 | `playlist.count(artist)` is 0 while no playlist path is spelt like the artist |
| DesktopLibrary.CountFresh | music_player.py:609 | the song just added is counted once, so the check at line 609 holds exactly when n <= 1 |
| DesktopLibrary.AppendNewProps | music_player.py:407-413 | adding keeps the old folder list as a prefix, lists every chosen folder, adds nothing else and no duplicate, and grows the list iff some chosen folder was new |
| DesktopLibrary.DeleteAt | music_player.py:846-847 | `del folders[idx]` removes exactly one entry when idx is in range |
| DesktopLibrary.Keep | music_player.py:845-847 | the folders at the positions not removed, in order |
| DesktopLibrary.KeepDelete | music_player.py:845-847 | deleting the highest remaining position keeps what removing it with the lower ones keeps |
| DesktopLibrary.KeepBelow | music_player.py:846 | positions past the end do not matter |
| DesktopLibrary.RemoveAtKeeps | music_player.py:844-847 | removing strictly ascending, in-range positions from the highest down deletes exactly those positions and keeps the rest in order |
| DesktopLibrary.KeepNone | music_player.py:845-847 | removing no position keeps the list |
| DesktopLibrary.ReplaceCrLfKeepsText | music_player.py:757 | `.replace('\r\n','\n')` changes only line breaks |
| DesktopLibrary.ReplaceCrProps | music_player.py:757 | `.replace('\r','\n')` keeps the length, leaves no carriage return and changes only line breaks |
| DesktopLibrary.CollapseShape | music_player.py:759 | `re.sub(r'\n{2,}','\n')` keeps the first character, adds no character and changes only line breaks |
| DesktopLibrary.CollapseNoDouble | music_player.py:759 | after collapsing no two newlines follow each other |
| DesktopLibrary.CollapseFixed | music_player.py:759 | text without a blank line is not changed by collapsing |
| DesktopLibrary.ReplaceCrLfFixed | music_player.py:757 | text without a carriage return is not changed by the CRLF replace |
| DesktopLibrary.ReplaceCrFixed | music_player.py:757 | text without a carriage return is not changed by the CR replace |
| DesktopLibrary.NormalizeLyricsProps | music_player.py:756-761 | the shown lyrics hold no carriage return and no blank line, keep every other character in order, and normalising again changes nothing |
| RoundRobin.Unused | music_player.py:599 | `[f for f in group if f not in used]`: exactly the group files not used yet |
| RoundRobin.PicksAppend | music_player.py:605 | appending a song raises its group's pick count by one and no other |
| RoundRobin.PicksAppendOutside | music_player.py:619 | songs from outside a group do not change its pick count |
| RoundRobin.SweepDraw | music_player.py:604-607 | drawing an unused song of the current artist keeps the sweep invariant: artists before the current one have one pick more or are exhausted |
| RoundRobin.SweepSkip | music_player.py:600-601 | skipping an exhausted artist keeps the sweep invariant |
| RoundRobin.SweepBalanced | music_player.py:596-614 | within a sweep, any artist two picks ahead of another has left that other with nothing unused |
| RoundRobin.CapNeverFires | music_player.py:602-603 | when no path is spelt like an artist, `playlist.count(artist)` is 0, so the cap test never skips an artist |
| RoundRobin.PicksDisjoint | music_player.py:579-585 | two artists' groups, which share no file, together fill no more playlist entries than there are |
| RoundRobin.DrawKeeps | music_player.py:604-607 | a draw keeps the playlist without repeats, the used set equal to the playlist, and the sweep invariant |
| RoundRobin.SkipKeeps | music_player.py:599-603 | a skip (no unused song, or the cap) keeps the sweep invariant |
| RoundRobin.Turn | music_player.py:598-612 | one artist's turn: draws an unused song of that artist or skips, keeps the sweep invariant, and reports the stop exactly when the playlist is full |
| RoundRobin.SweepOnce | music_player.py:597-614 | one pass of the `for artist in artists` loop: the playlist grows without repeats from grouped files, `added_any` tells whether it grew, and the balance holds |
| RoundRobin.Draw | music_player.py:587-614 | the round-robin phase: at most n distinct grouped files, balanced; when it stops short of n every group is exhausted (with no path spelt like an artist) |
| RoundRobin.PicksEmpty | music_player.py:599 | an empty group has no picks |
| RoundRobin.UnusedAgree | music_player.py:599 | the unused files depend only on which group files are used |
| RoundRobin.UnusedDistinct | music_player.py:599 | a group without repeats has unused files without repeats |
| RoundRobin.UnusedSize | music_player.py:617 | the unused files of a distinct list number its length minus the used ones |
| DesktopPlayer.Clamp | music_player.py:569-570 | n is lowered to the pool size, never raised, and stays non-negative for a non-negative n |
| DesktopPlayer.ArtistGroupsFiles | music_player.py:579-586 | each artist's group is exactly the artist's pool files in pool order; the artist list holds each artist with a file, once |
| DesktopPlayer.GroupByArtist | music_player.py:579-593 | the grouping loop builds the artist order and the groups of ArtistGroups |
| DesktopPlayer.DrawnInPool | music_player.py:604 | the round robin draws pool files only |
| DesktopPlayer.FillFromLeftovers | music_player.py:616-619 | the leftover fill draws only pool files the round robin did not use |
| DesktopPlayer.FillDistinct | music_player.py:616-620 | from a pool without repeats, the fill repeats nothing and tops the playlist up to exactly n |
| DesktopPlayer.GroupsDisjoint | music_player.py:579-586 | no file is in two artists' groups |
| DesktopPlayer.NoArtistPaths | music_player.py:602 | when no pool path is spelt like an artist, no group holds a path spelt like an artist |
| DesktopPlayer.PickIsFair | music_player.py:596-620 | the round robin followed by the leftover fill is fair: the fill is used only once every grouped file is drawn, and an artist two picks ahead leaves the other none |
| DesktopPlayer.CapKept | music_player.py:575 | the comment's promise for any fair pick of at most n songs: an artist with more than `max_per_artist` songs means every other artist has no file left |
| DesktopPlayer.FillOutside | music_player.py:616-619 | the fill does not change any artist's pick count once every grouped file is drawn |
| DesktopPlayer.PickFrom | music_player.py:576-620 | the drawn playlist holds only pool files, at most n of them, exactly n without repeats for a distinct pool, and is fair |
| DesktopPlayer.FillUp | music_player.py:615-620 | the drawn songs stay in front, the fill repeats none of them, and the result holds at most n songs (exactly n for a distinct pool) |
| DesktopPlayer.PlayerApp.constructor | music_player.py:89-100 | the saved folders and cache as loaded, no files, no genres, an empty playlist and the cursor at 0 |
| DesktopPlayer.PlayerApp.PickSongs | music_player.py:550-633 | the pool is filtered and cached; a count text int() rejects raises; a count of 0 returns early with playlist and cursor untouched; otherwise the playlist comes from the pool as PickFrom states and the cursor goes to 0 |
| DesktopPlayer.PlayerApp.FilterPool | music_player.py:551-567 | the pool is every file when no genre is ticked, else the matching files; the cache is memoised over the library when a genre is ticked |
| DesktopPlayer.PlayerApp.SongCount | music_player.py:106-128 | the song-count label counts exactly the pool of pick_songs |
| DesktopPlayer.PlayerApp.GatherGenres | music_player.py:496-512 | the scan loop memoises the cache, collects every genre of the readable files, and reports a save exactly when an entry was added |
| DesktopPlayer.PlayerApp.ScanFiles | music_player.py:490-512 | scan_files takes the new file list, memoises the cache and collects the genres; it saves only when nothing is ticked and an entry was added |
| DesktopPlayer.PlayerApp.ScanWithCounter | music_player.py:429-456 | the rescan after adding folders memoises the cache, collects the genres, and saves exactly when an entry was added |
| DesktopPlayer.PlayerApp.Next | music_player.py:792-795 | the cursor moves one on modulo the playlist length and stays in range; nothing changes on an empty playlist |
| DesktopPlayer.PlayerApp.Prev | music_player.py:801-804 | the cursor moves one back modulo the playlist length and stays in range; nothing changes on an empty playlist |
| DesktopPlayer.PlayerApp.AddSelected | music_player.py:407-416 | the folder list becomes AppendNew of the chosen folders; `added` holds iff some chosen folder was new |
| DesktopPlayer.PlayerApp.RemoveSelected | music_player.py:840-850 | the selected positions are deleted from the highest down, skipping those out of range; a rescan follows iff anything was selected |
| DesktopPlayer.ModOf | music_player.py:795 | the remainder is fixed by a quotient and a remainder in range |
| DesktopPlayer.CursorRoundTrip | music_player.py:792-808 | `next` then `prev`, or `prev` then `next`, returns the cursor to where it was |
| GradioPlayer.Texts | music_player_gradio/music_player_gradio.py:47-51 | a tag value gives its texts, the first of them first |
| GradioPlayer.LastValue | music_player_gradio/music_player_gradio.py:56-60 | a text tag is found iff some key lower-cases to its name, and the last such key wins |
| GradioPlayer.TagsOf | music_player_gradio/music_player_gradio.py:30-39 | an unreadable or untagged file gives exactly `{'genres': []}` |
| GradioPlayer.SplitAllTokens | music_player_gradio/music_player_gradio.py:48-49 | the genres of every value under a key are well-formed genres |
| GradioPlayer.KeyGenresTokens | music_player_gradio/music_player_gradio.py:41-52 | every aggregated genre is well formed |
| GradioPlayer.KeyGenresNone | music_player_gradio/music_player_gradio.py:43-52 | with no 'genre' or 'tcon' key the genre list is empty |
| GradioPlayer.WithTextsEntries | music_player_gradio/music_player_gradio.py:56-60 | the copied text tags: each listed tag with a matching key takes the value of the last such key; other entries are kept |
| GradioPlayer.TagsOfEntries | music_player_gradio/music_player_gradio.py:40-63 | `genres` is the in-order concatenation of the splits of every value of every 'genre'/'tcon' key; `genre` is set iff that list is non-empty, to its first entry; the text tags come from the last matching key |
| GradioPlayer.TagsOfTokens | music_player_gradio/music_player_gradio.py:30-54 | every genre get_tags returns is well formed |
| GradioPlayer.SplitAllStep | music_player_gradio/music_player_gradio.py:48-49 | the extend loop over the values of a list tag |
| GradioPlayer.SplitAllOne | music_player_gradio/music_player_gradio.py:51 | a single value extends by its own split |
| GradioPlayer.KeyGenresStep | music_player_gradio/music_player_gradio.py:43-51 | the loop over the tag keys extends the list by the genres of the next key when it is a genre key |
| GradioPlayer.ExtendGenres | music_player_gradio/music_player_gradio.py:48-49 | the extend loop appends the split of every value, in order |
| GradioPlayer.AddKeyGenres | music_player_gradio/music_player_gradio.py:44-51 | one key's genres are appended when it is a genre key, and nothing otherwise |
| GradioPlayer.CollectGenres | music_player_gradio/music_player_gradio.py:41-52 | the aggregation loop builds KeyGenres, made of well-formed genres |
| GradioPlayer.CollectTexts | music_player_gradio/music_player_gradio.py:56-60 | the text-tag loop builds exactly WithTexts |
| GradioPlayer.ReadTags | music_player_gradio/music_player_gradio.py:30-63 | get_tags step by step computes TagsOf |
| GradioPlayer.PickSize | music_player_gradio/music_player_gradio.py:83-88 | a count that is no integer or is not positive becomes 10, any other is kept |
| GradioPlayer.RequestedMembers | music_player_gradio/music_player_gradio.py:91 | a file is requested iff it is a library file whose cached genres meet the request (uncached files never do), in library order |
| GradioPlayer.RequestedAppend | music_player_gradio/music_player_gradio.py:91 | the filter keeps library order: filtering two parts is filtering the whole |
| GradioPlayer.PoolMembers | music_player_gradio/music_player_gradio.py:90-93 | no request gives the whole library, otherwise exactly the requested files; distinct files give a distinct pool |
| GradioPlayer.Table | music_player_gradio/music_player_gradio.py:151-160 | one row per playlist entry |
| GradioPlayer.TableRow | music_player_gradio/music_player_gradio.py:153-159 | row i is numbered i+1 and shows the title (the base name when the tag is absent), the artist and album or blanks |
| GradioPlayer.TableGenresRoundTrip | music_player_gradio/music_player_gradio.py:158 | the ", "-joined genre cell of a row splits back into the file's genre list |
| GradioPlayer.KeepDirsMembers | music_player_gradio/music_player_gradio.py:202 | the directory filter keeps exactly the directories, and everything when all are |
| GradioPlayer.ParseFolderInputPieces | music_player_gradio/music_player_gradio.py:196-203 | an empty box gives nothing; each parsed folder is non-empty, stripped, holds no ';' or ',' and is a directory |
| GradioPlayer.ParseFolderInputOfJoin | music_player_gradio/music_player_gradio.py:196-203 | round trip: directories written with ';' or ',' between them parse back into the same list |
| GradioPlayer.MusicPlayerGradio.constructor | music_player_gradio/music_player_gradio.py:104-112 | empty library, playlist, genre filter and cache, with the cursor at 0 |
| GradioPlayer.MusicPlayerGradio.PickSongs | music_player_gradio/music_player_gradio.py:81-100 | a pool of at most n files is copied in order; otherwise n files drawn at distinct places of the pool; the cursor goes to 0 |
| GradioPlayer.MusicPlayerGradio.FilterByGenre | music_player_gradio/music_player_gradio.py:138-149 | the request (None counts as empty) is stored as the genre filter, the playlist is a permutation of the pool, and the cursor goes to 0 |
| GradioPlayer.MusicPlayerGradio.Playing | music_player_gradio/music_player_gradio.py:163-176 | nothing plays iff the playlist is empty, otherwise a playlist song |
| GradioPlayer.MusicPlayerGradio.Next | music_player_gradio/music_player_gradio.py:180-185 | the cursor moves one on only while below the last song; the song at the new cursor plays |
| GradioPlayer.MusicPlayerGradio.Prev | music_player_gradio/music_player_gradio.py:187-192 | the cursor moves one back only while above 0; the song at the new cursor plays |
| GradioPlayer.MusicPlayerGradio.PlayAt | music_player_gradio/music_player_gradio.py:317-322 | the cursor becomes selected-1 exactly when 1 <= selected <= the playlist length, otherwise it is unchanged; that song plays |
| GradioPlayer.MusicPlayerGradio.PlaylistTable | music_player_gradio/music_player_gradio.py:151-160 | the table loop builds Table over the cached tags, or a fresh read |
| MigrateCache.Migrated | migrate_tags_cache.py:17-22 | an entry keeps its genre text and other fields, its list becomes the split of the genre text, and an entry that is not stale is unchanged |
| MigrateCache.MigrateAll | migrate_tags_cache.py:15-22 | the same files, each with its genre text and other fields kept and its list recomputed |
| MigrateCache.MigratedClean | migrate_tags_cache.py:15-22 | after the migration no entry is stale |
| MigrateCache.MigratedTokens | migrate_tags_cache.py:19-20 | every migrated list is made of well-formed genres |
| MigrateCache.MigrateIdempotent | migrate_tags_cache.py:15-23 | migrating a migrated cache changes nothing |
| MigrateCache.MigrateAllIs | migrate_tags_cache.py:15-22 | a cache holding the migrated entry for each file is the migrated cache |
| MigrateCache.MigrateEntries | migrate_tags_cache.py:14-23 | the loop migrates every entry, and `changed` holds iff some entry was stale |
| MigrateCache.MigrateTagsCache | migrate_tags_cache.py:8-29 | no cache file means no write; otherwise the migrated cache is written iff some entry was stale |
| OpenRouter.FirstOf | music_player_gradio/openrouter_utils.py:319 | the first position of a character, or none when it does not occur |
| OpenRouter.LastOf | music_player_gradio/openrouter_utils.py:319 | the last position of a character, or none when it does not occur |
| OpenRouter.ExtractBraces | music_player_gradio/openrouter_utils.py:319-320 | a match exists iff some '{' comes before some '}', and it starts with '{' and ends with '}' |
| OpenRouter.ExtractBracesAt | music_player_gradio/openrouter_utils.py:319 | the match runs from the first '{' to the last '}' |
| OpenRouter.WhitelistMembers | music_player_gradio/openrouter_utils.py:325 | the kept genres are exactly the parsed genres that are available |
| OpenRouter.WhitelistAppend | music_player_gradio/openrouter_utils.py:325 | the filter keeps the parsed order |
| OpenRouter.ClampCount | music_player_gradio/openrouter_utils.py:326-332 | a count <= 0 becomes 10, one above 100 becomes 100, others are kept; the result is in 1..100 |
| OpenRouter.ParseGenreRequest | music_player_gradio/openrouter_utils.py:296-341 | an error comes with no genres and count 10; a chat error is passed through; no '{…}' gives the fixed message; a success has available genres and a count in 1..100 |
| OpenRouter.ParseGenreRequestSuccess | music_player_gradio/openrouter_utils.py:319-334 | a decoded reply gives the available parsed genres in parsed order and the clamped count (10 when missing) |
| OpenRouter.AnyOfThree | music_player_gradio/openrouter_utils.py:176 | `any(size in id for size in three words)` is the disjunction of the three tests |
| OpenRouter.AnyOfFour | music_player_gradio/openrouter_utils.py:174 | `any(size in id for size in four words)` is the disjunction of the four tests |
| OpenRouter.ContainsLower | music_player_gradio/openrouter_utils.py:172 | a search word with no letters occurs in the id iff it occurs in its lower-cased form |
| OpenRouter.EstimateIsFirstClass | music_player_gradio/openrouter_utils.py:170-179 | the if-chain picks the latency of the first size class with a word in the lower-cased id, 999 when none |
| OpenRouter.LatencyOf | music_player_gradio/openrouter_utils.py:161-179 | the explicit latency first, then the performance one, then the benchmark one, else the estimate from the id |
| OpenRouter.ListedMembers | music_player_gradio/openrouter_utils.py:151-196 | without the filter every model is listed; with it, exactly those whose name, description and pricing text hold "free"; each has a latency |
| OpenRouter.ListModels | music_player_gradio/openrouter_utils.py:151-196 | the model loop builds ListedModels |
| OpenRouter.WithKeyAppend | music_player_gradio/openrouter_utils.py:199 | the entries with a given latency are taken part by part |
| OpenRouter.WithKeyOne | music_player_gradio/openrouter_utils.py:199 | a single entry has the given latency or not |
| OpenRouter.InsertPerm | music_player_gradio/openrouter_utils.py:199 | inserting adds the entry once |
| OpenRouter.InsertSorted | music_player_gradio/openrouter_utils.py:199 | inserting into a sorted list keeps it sorted |
| OpenRouter.InsertStable | music_player_gradio/openrouter_utils.py:199 | inserting puts the entry after every entry with the same latency |
| OpenRouter.SortByLatencyProps | music_player_gradio/openrouter_utils.py:199 | `sorted` by latency returns the same entries, in ascending order, with equal latencies in their original order |
| OpenRouter.SortSorted | music_player_gradio/openrouter_utils.py:199 | the sorted list is in ascending latency order |
| OpenRouter.SortPerm | music_player_gradio/openrouter_utils.py:199 | the sorted list is a permutation of the models |
| OpenRouter.SortPermStep | music_player_gradio/openrouter_utils.py:199 | sorting one more model adds it to the sorted entries |
| OpenRouter.SortStable | music_player_gradio/openrouter_utils.py:199 | models with equal latency keep their order |
| OpenRouter.FallbackLatency | music_player_gradio/openrouter_utils.py:125-130 | the fallback guess is 1.0, 2.0 or 3.0 |
| OpenRouter.Filled | music_player_gradio/openrouter_utils.py:122-130 | the latency pass keeps id, name and description, gives every entry a latency, and keeps an existing one |
| OpenRouter.FillAll | music_player_gradio/openrouter_utils.py:122-130 | the pass fills every entry of the list, position by position |
| OpenRouter.FillAllIdempotent | music_player_gradio/openrouter_utils.py:122-130 | a second latency pass changes nothing |
| OpenRouter.Catalog.constructor | music_player_gradio/openrouter_utils.py:13-20 | the module's fallback list as defined |
| OpenRouter.Catalog.FillLatencies | music_player_gradio/openrouter_utils.py:122-130 | the fallback list is filled in place |
| OpenRouter.Catalog.AvailableModels | music_player_gradio/openrouter_utils.py:119-221 | without a key, or with an empty filtered API list: the filled fallback list, sorted by latency; a failed request: the fallback list as it stands; otherwise the listed API models sorted by latency |
| OpenRouter.SortByLatencyEmpty | music_player_gradio/openrouter_utils.py:202-203 | the sorted list is empty iff the model list is, so the fallback is taken exactly when no model was listed |
| MusicBrainz.DigitChar | music_player_gradio/musicbrainz_utils.py:34 | a digit below 10 is written as a decimal digit |
| MusicBrainz.Digits | music_player_gradio/musicbrainz_utils.py:34 | the decimal digits of a natural number: at least one, all digits |
| MusicBrainz.NumeralBound | music_player_gradio/musicbrainz_utils.py:57 | a numeral of k characters denotes less than 10^k |
| MusicBrainz.NumeralOfDigits | music_player_gradio/musicbrainz_utils.py:57 | the decimal digits of n are a numeral denoting n |
| MusicBrainz.NumeralStartsWithDigit | music_player_gradio/musicbrainz_utils.py:57 | a numeral starts with a digit |
| MusicBrainz.ParseSignedOfNumeral | music_player_gradio/musicbrainz_utils.py:57 | `int()` of a numeral, with or without a minus sign, is its value |
| MusicBrainz.ParseIntOfDecimal | music_player_gradio/musicbrainz_utils.py:57 | round trip: `int(str(n)) == n` |
| MusicBrainz.SignedBounds | music_player_gradio/musicbrainz_utils.py:57 | `int()` of at most four characters lies in -999..9999 |
| MusicBrainz.YearBounds | music_player_gradio/musicbrainz_utils.py:57 | the year from the first four characters of a date lies in -999..9999 |
| MusicBrainz.QueryParts | music_player_gradio/musicbrainz_utils.py:32-38 | one non-empty part per truthy title, artist and album, in that order, `track:` first and `release:` last |
| MusicBrainz.QueryEmpty | music_player_gradio/musicbrainz_utils.py:39-41 | the query is empty iff none of title, artist and album is truthy |
| MusicBrainz.JoinStartsWithFirst | music_player_gradio/musicbrainz_utils.py:39 | the " AND " join starts with its first part |
| MusicBrainz.QueryIgnoresYear | music_player_gradio/musicbrainz_utils.py:32-39 | the year never enters the query |
| MusicBrainz.BuildQuery | music_player_gradio/musicbrainz_utils.py:32-39 | the three appends and the join build the query of QueryParts |
| MusicBrainz.FirstDatedFrom | music_player_gradio/musicbrainz_utils.py:50-54 | the first release from a position on with a non-blank date, every one before it blank; the end when there is none |
| MusicBrainz.FirstDatedIndex | music_player_gradio/musicbrainz_utils.py:50-54 | the position of the first dated release, at most the list length |
| MusicBrainz.FirstDatedIndexIs | music_player_gradio/musicbrainz_utils.py:50-54 | a non-blank date with only blank dates before it is the first dated release |
| MusicBrainz.YearDate | music_player_gradio/musicbrainz_utils.py:48-54 | the date is non-blank iff the first release date or some release date is; the first release date wins, else the first non-blank release date |
| MusicBrainz.YearOf | music_player_gradio/musicbrainz_utils.py:55-59 | a year read from the date lies in -999..9999; none when the date is blank or does not parse |
| MusicBrainz.ReleaseDate | music_player_gradio/musicbrainz_utils.py:48-54 | the breaking loop over the release list finds the date of YearDate |
| MusicBrainz.RecordedYear | music_player_gradio/musicbrainz_utils.py:48-59 | the date lookup and the int() of its first four characters give YearOf |
| MusicBrainz.FillField | music_player_gradio/musicbrainz_utils.py:57-65 | one fill: the key is set iff it was missing and something is offered; no other key changes |
| MusicBrainz.FillFrom | music_player_gradio/musicbrainz_utils.py:46-65 | the merge only adds the four fields and never drops a key |
| MusicBrainz.FillFromGet | music_player_gradio/musicbrainz_utils.py:47-65 | each field takes the offered value iff it was one of the four, missing or falsy, and a value is offered; every other field stays as it was |
| MusicBrainz.Filled | music_player_gradio/musicbrainz_utils.py:26-68 | no key is dropped and only the four fields are added; with all four truthy, with an empty query, or with a failed or empty search, the tags come back unchanged |
| MusicBrainz.FilledFromFirst | music_player_gradio/musicbrainz_utils.py:42-45 | with a field missing and a recording found, the tags are filled from the first recording |
| MusicBrainz.FilledKeeps | music_player_gradio/musicbrainz_utils.py:47-65 | a field outside the four, or one already truthy, is never overwritten |
| MusicBrainz.NothingToDo | music_player_gradio/musicbrainz_utils.py:30-41 | with every field present, or with no title, artist and album, the tags come back unchanged |
| MusicBrainz.TagDict.constructor | music_player_gradio/musicbrainz_utils.py:7 | the caller's tags as given |
| MusicBrainz.TagDict.FillIn | music_player_gradio/musicbrainz_utils.py:57-65 | `tags[key] = value` done only for a missing field with a value found |
| MusicBrainz.FillFromRecording | music_player_gradio/musicbrainz_utils.py:46-65 | the in-place merge leaves the tags as FillFrom of what the recording offers |
| MusicBrainz.FetchMetadataPreview | music_player_gradio/musicbrainz_utils.py:26-68 | the in-place preview leaves the tags as Filled for the given search |

## Left out

- Tk and Gradio widgets, VLC playback, the progress bar and its timers, the duration sum, and the server start and stop are left out: they are GUI, float arithmetic and timer callbacks.
- Pickle and JSON persistence (persistence_utils.py), the JSON scan cache of the browser player, `load_last_folder`, and the folder walk `get_audio_files` are left out. Their results are inputs, and a cache save is a returned flag.
- Threaded scanning (`background_scan`, the `scanning` flag) is left out because it is concurrency.
- `fetch_lyrics`, `chat_completion` with its retries, the HTTP part of `get_available_models` and `musicbrainzngs.search_recordings` are left out as network calls. Their replies are inputs or parameters.
- Cover art in the desktop `get_tags` is left out because it is binary data that nothing else uses.
- The desktop playlist display loop (`n. title - artist` labels) is left out because it is GUI.
- `shuffle_playlist`, `clear_folders`, `show_song` and `on_select` of the desktop player are left out. They are GUI handlers outside the modelled core.
- The browser `scan_files` is left out because it is the folder walk plus a tag read per file. Its per-file result is `GradioPlayer.TagsOf`.
- DesktopLibrary.GetTags: every way the read can raise (a corrupt file, the cover lookup on an MP3 file without a tag block) is the one outcome `Corrupt` of the `read` parameter. A tag value is given as the text of its first value; `str()` of other values is not modelled.
- DesktopPlayer.PlayerApp.PickSongs: a count that `int()` rejects raises out of the handler. The model returns `BadCount` with the cache updated and the playlist untouched, which is what the exception leaves behind.
- DesktopPlayer.PlayerApp.PickSongs: the files of `audio_files` are not assumed distinct (overlapping folders can list a file twice), so "exactly n" is stated only for a distinct pool.
- GradioPlayer.MusicPlayerGradio.PlayAt: a selection that `int()` rejects raises in the source. The model takes the selection as an optional integer.
- GradioPlayer.MusicPlayerGradio.Next, GradioPlayer.MusicPlayerGradio.Prev and GradioPlayer.MusicPlayerGradio.PlayAt require the cursor invariant `Valid()`. Every modelled operation keeps it. The lyrics fetch of `play()` is left out.
- GradioPlayer.TagsOf: `str()` of a tag value is taken as given text. A tag map without `keys` is treated as empty.
- OpenRouter.ParseGenreRequest: JSON decoding and the `int()` of the count are the parameter `decode`. A non-list `genres` or a float count is whatever `decode` makes of it.
- OpenRouter.ListedModels: a model without an `id` would make `.lower()` raise. The model takes the id as text. `context_length` and the pricing object are passed through by the source and not carried.
- OpenRouter.LatencyOf: latencies are `real` numbers. The source's mix of ints and floats from the API is not modelled.
- MusicBrainz.FetchMetadataPreview: with `tags=None` the source reads the file's tags first. That file read is left out, and the tags are always given.
- MusicBrainz.FillFromRecording: a recording whose artist credit or first release lacks a name or title makes the source raise a KeyError part way through the merge. The fields filled before the error stay filled. The model takes well-formed recordings, where each offered artist and album is present.
- MusicBrainz.ParseInt: Python's `int()` also accepts non-ASCII decimal digits. The model accepts ASCII digits, an optional sign, underscores between digits and surrounding whitespace.
- Text.Basename: follows the Windows path rules, where '\\' also separates. The player's default folders are Windows drive and network paths; on a POSIX host `os.path.basename` splits at '/' only.
- Text.Lower: `str.lower()` folds ASCII letters only in this model. The ids and texts it is applied to are compared against ASCII words.
