# A verified model of a music library app's core

The app is a small React Native music player. It imports audio files into a
music folder, keeps a track library and playlists in JSON files, plays
through an audio engine with a play queue, stores artwork images and shows
lyrics. This project models the logic under that UI in Dafny and proves what
the logic promises:

- `MusicContext.MusicProvider` is the library and playback provider. It owns
  the track list, the current index, the engine handle, the play queue and
  the shuffle and repeat flags. Its pure list transforms are in `Library`,
  and the queue arithmetic is in `PlayQueue`.
- `PlaylistContext.PlaylistProvider` is the playlist provider. It works
  through a library provider. The pure playlist transforms it applies are in
  `PlaylistOps`.
- `MusicImport` is the import of picked documents. A loop goes over the
  files, each with a partial parse and then a full one, tag defaults, the
  stored `{id}.{ext}` name, error collection and one batch commit. It also
  builds the message of the result alert.
- `ArtworkStorage` covers artwork files: the data-URI match, the extension
  taken from the MIME type, the `${now}-${random}.${ext}` name, a
  best-effort delete and the folder that is created on demand.
- `Lyrics` covers the lyrics screen: parsing synced `[mm:ss.xx]text` lyrics
  and plain lyrics, the "No lyrics found" error, and choosing the
  highlighted line 930 ms ahead of the player.
- `Cascade` holds the flows that cross both providers. Deleting a song from
  its menu removes it from every playlist and then from the library. Editing
  a track announces the change, and the playlists take the new version.
  Restarting after an import loads the library back.

Storage is `FileStore.FileSystem`, a class with a map from paths to
abstract contents and a set of folders. A JSON file holds the value it
serialises. The outside world's answers are parameters rather than calls:

- the clock readings (one per playlist operation, see "## Left out");
- the random name suffixes;
- the document picker's result;
- each file's partial and full parse;
- the success of each copy;
- the folder listing and the parse results of the directory scan;
- the lyrics service's response;
- the engine's status events.

The random order of the shuffle is a nondeterministic choice of some
permutation.

The three behaviours that look unintended are modelled as the code has them:

- After a delete, the current index becomes -1 unless the deleted track
  came before it (`Library.IndexAfterDelete`).
- "Previous" past 3000 ms restarts the track even when the queue is empty.
- A current index missing from the queue makes "next" play the first queue
  entry.

## Model

| member | source | states |
|---|---|---|
| Library.TagOr | utils/musicImport.ts:132-134 | JavaScript's or-fallback: a present non-empty tag is kept; an absent or empty one gives the fallback |
| Library.YearOrNull | context/MusicContext.tsx:140 | the or-null default: a year is kept exactly when it is present and not 0 |
| Library.FindIndex | context/MusicContext.tsx:171 | the first position holding the id, with no earlier one; -1 exactly when no track has the id |
| Library.Find | context/PlaylistContext.tsx:138 | a track is found exactly when the id is in the list; the track found has that id, and it is the first such track: no track before it has the id |
| Library.ReplaceById | context/MusicContext.tsx:161 | same length; every track with the new track's id becomes it; every other track is unchanged |
| Library.ReplaceByIdKeepsIds | context/MusicContext.tsx:161 | every position keeps its id, so unique ids stay unique |
| Library.ReplaceByIdAbsent | context/MusicContext.tsx:161 | an update whose id is not in the list changes nothing |
| Library.ReplaceByIdIdempotent | context/MusicContext.tsx:161 | applying the same update twice equals applying it once |
| Library.FindAfterReplace | context/MusicContext.tsx:161 | after an update, looking up the id gives the new track exactly when the id was present, and nothing otherwise |
| Library.RemoveById | context/MusicContext.tsx:179 | no track with the id remains; every remaining track was in the list; every track with another id remains |
| Library.RemoveByIdAbsent | context/MusicContext.tsx:179 | removing an id that is not there changes nothing |
| Library.RemoveByIdAppend | context/MusicContext.tsx:179 | removal distributes over concatenation, so the remaining tracks keep their order |
| Library.RemoveByIdAt | context/MusicContext.tsx:171-179 | with unique ids, deleting leaves exactly the tracks before and after the found position, in order |
| Library.IndexAfterDelete | context/MusicContext.tsx:182 | the kept index is prev-1, and there is one exactly when the current track came after the deleted one; in every other case the index becomes -1 |
| Library.IndexAfterDeleteKeepsLaterTrack | context/MusicContext.tsx:182 | when the deleted track came before the current one, the new index is in range and designates the same track |
| Library.KeepExisting | context/MusicContext.tsx:113-115 | the result holds only saved tracks whose file exists, and every saved track whose file exists |
| Library.KeepExistingAll | context/MusicContext.tsx:113-116 | when every saved file exists, the saved list comes back unchanged |
| Library.KeepExistingAppend | context/MusicContext.tsx:113-115 | dropping missing files distributes over concatenation, so the saved order is kept |
| Library.AudioFiles | context/MusicContext.tsx:122 | the result holds only names ending in .mp3, .m4a, .wav or .aac from the listing, and every such name |
| Library.AudioFilesAppend | context/MusicContext.tsx:122 | the scan keeps the listing's order: the audio files of two joined listings are those of the first followed by those of the second |
| Library.ScannedTrack | context/MusicContext.tsx:135-146 | the scanned record has its position as id and its file's uri; on a failed read it gets the bare defaults; otherwise it gets the tags with the scan's "Unknown" defaults, the title without its extension, and the duration in ms |
| PlayQueue.Identity | context/MusicContext.tsx:186 | the sequential queue has length n and entry i equal to i |
| PlayQueue.PermutationFacts | context/MusicContext.tsx:187 | a shuffled queue has length n, holds only indices below n, holds each of them, and holds none twice |
| PlayQueue.IdentityIsPermutation | context/MusicContext.tsx:187 | the sequential order is a queue for both modes, so a shuffle always exists |
| PlayQueue.IndexOf | context/MusicContext.tsx:224 | `indexOf`: the first position of the entry, or -1 exactly when it is absent |
| PlayQueue.IndexOfDistinct | context/MusicContext.tsx:224 | in a queue without repeats, the position found for an entry is where that entry is |
| PlayQueue.JsRemainder | context/MusicContext.tsx:225 | JavaScript's `%` on a positive divisor: the remainder is smaller than the divisor in magnitude and takes the sign of the dividend; for a non-negative dividend it is the Euclidean remainder |
| PlayQueue.JsRemainderOdd | context/MusicContext.tsx:225 | truncation toward zero: negating the dividend negates the remainder |
| PlayQueue.NextSlot | context/MusicContext.tsx:225 | the slot next plays is a valid queue position; JavaScript's truncating `%` is written out |
| PlayQueue.PrevSlot | context/MusicContext.tsx:233 | the slot previous plays is a valid queue position |
| PlayQueue.NextSlotSteps | context/MusicContext.tsx:222-227 | next moves one entry on, and the last entry wraps to the first |
| PlayQueue.NextSlotAbsent | context/MusicContext.tsx:224-225 | a current index missing from the queue makes next play queue[0] |
| PlayQueue.PrevSlotSteps | context/MusicContext.tsx:229-235 | previous moves one entry back, and the first entry wraps to the last |
| PlayQueue.PrevSlotAbsent | context/MusicContext.tsx:232-233 | a missing current index makes previous play the second-to-last entry, or the only entry of a one-entry queue |
| PlayQueue.NextPrevRoundTrip | context/MusicContext.tsx:222-235 | next then previous returns to the same entry, and so does previous then next |
| PlayQueue.FreshQueueFindsCurrent | context/MusicContext.tsx:185-190 | in a freshly generated queue of either mode, every track index is found at its position, and the queue has no repeats |
| MusicContext.ScanArtwork | context/MusicContext.tsx:130-134 | a scanned file gets an artwork path exactly when it parsed and has a picture; the path is in the artwork folder |
| MusicContext.ScanTracks | context/MusicContext.tsx:123-149 | one record per audio file in listing order, with its position as id and its own file in the music folder as uri; a file that parsed carries its artwork path |
| MusicContext.ScanTracksUniqueIds | context/MusicContext.tsx:123-149 | the scanned records have distinct ids, and each points at its own file in the music folder |
| MusicContext.ScanWritesInArtworkDir | context/MusicContext.tsx:130-134 | the scan writes only artwork files, never a path of the music folder |
| MusicContext.AudioPlayer.constructor | context/MusicContext.tsx:198-199 | `createAudioPlayer`: a new engine holds the track's source with the given status interval, at position 0 and not yet playing |
| MusicContext.AudioPlayer.Replace | context/MusicContext.tsx:194 | `replace`: the engine holds the new source from position 0 and keeps playing or not as before |
| MusicContext.AudioPlayer.Play | context/MusicContext.tsx:195 | `play`: the engine plays, at the same source and position |
| MusicContext.AudioPlayer.Pause | context/MusicContext.tsx:172 | `pause`: the engine stops playing, at the same source and position |
| MusicContext.AudioPlayer.SeekTo | context/MusicContext.tsx:218 | `seekTo`: the engine moves to the position, at the same source, playing or not as before |
| MusicContext.MusicProvider.constructor | context/MusicContext.tsx:53-61 | the initial state: no tracks, index -1, no engine, not playing, position and duration 0, both modes off, an empty queue |
| MusicContext.MusicProvider.CurrentTrack | context/MusicContext.tsx:240 | the current track exists exactly when the index is in range, and it is the track at the index |
| MusicContext.MusicProvider.SetCurrentTrackIndex | context/MusicContext.tsx:54 | the index becomes the given one |
| MusicContext.MusicProvider.SaveMetadata | context/MusicContext.tsx:101-104 | the metadata file holds the list; nothing else changes |
| MusicContext.MusicProvider.LoadSavedTracks | context/MusicContext.tsx:106-152 | the music folder exists afterwards. With a readable metadata file, the list is exactly the saved tracks whose file exists, and no file is written. Otherwise the list is the scan of the listing's audio files, and its artwork files and metadata file are written |
| MusicContext.MusicProvider.ScanMusicFolder | context/MusicContext.tsx:123-149 | the loop builds exactly the scanned records, in listing order, and writes exactly their artwork files |
| MusicContext.MusicProvider.AddTracks | context/MusicContext.tsx:154-158 | the list becomes the old list followed by the new tracks, and is saved |
| MusicContext.MusicProvider.UpdateTrack | context/MusicContext.tsx:160-168 | the list is the old one with every track of the id replaced. It is saved and announced exactly when reading the current index does not throw; otherwise no file changes |
| MusicContext.MusicProvider.DeleteTrack | context/MusicContext.tsx:170-183 | an absent id changes nothing. Otherwise the engine pauses if the track is current, keeping its source and position, and is untouched if not; the artwork file goes, and then the audio file goes. If that file is missing, the list and index stay. Otherwise the list loses the id, is saved, and the index becomes prev-1 when prev > idx, else -1 |
| MusicContext.MusicProvider.DeleteTrackFiles | context/MusicContext.tsx:175-178 | the artwork path (when not null or empty) and the audio path are removed; success exactly when the audio path existed apart from the artwork |
| MusicContext.MusicProvider.GeneratePlayQueue | context/MusicContext.tsx:185-190 | the queue is the identity when shuffle is off and a permutation of the track indices when it is on |
| MusicContext.MusicProvider.PlayTrack | context/MusicContext.tsx:192-209 | the engine (reused if there was one, otherwise created with a 1000 ms interval) plays the track. The provider is playing, the index is the given one, and a fresh queue for the current mode is in place; the position is not reset |
| MusicContext.MusicProvider.TogglePlayPause | context/MusicContext.tsx:211-215 | without an engine nothing changes; otherwise the playing flag flips and the engine follows it, at the same source and position |
| MusicContext.MusicProvider.SeekTo | context/MusicContext.tsx:217-220 | the position becomes the given one, and the engine seeks there |
| MusicContext.MusicProvider.PlayNextTrack | context/MusicContext.tsx:222-227 | an empty queue changes nothing; otherwise it plays the queue entry at NextSlot. An entry past the end of the list changes nothing |
| MusicContext.MusicProvider.PlayPreviousTrack | context/MusicContext.tsx:229-235 | the list and both modes never change. Past 3000 ms it seeks to 0 and keeps the index, queue and playing flag, even with an empty queue. Otherwise an empty queue changes nothing, and a non-empty one plays the entry at PrevSlot; an entry past the end of the list changes nothing |
| MusicContext.MusicProvider.ToggleShuffleMode | context/MusicContext.tsx:237 | the shuffle flag flips |
| MusicContext.MusicProvider.ToggleRepeatMode | context/MusicContext.tsx:238 | the repeat flag flips |
| MusicContext.MusicProvider.OnPlaybackStatus | context/MusicContext.tsx:64-82 | the list and both modes never change. Without an engine, or for an unloaded status, nothing changes. Otherwise the position and duration follow the status. A finished track, in repeat mode, restarts on the same engine with the index kept; otherwise next is played, and when next has nothing to play the index, queue, playing flag and engine stay |
| PlaylistOps.NewPlaylist | context/PlaylistContext.tsx:102-111 | a new playlist has no tracks; its id is the decimal digits of the id clock reading; it keeps the given name, description and artwork, and its two timestamps are the two other clock readings |
| PlaylistOps.RemovePlaylist | context/PlaylistContext.tsx:132 | no playlist with the id remains; the others all remain |
| PlaylistOps.RemovePlaylistAppend | context/PlaylistContext.tsx:132 | deleting distributes over concatenation, so the remaining playlists keep their order |
| PlaylistOps.CreateThenDelete | context/PlaylistContext.tsx:102-134 | creating a playlist with a new id, then deleting it, gives back the list |
| PlaylistOps.UpdatePlaylists | context/PlaylistContext.tsx:118-126 | the edit keeps the number of playlists and every position's id |
| PlaylistOps.UpdatePlaylistsEffect | context/PlaylistContext.tsx:118-126 | playlists with the edited id become the edit stamped with the clock; the others are identical; ids stay in place and stay unique; an unknown id changes nothing |
| PlaylistOps.UpdatePlaylistsTwice | context/PlaylistContext.tsx:118-126 | saving the same edit again only moves its timestamp |
| PlaylistOps.AddTrackTo | context/PlaylistContext.tsx:145-159 | adding keeps the number of playlists and every position's id |
| PlaylistOps.AddTrackToEffect | context/PlaylistContext.tsx:145-159 | the named playlist holds the track afterwards. A playlist lacking it becomes itself with the copy appended once and the clock as updatedAt, every other field kept; a playlist already holding it, and every other playlist, are unchanged. No duplicates are introduced |
| PlaylistOps.AddTrackToIdempotent | context/PlaylistContext.tsx:145-159 | adding the same track id a second time changes nothing, whatever copy and clock it sees |
| PlaylistOps.RemoveTrackFrom | context/PlaylistContext.tsx:164-174 | removing keeps the number of playlists and every position's id |
| PlaylistOps.RemoveTrackFromEffect | context/PlaylistContext.tsx:164-174 | the named playlist becomes itself without the id's tracks and with the clock as updatedAt, every other field kept: it no longer holds the id and keeps its other tracks. The other playlists are unchanged |
| PlaylistOps.AddThenRemove | context/PlaylistContext.tsx:136-174 | removing a track just added to a playlist that lacked it gives back that playlist's tracks |
| PlaylistOps.RemoveTrackEverywhere | context/PlaylistContext.tsx:178-183 | the cascade keeps the number of playlists and every position's id |
| PlaylistOps.RemoveTrackEverywhereEffect | context/PlaylistContext.tsx:178-183 | no playlist holds the id. Each keeps its other fields and its other tracks, and is stamped. One that never held the id keeps its tracks |
| PlaylistOps.RemoveTrackEverywhereTwice | context/PlaylistContext.tsx:178-183 | removing everywhere twice equals removing once at the later clock |
| PlaylistOps.PropagateTrackUpdate | context/PlaylistContext.tsx:40-57 | propagation keeps the number of playlists and every position's id |
| PlaylistOps.PropagateLeavesNoStaleCopy | context/PlaylistContext.tsx:40-57 | afterwards every copy with the id is the updated track. Playlist ids stay in place. A playlist holding the track gets its copies replaced and is stamped |
| PlaylistOps.PropagateOnlyContaining | context/PlaylistContext.tsx:41-47 | with unique playlist ids, playlists without the track are untouched, timestamp included |
| PlaylistOps.PropagateNoneContaining | context/PlaylistContext.tsx:40-45 | when no playlist holds the track, nothing changes |
| PlaylistContext.PlaylistProvider.constructor | context/PlaylistContext.tsx:36 | the provider starts with no playlists, over the given library |
| PlaylistContext.PlaylistProvider.LoadPlaylists | context/PlaylistContext.tsx:75-87 | a readable playlists file gives its list; otherwise the list stays as it was, empty at start |
| PlaylistContext.PlaylistProvider.SavePlaylists | context/PlaylistContext.tsx:89-100 | the playlists file holds the list and the provider adopts it; nothing else changes |
| PlaylistContext.PlaylistProvider.CreatePlaylist | context/PlaylistContext.tsx:102-116 | the new empty playlist is returned and appended; the existing playlists are unchanged; the list is saved |
| PlaylistContext.PlaylistProvider.UpdatePlaylist | context/PlaylistContext.tsx:118-129 | the list becomes UpdatePlaylists of the old one, and is saved |
| PlaylistContext.PlaylistProvider.DeletePlaylist | context/PlaylistContext.tsx:131-134 | the list loses every playlist with the id, and is saved |
| PlaylistContext.PlaylistProvider.AddTrackToPlaylist | context/PlaylistContext.tsx:136-162 | a track missing from the library is first appended to the library, and the metadata is saved. The playlist gets the library's copy, or the track itself, through AddTrackTo. The list is saved |
| PlaylistContext.PlaylistProvider.RemoveTrackFromPlaylist | context/PlaylistContext.tsx:164-176 | the list becomes RemoveTrackFrom of the old one, and is saved |
| PlaylistContext.PlaylistProvider.RemoveTrackFromAllPlaylists | context/PlaylistContext.tsx:178-185 | the list becomes RemoveTrackEverywhere of the old one, and is saved |
| PlaylistContext.PlaylistProvider.HandleTrackUpdate | context/PlaylistContext.tsx:40-62 | when no playlist holds the track, nothing changes; otherwise the list becomes PropagateTrackUpdate of the old one, and is saved |
| MusicImport.FileName | utils/musicImport.ts:75 | the picked name, or `track_<index>` when the picker gave none |
| MusicImport.TrackId | utils/musicImport.ts:84 | the id starts with the clock's digits, and its part after the last `_` is the index |
| MusicImport.TrackIdsDistinct | utils/musicImport.ts:84 | ids of different positions differ, even at the same clock reading |
| MusicImport.FileExtension | utils/musicImport.ts:120 | the extension is never empty and holds no `.` |
| MusicImport.FileExtensionCases | utils/musicImport.ts:120 | what follows the last `.` is the extension; a name ending in `.` gives mp3; a name without `.` is its own extension |
| MusicImport.StoredUri | utils/musicImport.ts:120-122 | the copy's uri lies in the music folder and has the picked name's extension |
| MusicImport.StoredUriShape | utils/musicImport.ts:120-122 | the copy lies directly in the music folder, named `{id}.{ext}` |
| MusicImport.ImportedTrack | utils/musicImport.ts:130-139 | the record keeps the id, uri and artwork. It takes the tags with the defaults "Unknown Artist", "Unknown Album" and the name without its extension; the year is null for 0 or absent; the duration is the rounded ms |
| MusicImport.ProcessFile | utils/musicImport.ts:83-145 | a file is added exactly when some metadata was parsed and the copy succeeded; an added record has the built id and a uri in the music folder; a failure reports "Failed to process <name>" |
| MusicImport.Outcomes | utils/musicImport.ts:73-146 | there is one outcome per picked file |
| MusicImport.AddedTracks | utils/musicImport.ts:141 | `newTracks` holds at most one record per file; each comes from an added outcome, and every added outcome's record is in it |
| MusicImport.Errors | utils/musicImport.ts:144 | `errors` holds at most one message per file; each comes from a failed outcome, and every failed outcome's message is in it |
| MusicImport.AddedTracksInOrder | utils/musicImport.ts:141 | the added records, each made an added outcome again, are exactly the files' added outcomes in file order |
| MusicImport.ErrorsInOrder | utils/musicImport.ts:144 | the error messages, each made a failed outcome again, are exactly the files' failed outcomes in file order |
| MusicImport.CountsAddUp | utils/musicImport.ts:141-145 | every file is either added or reported: the added count is the number of added outcomes, the error count the number of failed ones, and the two make up the file count |
| MusicImport.ImportCounts | utils/musicImport.ts:141-152 | for N picked files of which K fail, N-K records are added, exactly the successful files' records in file order, and K errors are reported, in file order |
| MusicImport.ProcessFileId | utils/musicImport.ts:84 | an added file's record carries the id built from its clock reading and index |
| MusicImport.ImportedIdsUnique | utils/musicImport.ts:84 | the records of one import have distinct ids |
| MusicImport.ProgressReports | utils/musicImport.ts:77-81 | one report per file, in order, with current = index+1, the constant total and the file's name |
| MusicImport.FullReads | utils/musicImport.ts:99-106 | the full file is read exactly for the files whose partial parse gave nothing |
| MusicImport.ImportMusicFiles | utils/musicImport.ts:41-167 | a picker failure gives "Failed to import files"; a cancel or an empty pick gives "No files selected"; neither touches anything. Otherwise the music folder exists and there is one report per file. Of N files of which K fail, tracksAdded is N-K and the errors are the K failure messages in file order. The callback runs at most once, only with a non-empty batch, and gets exactly the successful records in file order; the library becomes old ++ batch |
| MusicImport.ImportEach | utils/musicImport.ts:73-146 | the loop collects exactly the added records and the error messages in file order, with every report, full read and file write |
| MusicImport.ImportOne | utils/musicImport.ts:83-145 | one file: the partial parse, or else the full one. With no metadata or a failed copy it reports "Failed to process <name>"; otherwise it saves the artwork and copies the file |
| MusicImport.SaveFirstPicture | utils/musicImport.ts:112-117 | the first embedded picture, if any, becomes an artwork file whose path is returned |
| MusicImport.ImportMessage | utils/musicImport.ts:169-183 | the alert's title is "Import Complete" exactly for a successful result, and "Import Failed" otherwise; a success message starts with the count added and "track" or "tracks" by that count; a failure lists its errors one per line, or says "No tracks were imported." when there are none |
| MusicImport.FailedMessageLines | utils/musicImport.ts:180 | a failed import's message lists its errors one per line: splitting it gives them back |
| MusicImport.SuccessMessageCounts | utils/musicImport.ts:173-175 | a success message starts with the count added, and ends with the failed count when some failed |
| ArtworkStorage.ParseDataUri | utils/artworkStorage.ts:33-34 | a match yields well-formed groups that rebuild the input exactly |
| ArtworkStorage.ParseFormat | utils/artworkStorage.ts:33-36 | every well-formed data URI matches with the same groups, so a match happens exactly when the input is such a URI |
| ArtworkStorage.ImageExtension | utils/artworkStorage.ts:18 | `format.split('/')[1]` holds no `/`; it is "undefined" when the text has no `/` |
| ArtworkStorage.ImageExtensionOf | utils/artworkStorage.ts:18 | for `type/subtype` the extension is the subtype |
| ArtworkStorage.ImageExtensionWithoutSlash | utils/artworkStorage.ts:18 | a type with no `/` gives the extension "undefined" |
| ArtworkStorage.ArtworkFileName | utils/artworkStorage.ts:18 | the name starts with the clock's digits and ends with `.<extension>` |
| ArtworkStorage.ArtworkPath | utils/artworkStorage.ts:18-19 | the path lies in the artwork folder and ends with `.<extension>` |
| ArtworkStorage.ArtworkPathShape | utils/artworkStorage.ts:18-19 | an artwork path lies in the artwork folder, ends with `.<extension>`, and lies directly in it when the suffix has no `/` |
| ArtworkStorage.ArtworkNamesDistinct | utils/artworkStorage.ts:18 | names made at different clock readings never collide |
| ArtworkStorage.EnsureArtworkDir | utils/artworkStorage.ts:7-12 | the folder exists afterwards; it is created only when nothing was there; no file changes |
| ArtworkStorage.EnsureArtworkDirTwice | utils/artworkStorage.ts:7-12 | ensuring the folder twice gives the same state as ensuring it once |
| ArtworkStorage.SaveArtworkToFile | utils/artworkStorage.ts:15-27 | the returned path is the artwork path of the clock, suffix and type; the bytes are written there; no other file changes |
| ArtworkStorage.SaveBase64ArtworkToFile | utils/artworkStorage.ts:30-45 | the folder is ensured first. A non-matching input fails with "Invalid base64 data URI" and writes nothing; a match writes the payload at the returned artwork path |
| ArtworkStorage.DeleteArtworkFile | utils/artworkStorage.ts:48-58 | null or "" changes nothing; otherwise the path goes if it exists; every other path stays; no failure is reported |
| FileStore.FileSystem.MakeDirectory | utils/artworkStorage.ts:10 | `makeDirectoryAsync`: the folder exists afterwards; no file and no other folder changes |
| FileStore.FileSystem.Write | utils/artworkStorage.ts:22-24 | `writeAsStringAsync`: the path holds the new content; every other path and every folder stays |
| FileStore.FileSystem.Delete | context/MusicContext.tsx:178 | `deleteAsync`: the path is no longer a file or a folder; it succeeds exactly when something was there, and its failure stands for the throw on a missing path |
| Lyrics.MatchLrc | components/LyricsView.tsx:63 | a match yields text groups that are well formed and rebuild the line exactly |
| Lyrics.MatchFormat | components/LyricsView.tsx:63 | every well-formed `[m:s.f]text` line matches with the same groups, so a line matches exactly when it is such a line |
| Lyrics.ParseSyncedLine | components/LyricsView.tsx:62-70 | a line gives a lyric exactly when it matches; the lyric is the rounded start time in ms with the trimmed text |
| Lyrics.ParseSyncedLines | components/LyricsView.tsx:60-71 | the synced parse gives at most one lyric per line, none with a negative start time |
| Lyrics.ParseSynced | components/LyricsView.tsx:59-71 | splitting at line feeds, the parse gives at most one lyric per line, none with a negative start time |
| Lyrics.ParseSyncedLinesAppend | components/LyricsView.tsx:60-71 | the parse works line by line, so order is preserved |
| Lyrics.ParseSyncedLinesRejected | components/LyricsView.tsx:64 | lines that do not match contribute nothing |
| Lyrics.ParseFormattedLine | components/LyricsView.tsx:62-70 | a well-formed line parses to its start time and trimmed text |
| Lyrics.ParseSyncedLinesAllMatch | components/LyricsView.tsx:60-71 | when every line parses, the result is their lyrics in order |
| Lyrics.ParseSyncedFile | components/LyricsView.tsx:59-71 | well-formed LRC lines joined by line feeds parse back to their lyrics, in order |
| Lyrics.TerminatedLineDropped | components/LyricsView.tsx:63 | a line that ends in a carriage return or another line terminator does not match |
| Lyrics.ExampleStartTime | components/LyricsView.tsx:67 | 01:02.50 starts at 62500 ms |
| Lyrics.LrcStartTime | components/LyricsView.tsx:67 | the start time is never negative and lies within half a millisecond of minutes*60000 + seconds*1000 |
| Lyrics.ExampleSyncedLine | components/LyricsView.tsx:62-70 | `[01:02.50]Hello` parses to a lyric at 62500 ms reading "Hello" |
| Lyrics.ParsePlainShape | components/LyricsView.tsx:72-79 | there is one lyric per non-blank line; the i-th starts at i*1000 and holds the trim of the i-th non-blank line, which is non-empty and unpadded |
| Lyrics.ParsePlain | components/LyricsView.tsx:72-79 | at most one lyric per line, none with empty text |
| Lyrics.ParsePlainEmpty | components/LyricsView.tsx:72-79 | an empty text gives no lyrics |
| Lyrics.ParsePlainFile | components/LyricsView.tsx:72-79 | non-blank, unpadded lines without line feeds, joined by line feeds, parse back to exactly those lines, the i-th at i*1000 |
| Lyrics.LoadLyrics | components/LyricsView.tsx:47-82 | synced lyrics take precedence, then plain ones. A failed fetch gives exactly its message as the error. With neither kind of lyrics, the error is "No lyrics found", also for a response that is not OK |
| Lyrics.AfterFetch | components/LyricsView.tsx:84-91 | a cancelled fetch changes nothing. Otherwise it sets the lyrics with no error, or the error with no lyrics; the highlighted index is kept |
| Lyrics.FirstActiveFrom | components/LyricsView.tsx:110-114 | `findIndex` from a start: the first active line at or after it, or -1 when none is |
| Lyrics.ActiveLine | components/LyricsView.tsx:110-114 | the first line that has started 930 ms ahead of the player while the next has not; -1 exactly when no line qualifies |
| Lyrics.NextLineIndex | components/LyricsView.tsx:106-116 | the lyrics and error stay. With lyrics and an active line, the index becomes that line; with no lyrics or no active line, the state is unchanged |
| Lyrics.ActiveLineSorted | components/LyricsView.tsx:110-114 | on time-ordered lyrics a line is highlighted exactly when the first has started, and it is the last line that has started |
| Lyrics.ActiveLineIs | components/LyricsView.tsx:110-114 | on time-ordered lyrics an active line is the one chosen |
| Lyrics.PlainStartTimes | components/LyricsView.tsx:76-78 | plain lyrics start a second apart, in order |
| Lyrics.PlainActiveLine | components/LyricsView.tsx:106-116 | with plain lyrics the highlighted line is the look-ahead position in whole seconds, capped at the last line |
| Strings.NatToString | context/MusicContext.tsx:136 | `String(n)` is a non-empty run of digits |
| Strings.NatToStringRoundTrip | context/MusicContext.tsx:136 | reading the digits back gives the number |
| Strings.NatToStringInjective | context/MusicContext.tsx:136 | different numbers have different decimal forms |
| Strings.Split | components/LyricsView.tsx:61 | `split` gives at least one part, and no part holds the separator |
| Strings.JoinSplit | components/LyricsView.tsx:61 | joining the parts of a split with the separator gives the string back |
| Strings.Join | utils/musicImport.ts:180 | `join` starts with the first part and ends with the last |
| Strings.SplitJoin | utils/musicImport.ts:180 | splitting a join of separator-free parts gives the parts back |
| Strings.LastSegment | utils/musicImport.ts:120 | `split(sep).pop()` holds no separator |
| Strings.LastSegmentAfter | utils/musicImport.ts:120 | the last segment is what follows the last separator |
| Strings.StripExtension | context/MusicContext.tsx:137 | `replace(/\.[^/.]+$/, '')` gives a prefix of the name |
| Strings.StripExtensionOf | utils/musicImport.ts:132 | the pattern removes exactly a final `.ext` with no `.` or `/` in ext |
| Strings.StripExtensionWithoutDot | utils/musicImport.ts:132 | a name without `.` is kept whole |
| Strings.Trim | components/LyricsView.tsx:68 | `trim`: the input is the result with white space only on either side; the result has no white space at either end, and is "" exactly for all-blank text |
| Strings.TrimIdempotent | components/LyricsView.tsx:75-78 | trimming twice changes nothing more |
| Strings.RoundHalfUp | utils/musicImport.ts:136 | `Math.round` lies within half a unit of its argument, halves rounding up |
| Cascade.DeleteSongEverywhere | components/SongItem.tsx:50-52 | afterwards no playlist holds the id. The library loses it exactly when the delete succeeds; otherwise the library keeps it while the playlists have lost it |
| Cascade.UpdateTrackEverywhere | context/PlaylistContext.tsx:39-69 | the library replaces the track. When the update is announced (context/MusicContext.tsx:167), the playlists holding the track take its new version, and no stale copy remains |
| Cascade.ReloadAfterAdd | context/MusicContext.tsx:106-158 | after adding tracks and restarting, the library loads back as old ++ new, in order, when every audio file still exists |

## Left out

- One clock reading per playlist operation: `handleTrackUpdate`, `updatePlaylist`, `addTrackToPlaylist`, `removeTrackFromPlaylist` and `removeTrackFromAllPlaylists` call `Date.now()` inside their map callbacks (context/PlaylistContext.tsx:53, 123, 154, 170, 182), once per playlist changed; the model passes one `now` per call, so every playlist one call changes gets the same `updatedAt`. No property proved here depends on the readings being equal or distinct.
- JSON serialisation of the two persisted files: a file holds the value it serialises, so reading one back always parses.
- Base64 encoding and decoding, and the tag parser: a parse is an input, and a base64 write stores its payload.
- The lrclib request, its URL encoding and the network: `Lyrics.LoadLyrics` starts from the response.
- The `if (!currentTrack) return` guard, the loading flag and the autoscroll of the lyrics screen are view state.
- The engine's listener subscription and unsubscription, the unmount cleanup, and the render and closure timing of React state. Each provider's operations act on the current state, and state updates are immediate.
- `Promise.all` in the directory scan: files are scanned one after another, which reaches the same records and writes.
- The event emitter: `MusicContext.MusicProvider.UpdateTrack` returns whether the event is emitted, and `Cascade.UpdateTrackEverywhere` delivers it.
- Write failures and the `catch` of `savePlaylists`: writes and folder creation always succeed. The failures that are modelled are the picker's, an unreadable metadata or playlists file, a file that cannot be read or parsed in the import or the scan, a failed copy, a missing audio file on delete, and a failed lyrics request.
- `addTracksCallback` throwing: the callback is the library's `AddTracks`, which cannot fail.
- Floating point: positions and status times are integer ms; track durations and lyric seconds are exact reals and decimals, so `Math.round` applies to the exact value.
- `playTrack(undefined, i)`, reached from next or previous through a queue older than the list. A queue exists only after some `playTrack`, so an engine exists and the call reaches `playbackInstance.replace(undefined)` (context/MusicContext.tsx:194). The engine's code is not part of this model; the model assumes that call throws before any state changes, so `MusicContext.MusicProvider.PlayNextTrack` and `MusicContext.MusicProvider.PlayPreviousTrack` change nothing there.
- The value of `FileSystem.documentDirectory`, the random suffix's alphabet, and the order the random sort produces: these are a fixed folder, an arbitrary string and an arbitrary permutation.
- `Alert.alert`: only the title and the message text are modelled.
- MusicContext.MusicProvider.LoadSavedTracks: states the folders created as bounds, between none and the music and artwork folders, rather than naming them exactly.
- MusicContext.MusicProvider.ScanMusicFolder: states the artwork folder's creation as a bound, for the same reason.
- MusicImport.ImportMusicFiles: states the folders created as bounds, as above.
- MusicImport.ImportEach: states the artwork folder's creation as a bound.
- MusicImport.ImportOne: states the artwork folder's creation as a bound.
- MusicImport.SaveFirstPicture: states the artwork folder's creation as a bound.
- MusicImport.Outcomes: its contract gives only the count; what each outcome is comes from `ProcessFile`, and the lemmas beside it state the rest.
- Lyrics.ParseSyncedLines: its contract gives only a bound on the count and the sign of the start times; the lemmas beside it (`ParseSyncedLinesAppend`, `ParseSyncedFile` and the others) state the rest.
- The ranged fetch of the partial parse (a `Range: bytes=0-300000` request, utils/musicImport.ts:27-39 and 88): its answer, metadata or nothing, is a parameter of each file, so the request itself is not modelled.
