/** `context/MusicContext.tsx`: the library provider. It owns the track
    list, the current index, the audio engine handle and the play queue,
    and persists the list to the metadata file after every change. The
    pure list transformations it applies live in `Library`, the queue
    arithmetic in `PlayQueue`. */
module MusicContext {
  import opened Wrappers
  import opened Strings
  import opened Library
  import opened PlayQueue
  import opened FileStore
  import opened ArtworkStorage

  const MusicDir: string := DocumentDirectory + "music/"
  const TracksMetadataPath: string := DocumentDirectory + "tracks_metadata.json"
  /** How far into a track (ms) "previous" restarts it instead. */
  const RestartThresholdMs: int := 3000
  /** The status-update interval (ms) a new player is created with. */
  const StatusIntervalMs: int := 1000

  /** What reading and parsing the `i`-th audio file of a directory scan
      gives (`None` when either throws), and the clock and random suffix
      its artwork file would be named with. */
  datatype ScanProbe = ScanProbe(meta: Option<Metadata>, artClock: nat, artSuffix: string)

  /** A `playbackStatusUpdate` event, with its times already in ms. */
  datatype PlaybackStatus = PlaybackStatus(isLoaded: bool, currentTimeMs: int, durationMs: int, didJustFinish: bool)

  /** The artwork file saved for a scanned file: its first picture, if any. */
  function ScanArtwork(p: ScanProbe): (r: Option<string>)
    ensures r.Some? <==> p.meta.Some? && |p.meta.value.pictures| > 0
    ensures r.Some? ==> ArtworkDir <= r.value
  {
    if p.meta.Some? && |p.meta.value.pictures| > 0
    then Some(ArtworkPath(p.artClock, p.artSuffix, p.meta.value.pictures[0].format))
    else None
  }

  function ScanWrite(p: ScanProbe): seq<(string, Content)> {
    if p.meta.Some? && |p.meta.value.pictures| > 0
    then [(ArtworkPath(p.artClock, p.artSuffix, p.meta.value.pictures[0].format), Bytes(p.meta.value.pictures[0].data))]
    else []
  }

  /** The artwork files the scan of the first `n` audio files writes. */
  function ScanWrites(probe: nat -> ScanProbe, n: nat): seq<(string, Content)> {
    if n == 0 then [] else ScanWrites(probe, n - 1) + ScanWrite(probe(n - 1))
  }

  /** The records the directory scan builds, one per audio file in order. */
  function ScanTracks(audio: seq<string>, probe: nat -> ScanProbe): (r: seq<Track>)
    ensures |r| == |audio|
    ensures forall i :: 0 <= i < |r| ==> r[i].id == NatToString(i) && r[i].uri == MusicDir + audio[i]
    ensures forall i :: 0 <= i < |r| && probe(i).meta.Some? ==> r[i].artwork == ScanArtwork(probe(i))
  {
    var r := seq(|audio|, i requires 0 <= i < |audio| =>
      ScannedTrack(MusicDir + audio[i], audio[i], i, probe(i).meta, ScanArtwork(probe(i))));
    assert forall i :: 0 <= i < |r| ==> r[i] == ScannedTrack(MusicDir + audio[i], audio[i], i, probe(i).meta, ScanArtwork(probe(i)));
    r
  }

  /** Scanned records have distinct ids (their positions) and point into
      the music folder at their own file. */
  lemma ScanTracksUniqueIds(audio: seq<string>, probe: nat -> ScanProbe)
    ensures UniqueIds(ScanTracks(audio, probe))
    ensures forall i :: 0 <= i < |audio| ==> ScanTracks(audio, probe)[i].uri == MusicDir + audio[i]
  {
    var r := ScanTracks(audio, probe);
    forall i | 0 <= i < |audio| ensures r[i].id == NatToString(i) && r[i].uri == MusicDir + audio[i] {
      var t := ScannedTrack(MusicDir + audio[i], audio[i], i, probe(i).meta, ScanArtwork(probe(i)));
      assert r[i] == t;
    }
    forall i, j | 0 <= i < j < |audio| ensures r[i].id != r[j].id {
      if r[i].id == r[j].id {
        NatToStringInjective(i, j);
      }
    }
  }

  /** Scanning one more file appends its record. */
  lemma ScanTracksSnoc(audio: seq<string>, probe: nat -> ScanProbe, i: nat)
    requires i < |audio|
    ensures ScanTracks(audio[..i + 1], probe) ==
      ScanTracks(audio[..i], probe) + [ScannedTrack(MusicDir + audio[i], audio[i], i, probe(i).meta, ScanArtwork(probe(i)))]
  {
  }

  /** The scan writes only into the artwork folder, so it never touches a
      file of the music folder. */
  lemma {:induction false} ScanWritesInArtworkDir(probe: nat -> ScanProbe, n: nat, p: string)
    requires MusicDir <= p
    ensures forall i :: 0 <= i < |ScanWrites(probe, n)| ==> ScanWrites(probe, n)[i].0 != p
  {
    if n > 0 {
      ScanWritesInArtworkDir(probe, n - 1, p);
      var w := ScanWrite(probe(n - 1));
      if |w| > 0 {
        ArtworkPathShape(probe(n - 1).artClock, probe(n - 1).artSuffix, probe(n - 1).meta.value.pictures[0].format);
        assert w[0].0[|DocumentDirectory|] == 'a' && p[|DocumentDirectory|] == 'm';
      }
    }
  }

  /** The engine handle (`AudioPlayer`). Only the calls the provider makes
      are modelled: what it plays, whether it plays, where it is. */
  class AudioPlayer {
    var source: string
    var playing: bool
    var positionMs: int
    const updateIntervalMs: int

    constructor (source: string, updateIntervalMs: int)
      ensures this.source == source && !playing && positionMs == 0
      ensures this.updateIntervalMs == updateIntervalMs
    {
      this.source := source;
      this.updateIntervalMs := updateIntervalMs;
      playing := false;
      positionMs := 0;
    }

    method Replace(source: string)
      modifies this
      ensures this.source == source && positionMs == 0 && playing == old(playing)
    {
      this.source := source;
      positionMs := 0;
    }

    method Play()
      modifies this
      ensures playing && source == old(source) && positionMs == old(positionMs)
    {
      playing := true;
    }

    method Pause()
      modifies this
      ensures !playing && source == old(source) && positionMs == old(positionMs)
    {
      playing := false;
    }

    method SeekTo(ms: int)
      modifies this
      ensures positionMs == ms && source == old(source) && playing == old(playing)
    {
      positionMs := ms;
    }
  }

  class MusicProvider {
    const fs: FileSystem
    var tracks: seq<Track>
    var currentTrackIndex: int
    var player: AudioPlayer?
    var isPlaying: bool
    var position: int
    var duration: int
    var isShuffleMode: bool
    var isRepeatMode: bool
    var playQueue: seq<int>

    constructor (fs: FileSystem)
      ensures this.fs == fs && tracks == [] && currentTrackIndex == -1 && player == null
      ensures !isPlaying && position == 0 && duration == 0
      ensures !isShuffleMode && !isRepeatMode && playQueue == []
    {
      this.fs := fs;
      tracks := [];
      currentTrackIndex := -1;
      player := null;
      isPlaying := false;
      position := 0;
      duration := 0;
      isShuffleMode := false;
      isRepeatMode := false;
      playQueue := [];
    }

    /** `tracks[currentTrackIndex] || null`. */
    function CurrentTrack(): (r: Option<Track>)
      reads this
      ensures r.Some? <==> 0 <= currentTrackIndex < |tracks|
      ensures r.Some? ==> r.value == tracks[currentTrackIndex]
    {
      if 0 <= currentTrackIndex < |tracks| then Some(tracks[currentTrackIndex]) else None
    }

    method SetCurrentTrackIndex(index: int)
      modifies this`currentTrackIndex
      ensures currentTrackIndex == index
    {
      currentTrackIndex := index;
    }

    /** `saveMetadata(data)`: replaces the metadata file. */
    method SaveMetadata(data: seq<Track>)
      modifies fs
      ensures fs.files == old(fs.files)[TracksMetadataPath := TrackIndex(data)] && fs.dirs == old(fs.dirs)
    {
      fs.Write(TracksMetadataPath, TrackIndex(data));
    }

    /** `loadSavedTracks`: with a readable metadata file, the saved records
        whose audio file still exists; otherwise a scan of the music
        folder's audio files (`listing` is what reading the folder lists),
        which is then saved. The folder is created first if missing. */
    method LoadSavedTracks(listing: seq<string>, probe: nat -> ScanProbe)
      modifies this`tracks, fs
      ensures fs.Exists(MusicDir)
      ensures old(TracksMetadataPath in fs.files && fs.files[TracksMetadataPath].TrackIndex?) ==>
        && tracks == KeepExisting(old(fs.files[TracksMetadataPath].tracks), fs.files.Keys + fs.dirs)
        && fs.files == old(fs.files)
        && fs.dirs == old(fs.dirs) + (if old(fs.Exists(MusicDir)) then {} else {MusicDir})
      ensures !old(TracksMetadataPath in fs.files && fs.files[TracksMetadataPath].TrackIndex?) ==>
        && tracks == ScanTracks(AudioFiles(listing), probe)
        && fs.files == WithWrites(old(fs.files), ScanWrites(probe, |AudioFiles(listing)|))[TracksMetadataPath := TrackIndex(tracks)]
        && old(fs.dirs) <= fs.dirs <= old(fs.dirs) + {MusicDir, ArtworkDir}
    {
      if !fs.Exists(MusicDir) {
        fs.MakeDirectory(MusicDir);
      }
      if TracksMetadataPath in fs.files && fs.files[TracksMetadataPath].TrackIndex? {
        tracks := KeepExisting(fs.files[TracksMetadataPath].tracks, fs.files.Keys + fs.dirs);
        return;
      }
      var scanned := ScanMusicFolder(AudioFiles(listing), probe);
      WithWritesKeys(old(fs.files), ScanWrites(probe, |AudioFiles(listing)|));
      tracks := scanned;
      SaveMetadata(scanned);
    }

    /** The scan loop of `loadSavedTracks`: one record per audio file,
        saving each file's first picture as an artwork file. */
    method ScanMusicFolder(audio: seq<string>, probe: nat -> ScanProbe) returns (scanned: seq<Track>)
      modifies fs
      ensures scanned == ScanTracks(audio, probe)
      ensures fs.files == WithWrites(old(fs.files), ScanWrites(probe, |audio|))
      ensures old(fs.dirs) <= fs.dirs <= old(fs.dirs) + {ArtworkDir}
    {
      scanned := [];
      var i := 0;
      while i < |audio|
        invariant 0 <= i <= |audio|
        invariant scanned == ScanTracks(audio[..i], probe)
        invariant fs.files == WithWrites(old(fs.files), ScanWrites(probe, i))
        invariant old(fs.dirs) <= fs.dirs <= old(fs.dirs) + {ArtworkDir}
      {
        var file := audio[i];
        var p := probe(i);
        var art: Option<string> := None;
        if p.meta.Some? && |p.meta.value.pictures| > 0 {
          var pic := p.meta.value.pictures[0];
          var uri := SaveArtworkToFile(fs, pic.data, pic.format, p.artClock, p.artSuffix);
          art := Some(uri);
          assert ScanWrites(probe, i + 1) == ScanWrites(probe, i) + [(uri, Bytes(pic.data))];
          WithWritesSnoc(old(fs.files), ScanWrites(probe, i), (uri, Bytes(pic.data)));
        } else {
          assert ScanWrites(probe, i + 1) == ScanWrites(probe, i);
        }
        ScanTracksSnoc(audio, probe, i);
        scanned := scanned + [ScannedTrack(MusicDir + file, file, i, p.meta, art)];
        i := i + 1;
      }
      assert audio[..i] == audio;
    }

    /** `addTracks(newTracks)`: appends and saves. */
    method AddTracks(newTracks: seq<Track>)
      modifies this`tracks, fs
      ensures tracks == old(tracks) + newTracks
      ensures fs.files == old(fs.files)[TracksMetadataPath := TrackIndex(tracks)] && fs.dirs == old(fs.dirs)
    {
      tracks := tracks + newTracks;
      SaveMetadata(tracks);
    }

    /** `updateTrack(upd)`: replaces every record with `upd`'s id. Reading
        `tracks[currentTrackIndex].id` throws when the index is past the
        end; then the list is updated but neither saved nor announced.
        `notified` says whether the `trackUpdated` event is emitted. */
    method UpdateTrack(upd: Track) returns (notified: bool)
      modifies this`tracks, fs
      ensures tracks == ReplaceById(old(tracks), upd)
      ensures notified == (old(currentTrackIndex) < |old(tracks)|)
      ensures fs.dirs == old(fs.dirs)
      ensures fs.files == if notified then old(fs.files)[TracksMetadataPath := TrackIndex(tracks)] else old(fs.files)
    {
      var before := tracks;
      tracks := ReplaceById(tracks, upd);
      if currentTrackIndex >= |before| {
        return false;
      }
      SaveMetadata(tracks);
      notified := true;
    }

    /** `deleteTrack(id)`: pauses the engine when the track is the current
        one (leaving `isPlaying` as it was), deletes its artwork, then its
        audio file; deleting a missing audio file throws, which leaves the
        list as it was. Otherwise the record goes, the list is saved and
        the current index moves as `IndexAfterDelete` says. */
    method DeleteTrack(id: string) returns (deleted: bool)
      modifies this`tracks, this`currentTrackIndex, player, fs
      ensures !HasId(old(tracks), id) ==>
        && !deleted && tracks == old(tracks) && currentTrackIndex == old(currentTrackIndex)
        && fs.files == old(fs.files) && fs.dirs == old(fs.dirs)
        && (player != null ==> unchanged(player))
      ensures HasId(old(tracks), id) ==>
        var idx := FindIndex(old(tracks), id);
        var t := old(tracks)[idx];
        var art := ArtworkToDelete(t);
        && (idx == old(currentTrackIndex) && player != null ==>
              !player.playing && player.source == old(player.source) && player.positionMs == old(player.positionMs))
        && (idx != old(currentTrackIndex) && player != null ==> unchanged(player))
        && deleted == (t.uri in (old(fs.files).Keys + old(fs.dirs)) - art)
        && (!deleted ==>
              && tracks == old(tracks) && currentTrackIndex == old(currentTrackIndex)
              && fs.files == old(fs.files) - art && fs.dirs == old(fs.dirs) - art)
        && (deleted ==>
              && tracks == RemoveById(old(tracks), id)
              && currentTrackIndex == IndexAfterDelete(old(currentTrackIndex), idx)
              && fs.files == (old(fs.files) - art - {t.uri})[TracksMetadataPath := TrackIndex(tracks)]
              && fs.dirs == old(fs.dirs) - art - {t.uri})
    {
      var idx := FindIndex(tracks, id);
      if idx < 0 {
        return false;
      }
      if idx == currentTrackIndex && player != null {
        player.Pause();
      }
      var t := tracks[idx];
      var ok := DeleteTrackFiles(fs, t);
      if !ok {
        return false;
      }
      tracks := RemoveById(tracks, id);
      SaveMetadata(tracks);
      currentTrackIndex := IndexAfterDelete(currentTrackIndex, idx);
      deleted := true;
    }

    /** The file deletions of `deleteTrack`: the artwork when there is
        one, then the audio file, whose absence is reported as failure. */
    static method DeleteTrackFiles(fs: FileSystem, t: Track) returns (ok: bool)
      modifies fs
      ensures ok == (t.uri in (old(fs.files).Keys + old(fs.dirs)) - ArtworkToDelete(t))
      ensures !ok ==> fs.files == old(fs.files) - ArtworkToDelete(t) && fs.dirs == old(fs.dirs) - ArtworkToDelete(t)
      ensures ok ==> && fs.files == old(fs.files) - ArtworkToDelete(t) - {t.uri}
                     && fs.dirs == old(fs.dirs) - ArtworkToDelete(t) - {t.uri}
    {
      if t.artwork.Some? && t.artwork.value != "" {
        DeleteArtworkFile(fs, t.artwork);
      }
      ok := fs.Delete(t.uri);
    }

    /** The artwork path `deleteTrack` removes: none for `null` or "". */
    static function ArtworkToDelete(t: Track): set<string> {
      if t.artwork.Some? && t.artwork.value != "" then {t.artwork.value} else {}
    }

    /** `generatePlayQueue`: the identity order, or when shuffling some
        permutation of it (which one is the random sort's business). */
    method GeneratePlayQueue()
      modifies this`playQueue
      ensures IsQueueFor(playQueue, |tracks|, isShuffleMode)
    {
      if isShuffleMode {
        IdentityIsPermutation(|tracks|);
        var q :| IsPermutation(q, |tracks|);
        playQueue := q;
      } else {
        playQueue := Identity(|tracks|);
      }
    }

    /** What playing track `t` at index `k` leaves behind: the engine plays
        `t` (the same engine when there was one), the provider says playing,
        `k` is current and the queue is freshly generated. */
    twostate predicate PlayedTrack(k: int, t: Track)
      reads this, player
    {
      && player != null && player.source == t.uri && player.playing
      && (old(player) != null ==> player == old(player))
      && isPlaying && currentTrackIndex == k
      && IsQueueFor(playQueue, |tracks|, isShuffleMode)
      && tracks == old(tracks) && isShuffleMode == old(isShuffleMode) && isRepeatMode == old(isRepeatMode)
    }

    /** `playTrack(track, idx)`: reuses the engine when there is one, else
        creates it; the provider's `position` is not reset. */
    method PlayTrack(track: Track, idx: int)
      modifies this, player
      ensures PlayedTrack(idx, track)
      ensures position == old(position) && duration == old(duration)
      ensures old(player) == null ==> fresh(player) && player.updateIntervalMs == StatusIntervalMs
      ensures old(player) != null ==> player.positionMs == 0
    {
      if player != null {
        player.Replace(track.uri);
        player.Play();
      } else {
        var p := new AudioPlayer(track.uri, StatusIntervalMs);
        p.Play();
        player := p;
      }
      isPlaying := true;
      currentTrackIndex := idx;
      GeneratePlayQueue();
    }

    /** `togglePlayPause`: nothing without an engine; otherwise the engine
        is paused or resumed by what the provider believes, and the belief
        flips. */
    method TogglePlayPause()
      modifies this`isPlaying, player
      ensures player == null ==> isPlaying == old(isPlaying)
      ensures player != null ==>
        && isPlaying == !old(isPlaying) && player.playing == isPlaying
        && player.source == old(player.source) && player.positionMs == old(player.positionMs)
    {
      if player == null {
        return;
      }
      if isPlaying {
        player.Pause();
      } else {
        player.Play();
      }
      isPlaying := !isPlaying;
    }

    /** `seekTo(ms)`. */
    method SeekTo(ms: int)
      modifies this`position, player
      ensures position == ms
      ensures player != null ==> player.positionMs == ms && player.source == old(player.source) && player.playing == old(player.playing)
    {
      if player != null {
        player.SeekTo(ms);
      }
      position := ms;
    }

    /** `playNextTrack`: nothing on an empty queue; otherwise the entry
        after the current index's position in the queue, the first when
        the current index is absent. A queue entry with no track behind it
        (a queue older than the list) changes nothing. */
    method PlayNextTrack()
      modifies this, player
      ensures position == old(position) && duration == old(duration)
      ensures |old(playQueue)| == 0 ==> unchanged(this) && (player != null ==> unchanged(player))
      ensures |old(playQueue)| > 0 ==>
        var k := old(playQueue)[NextSlot(old(playQueue), old(currentTrackIndex))];
        && (0 <= k < |old(tracks)| ==> PlayedTrack(k, old(tracks)[k]))
        && (!(0 <= k < |old(tracks)|) ==> unchanged(this) && (player != null ==> unchanged(player)))
    {
      if |playQueue| == 0 {
        return;
      }
      var k := playQueue[NextSlot(playQueue, currentTrackIndex)];
      if 0 <= k < |tracks| {
        PlayTrack(tracks[k], k);
      }
    }

    /** `playPreviousTrack`: past the threshold it restarts the track, even
        with an empty queue; otherwise like next, one entry back, and the
        second-to-last when the current index is absent. */
    method PlayPreviousTrack()
      modifies this, player
      ensures duration == old(duration)
      ensures tracks == old(tracks) && isShuffleMode == old(isShuffleMode) && isRepeatMode == old(isRepeatMode)
      ensures old(position) > RestartThresholdMs ==>
        && position == 0 && tracks == old(tracks) && currentTrackIndex == old(currentTrackIndex)
        && isPlaying == old(isPlaying) && playQueue == old(playQueue) && player == old(player)
        && (player != null ==> player.positionMs == 0 && player.source == old(player.source) && player.playing == old(player.playing))
      ensures old(position) <= RestartThresholdMs && |old(playQueue)| == 0 ==>
        unchanged(this) && (player != null ==> unchanged(player))
      ensures old(position) <= RestartThresholdMs && |old(playQueue)| > 0 ==>
        var k := old(playQueue)[PrevSlot(old(playQueue), old(currentTrackIndex))];
        && position == old(position)
        && (0 <= k < |old(tracks)| ==> PlayedTrack(k, old(tracks)[k]))
        && (!(0 <= k < |old(tracks)|) ==> unchanged(this) && (player != null ==> unchanged(player)))
    {
      if position > RestartThresholdMs {
        SeekTo(0);
        return;
      }
      if |playQueue| == 0 {
        return;
      }
      var k := playQueue[PrevSlot(playQueue, currentTrackIndex)];
      if 0 <= k < |tracks| {
        PlayTrack(tracks[k], k);
      }
    }

    method ToggleShuffleMode()
      modifies this`isShuffleMode
      ensures isShuffleMode == !old(isShuffleMode)
    {
      isShuffleMode := !isShuffleMode;
    }

    method ToggleRepeatMode()
      modifies this`isRepeatMode
      ensures isRepeatMode == !old(isRepeatMode)
    {
      isRepeatMode := !isRepeatMode;
    }

    /** The engine's status listener: no listener without an engine, and
        unloaded statuses are ignored; otherwise position and duration
        follow the engine, and a finished track restarts (repeat) or
        advances to the next. */
    method OnPlaybackStatus(st: PlaybackStatus)
      modifies this, player
      ensures old(player) == null || !st.isLoaded ==> unchanged(this) && (player != null ==> unchanged(player))
      ensures tracks == old(tracks) && isShuffleMode == old(isShuffleMode) && isRepeatMode == old(isRepeatMode)
      ensures old(player) != null && st.isLoaded ==> position == st.currentTimeMs && duration == st.durationMs
      ensures old(player) != null && st.isLoaded && !st.didJustFinish ==>
        && tracks == old(tracks) && currentTrackIndex == old(currentTrackIndex) && isPlaying == old(isPlaying)
        && playQueue == old(playQueue) && player == old(player) && unchanged(player)
      ensures old(player) != null && st.isLoaded && st.didJustFinish && old(isRepeatMode) ==>
        && tracks == old(tracks) && currentTrackIndex == old(currentTrackIndex) && isPlaying == old(isPlaying)
        && playQueue == old(playQueue) && player == old(player)
        && player.positionMs == 0 && player.playing && player.source == old(player.source)
      ensures old(player) != null && st.isLoaded && st.didJustFinish && !old(isRepeatMode) && |old(playQueue)| > 0 ==>
        var k := old(playQueue)[NextSlot(old(playQueue), old(currentTrackIndex))];
        0 <= k < |old(tracks)| ==> PlayedTrack(k, old(tracks)[k])
      ensures (old(player) != null && st.isLoaded && st.didJustFinish && !old(isRepeatMode) &&
               (|old(playQueue)| == 0 || !(0 <= old(playQueue)[NextSlot(old(playQueue), old(currentTrackIndex))] < |old(tracks)|)))
        ==>
        && currentTrackIndex == old(currentTrackIndex) && isPlaying == old(isPlaying)
        && playQueue == old(playQueue) && player == old(player) && unchanged(player)
    {
      if player == null || !st.isLoaded {
        return;
      }
      position := st.currentTimeMs;
      duration := st.durationMs;
      if st.didJustFinish {
        if isRepeatMode {
          player.SeekTo(0);
          player.Play();
        } else {
          PlayNextTrack();
        }
      }
    }
  }
}
