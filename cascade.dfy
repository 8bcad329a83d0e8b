/** The flows that run through both providers: deleting a song from its
    menu (playlists first, then the library) and editing a track, whose
    `trackUpdated` event the playlist provider handles. */
module Cascade {
  import opened Library
  import opened PlaylistOps
  import opened MusicContext
  import opened PlaylistContext
  import opened FileStore

  /** The "Delete" action of a song's menu: the track leaves every
      playlist, then the library. The playlists lose it even when the
      library keeps it because its audio file could not be deleted. */
  method DeleteSongEverywhere(store: PlaylistProvider, id: string, now: int) returns (deleted: bool)
    modifies store, store.library`tracks, store.library`currentTrackIndex, store.library.player, store.library.fs
    ensures store.playlists == RemoveTrackEverywhere(old(store.playlists), id, now)
    ensures forall i :: 0 <= i < |store.playlists| ==> !Contains(store.playlists[i], id)
    ensures deleted ==> HasId(old(store.library.tracks), id)
    ensures deleted ==> store.library.tracks == RemoveById(old(store.library.tracks), id)
    ensures !deleted ==> store.library.tracks == old(store.library.tracks)
    ensures !HasId(store.library.tracks, id) <==> (deleted || !HasId(old(store.library.tracks), id))
  {
    var library := store.library;
    store.RemoveTrackFromAllPlaylists(id, now);
    RemoveTrackEverywhereEffect(old(store.playlists), id, now);
    deleted := library.DeleteTrack(id);
  }

  /** Editing a track: the library replaces it and, when it announces the
      change, every playlist holding the track takes the new version. */
  method UpdateTrackEverywhere(store: PlaylistProvider, upd: Track, now: int) returns (notified: bool)
    modifies store, store.library`tracks, store.library.fs
    ensures store.library.tracks == ReplaceById(old(store.library.tracks), upd)
    ensures notified == (old(store.library.currentTrackIndex) < |old(store.library.tracks)|)
    ensures notified && AnyContains(old(store.playlists), upd.id) ==>
      store.playlists == PropagateTrackUpdate(old(store.playlists), upd, now)
    ensures !(notified && AnyContains(old(store.playlists), upd.id)) ==> store.playlists == old(store.playlists)
    ensures notified ==>
      forall i, j ::
        (0 <= i < |store.playlists| && 0 <= j < |store.playlists[i].tracks| && store.playlists[i].tracks[j].id == upd.id)
        ==> store.playlists[i].tracks[j] == upd
  {
    var library := store.library;
    notified := library.UpdateTrack(upd);
    if notified {
      store.HandleTrackUpdate(upd, now);
      PropagateLeavesNoStaleCopy(old(store.playlists), upd, now);
    }
  }

  /** Adding tracks, then restarting the app: a new provider over the same
      storage loads the list back as it was saved, in order, as long as
      every track's audio file is still there. */
  method ReloadAfterAdd(library: MusicProvider, newTracks: seq<Track>, listing: seq<string>, probe: nat -> ScanProbe)
    returns (restarted: MusicProvider)
    requires forall i :: 0 <= i < |library.tracks + newTracks| ==>
      (library.tracks + newTracks)[i].uri in library.fs.files.Keys + library.fs.dirs
    modifies library`tracks, library.fs
    ensures restarted.fs == library.fs && fresh(restarted)
    ensures restarted.tracks == old(library.tracks) + newTracks
    ensures library.tracks == restarted.tracks
  {
    library.AddTracks(newTracks);
    var saved := library.tracks;
    restarted := new MusicProvider(library.fs);
    ghost var existing := library.fs.files.Keys + library.fs.dirs;
    restarted.LoadSavedTracks(listing, probe);
    assert existing <= library.fs.files.Keys + library.fs.dirs;
    KeepExistingAll(saved, library.fs.files.Keys + library.fs.dirs);
  }
}
