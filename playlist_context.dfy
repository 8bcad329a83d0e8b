/** `context/PlaylistContext.tsx`: the playlist provider. It owns the
    playlist list, saves it to the playlists file after every change, and
    reaches the library through the music provider it uses. Clock readings
    are parameters. */
module PlaylistContext {
  import opened Wrappers
  import opened Library
  import opened PlaylistOps
  import opened FileStore
  import opened MusicContext

  const PlaylistsPath: string := DocumentDirectory + "playlists.json"

  class PlaylistProvider {
    const library: MusicProvider
    var playlists: seq<Playlist>

    constructor (library: MusicProvider)
      ensures this.library == library && playlists == []
    {
      this.library := library;
      playlists := [];
    }

    /** `loadPlaylists`: the saved list when the file exists and parses;
        otherwise the list stays as it was (empty at start). */
    method LoadPlaylists()
      modifies this
      ensures old(PlaylistsPath in library.fs.files && library.fs.files[PlaylistsPath].PlaylistIndex?) ==>
        playlists == old(library.fs.files[PlaylistsPath].playlists)
      ensures !old(PlaylistsPath in library.fs.files && library.fs.files[PlaylistsPath].PlaylistIndex?) ==>
        playlists == old(playlists)
    {
      var fs := library.fs;
      if PlaylistsPath in fs.files && fs.files[PlaylistsPath].PlaylistIndex? {
        playlists := fs.files[PlaylistsPath].playlists;
      }
    }

    /** `savePlaylists(ps)`: writes the file, then adopts the list. */
    method SavePlaylists(ps: seq<Playlist>)
      modifies this, library.fs
      ensures playlists == ps
      ensures library.fs.files == old(library.fs.files)[PlaylistsPath := PlaylistIndex(ps)]
      ensures library.fs.dirs == old(library.fs.dirs)
    {
      library.fs.Write(PlaylistsPath, PlaylistIndex(ps));
      playlists := ps;
    }

    /** `createPlaylist`: appends an empty playlist built from three clock
        readings and returns it. */
    method CreatePlaylist(name: string, artwork: Option<string>, description: Option<string>,
                          idClock: nat, createdClock: int, updatedClock: int) returns (p: Playlist)
      modifies this, library.fs
      ensures p == NewPlaylist(idClock, createdClock, updatedClock, name, artwork, description)
      ensures playlists == old(playlists) + [p]
      ensures library.fs.files == old(library.fs.files)[PlaylistsPath := PlaylistIndex(playlists)]
      ensures library.fs.dirs == old(library.fs.dirs)
    {
      p := NewPlaylist(idClock, createdClock, updatedClock, name, artwork, description);
      SavePlaylists(playlists + [p]);
    }

    /** `updatePlaylist(upd)`, stamped at `now`. */
    method UpdatePlaylist(upd: Playlist, now: int)
      modifies this, library.fs
      ensures playlists == UpdatePlaylists(old(playlists), upd, now)
      ensures library.fs.files == old(library.fs.files)[PlaylistsPath := PlaylistIndex(playlists)]
      ensures library.fs.dirs == old(library.fs.dirs)
    {
      SavePlaylists(UpdatePlaylists(playlists, upd, now));
    }

    /** `deletePlaylist(id)`. */
    method DeletePlaylist(id: string)
      modifies this, library.fs
      ensures playlists == RemovePlaylist(old(playlists), id)
      ensures library.fs.files == old(library.fs.files)[PlaylistsPath := PlaylistIndex(playlists)]
      ensures library.fs.dirs == old(library.fs.dirs)
    {
      SavePlaylists(RemovePlaylist(playlists, id));
    }

    /** `addTrackToPlaylist(pid, track)`: a track the library lacks is first
        added to the library (which saves the metadata file); the playlist
        then gets the library's copy, or the track itself. */
    method AddTrackToPlaylist(pid: string, track: Track, now: int)
      modifies this, library`tracks, library.fs
      ensures library.tracks == old(library.tracks) + (if HasId(old(library.tracks), track.id) then [] else [track])
      ensures playlists == AddTrackTo(old(playlists), pid, track, Find(old(library.tracks), track.id).GetOr(track), now)
      ensures library.fs.dirs == old(library.fs.dirs)
      ensures library.fs.files == (
        if HasId(old(library.tracks), track.id) then old(library.fs.files)
        else old(library.fs.files)[TracksMetadataPath := TrackIndex(library.tracks)]
        )[PlaylistsPath := PlaylistIndex(playlists)]
    {
      var existing := Find(library.tracks, track.id);
      if existing.None? {
        library.AddTracks([track]);
      }
      var copy := existing.GetOr(track);
      SavePlaylists(AddTrackTo(playlists, pid, track, copy, now));
    }

    /** `removeTrackFromPlaylist(pid, tid)`. */
    method RemoveTrackFromPlaylist(pid: string, tid: string, now: int)
      modifies this, library.fs
      ensures playlists == RemoveTrackFrom(old(playlists), pid, tid, now)
      ensures library.fs.files == old(library.fs.files)[PlaylistsPath := PlaylistIndex(playlists)]
      ensures library.fs.dirs == old(library.fs.dirs)
    {
      SavePlaylists(RemoveTrackFrom(playlists, pid, tid, now));
    }

    /** `removeTrackFromAllPlaylists(tid)`. */
    method RemoveTrackFromAllPlaylists(tid: string, now: int)
      modifies this, library.fs
      ensures playlists == RemoveTrackEverywhere(old(playlists), tid, now)
      ensures library.fs.files == old(library.fs.files)[PlaylistsPath := PlaylistIndex(playlists)]
      ensures library.fs.dirs == old(library.fs.dirs)
    {
      SavePlaylists(RemoveTrackEverywhere(playlists, tid, now));
    }

    /** The `trackUpdated` handler: when some playlist holds the track, the
        copies are replaced and the list saved; otherwise nothing happens. */
    method HandleTrackUpdate(upd: Track, now: int)
      modifies this, library.fs
      ensures !AnyContains(old(playlists), upd.id) ==>
        playlists == old(playlists) && library.fs.files == old(library.fs.files)
      ensures AnyContains(old(playlists), upd.id) ==>
        && playlists == PropagateTrackUpdate(old(playlists), upd, now)
        && library.fs.files == old(library.fs.files)[PlaylistsPath := PlaylistIndex(playlists)]
      ensures library.fs.dirs == old(library.fs.dirs)
    {
      if AnyContains(playlists, upd.id) {
        SavePlaylists(PropagateTrackUpdate(playlists, upd, now));
      }
    }
  }
}
