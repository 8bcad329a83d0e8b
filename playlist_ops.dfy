/** The playlist record of `context/PlaylistContext.tsx` and the pure list
    transformations its provider applies before saving. The provider that
    applies them is `PlaylistContext.PlaylistProvider`. Every timestamp is
    a reading of the clock passed in as a parameter. */
module PlaylistOps {
  import opened Wrappers
  import opened Seqs
  import opened Strings
  import opened Library

  /** A playlist; it holds copies of library tracks, not references. */
  datatype Playlist = Playlist(
    id: string,
    name: string,
    description: Option<string>,
    artwork: Option<string>,
    tracks: seq<Track>,
    createdAt: int,
    updatedAt: int)

  predicate UniquePlaylistIds(ps: seq<Playlist>) {
    forall i, j :: 0 <= i < j < |ps| ==> ps[i].id != ps[j].id
  }

  predicate HasPlaylist(ps: seq<Playlist>, id: string) {
    exists i :: 0 <= i < |ps| && ps[i].id == id
  }

  /** The playlist `createPlaylist` builds from three clock readings: one
      for the id, one for `createdAt`, one for `updatedAt`. */
  function NewPlaylist(idClock: nat, createdClock: int, updatedClock: int,
                       name: string, artwork: Option<string>, description: Option<string>): (p: Playlist)
    ensures p.tracks == []
    ensures AllDigits(p.id) && DigitsValue(p.id) == idClock
    ensures p.name == name && p.description == description && p.artwork == artwork
    ensures p.createdAt == createdClock && p.updatedAt == updatedClock
  {
    NatToStringRoundTrip(idClock);
    Playlist(NatToString(idClock), name, description, artwork, [], createdClock, updatedClock)
  }

  function NotPlaylist(id: string): Playlist -> bool {
    (p: Playlist) => p.id != id
  }

  /** `playlists.filter(p => p.id !== id)` of `deletePlaylist`. */
  function RemovePlaylist(ps: seq<Playlist>, id: string): (r: seq<Playlist>)
    ensures !HasPlaylist(r, id)
    ensures forall i :: 0 <= i < |r| ==> r[i] in ps
    ensures forall i :: 0 <= i < |ps| && ps[i].id != id ==> ps[i] in r
  {
    Filter(ps, NotPlaylist(id))
  }

  /** Creating a playlist whose id is new and deleting it again gives
      back the list as it was. */
  lemma CreateThenDelete(ps: seq<Playlist>, idClock: nat, c: int, u: int,
                         name: string, artwork: Option<string>, description: Option<string>)
    requires !HasPlaylist(ps, NatToString(idClock))
    ensures RemovePlaylist(ps + [NewPlaylist(idClock, c, u, name, artwork, description)], NatToString(idClock)) == ps
  {
    var p := NewPlaylist(idClock, c, u, name, artwork, description);
    FilterAppend(ps, [p], NotPlaylist(NatToString(idClock)));
    FilterKeepsAll(ps, NotPlaylist(NatToString(idClock)));
    FilterDropsAll([p], NotPlaylist(NatToString(idClock)));
  }

  /** Deleting works playlist by playlist: deleting from two lists put
      together is deleting from each and putting the results together. */
  lemma RemovePlaylistAppend(a: seq<Playlist>, b: seq<Playlist>, id: string)
    ensures RemovePlaylist(a + b, id) == RemovePlaylist(a, id) + RemovePlaylist(b, id)
  {
    FilterAppend(a, b, NotPlaylist(id));
  }

  /** `updatePlaylist`: every playlist with the edited one's id becomes the
      edited playlist stamped with `now`. */
  function UpdatePlaylists(ps: seq<Playlist>, upd: Playlist, now: int): (r: seq<Playlist>)
    ensures |r| == |ps|
    ensures forall i :: 0 <= i < |r| ==> r[i].id == ps[i].id
  {
    seq(|ps|, i requires 0 <= i < |ps| => if ps[i].id == upd.id then upd.(updatedAt := now) else ps[i])
  }

  /** An edit lands on the playlists with its id, leaves the others alone
      and keeps the ids where they were. */
  lemma UpdatePlaylistsEffect(ps: seq<Playlist>, upd: Playlist, now: int)
    ensures forall i :: 0 <= i < |ps| ==> UpdatePlaylists(ps, upd, now)[i].id == ps[i].id
    ensures forall i :: 0 <= i < |ps| && ps[i].id == upd.id ==>
      UpdatePlaylists(ps, upd, now)[i] == upd.(updatedAt := now)
    ensures forall i :: 0 <= i < |ps| && ps[i].id != upd.id ==> UpdatePlaylists(ps, upd, now)[i] == ps[i]
    ensures UniquePlaylistIds(ps) ==> UniquePlaylistIds(UpdatePlaylists(ps, upd, now))
    ensures !HasPlaylist(ps, upd.id) ==> UpdatePlaylists(ps, upd, now) == ps
  {
  }

  /** Saving the same edit again only moves its timestamp. */
  lemma UpdatePlaylistsTwice(ps: seq<Playlist>, upd: Playlist, t1: int, t2: int)
    ensures UpdatePlaylists(UpdatePlaylists(ps, upd, t1), upd, t2) == UpdatePlaylists(ps, upd, t2)
  {
  }

  /** `addTrackToPlaylist`'s map: the playlist `pid` gets `copy` appended
      and its timestamp moved, unless it already holds a track with
      `track`'s id; `copy` is the library's version of the track, or the
      track itself when the library had none. */
  function AddTrackTo(ps: seq<Playlist>, pid: string, track: Track, copy: Track, now: int): (r: seq<Playlist>)
    ensures |r| == |ps|
    ensures forall i :: 0 <= i < |r| ==> r[i].id == ps[i].id
  {
    seq(|ps|, i requires 0 <= i < |ps| =>
      if ps[i].id == pid && !HasId(ps[i].tracks, track.id)
      then ps[i].(tracks := ps[i].tracks + [copy], updatedAt := now)
      else ps[i])
  }

  /** After adding, the playlist holds the track: appended once when it was
      missing, unchanged when it was there; other playlists are untouched,
      and a playlist without duplicate tracks gets none. */
  lemma AddTrackToEffect(ps: seq<Playlist>, pid: string, track: Track, copy: Track, now: int)
    requires copy.id == track.id
    ensures forall i :: 0 <= i < |ps| && ps[i].id == pid ==> HasId(AddTrackTo(ps, pid, track, copy, now)[i].tracks, track.id)
    ensures forall i :: 0 <= i < |ps| && ps[i].id == pid && !HasId(ps[i].tracks, track.id) ==>
      AddTrackTo(ps, pid, track, copy, now)[i] == ps[i].(tracks := ps[i].tracks + [copy], updatedAt := now)
    ensures forall i :: 0 <= i < |ps| && (ps[i].id != pid || HasId(ps[i].tracks, track.id)) ==>
      AddTrackTo(ps, pid, track, copy, now)[i] == ps[i]
    ensures forall i :: 0 <= i < |ps| && UniqueIds(ps[i].tracks) ==> UniqueIds(AddTrackTo(ps, pid, track, copy, now)[i].tracks)
  {
    var r := AddTrackTo(ps, pid, track, copy, now);
    forall i | 0 <= i < |ps| && ps[i].id == pid ensures HasId(r[i].tracks, track.id) {
      if !HasId(ps[i].tracks, track.id) {
        assert r[i].tracks[|ps[i].tracks|] == copy;
      }
    }
  }

  /** Adding the same track twice is the same as adding it once, whatever
      copy and clock the second call sees. */
  lemma AddTrackToIdempotent(ps: seq<Playlist>, pid: string, track: Track, copy: Track, copy2: Track, t1: int, t2: int)
    requires copy.id == track.id
    ensures AddTrackTo(AddTrackTo(ps, pid, track, copy, t1), pid, track, copy2, t2) == AddTrackTo(ps, pid, track, copy, t1)
  {
    AddTrackToEffect(ps, pid, track, copy, t1);
  }

  /** `removeTrackFromPlaylist`'s map: the playlist `pid` loses every track
      with id `tid` and is stamped with `now`, whether or not it held one. */
  function RemoveTrackFrom(ps: seq<Playlist>, pid: string, tid: string, now: int): (r: seq<Playlist>)
    ensures |r| == |ps|
    ensures forall i :: 0 <= i < |r| ==> r[i].id == ps[i].id
  {
    seq(|ps|, i requires 0 <= i < |ps| =>
      if ps[i].id == pid then ps[i].(tracks := RemoveById(ps[i].tracks, tid), updatedAt := now) else ps[i])
  }

  /** After removal the playlist no longer holds the track and keeps the
      others; the other playlists are untouched. */
  lemma RemoveTrackFromEffect(ps: seq<Playlist>, pid: string, tid: string, now: int)
    ensures forall i :: 0 <= i < |ps| && ps[i].id == pid ==>
      && !HasId(RemoveTrackFrom(ps, pid, tid, now)[i].tracks, tid)
      && RemoveTrackFrom(ps, pid, tid, now)[i].updatedAt == now
    ensures forall i :: 0 <= i < |ps| && ps[i].id == pid ==>
      RemoveTrackFrom(ps, pid, tid, now)[i] == ps[i].(tracks := RemoveById(ps[i].tracks, tid), updatedAt := now)
    ensures forall i, j :: 0 <= i < |ps| && 0 <= j < |ps[i].tracks| && ps[i].tracks[j].id != tid ==>
      ps[i].tracks[j] in RemoveTrackFrom(ps, pid, tid, now)[i].tracks
    ensures forall i :: 0 <= i < |ps| && ps[i].id != pid ==> RemoveTrackFrom(ps, pid, tid, now)[i] == ps[i]
  {
  }

  /** Removing a track just added to a playlist that did not hold it gives
      back the playlist's track list. */
  lemma AddThenRemove(ps: seq<Playlist>, pid: string, track: Track, copy: Track, t1: int, t2: int)
    requires copy.id == track.id
    ensures forall i :: 0 <= i < |ps| && ps[i].id == pid && !HasId(ps[i].tracks, track.id) ==>
      RemoveTrackFrom(AddTrackTo(ps, pid, track, copy, t1), pid, track.id, t2)[i].tracks == ps[i].tracks
  {
    AddTrackToEffect(ps, pid, track, copy, t1);
    forall i | 0 <= i < |ps| && ps[i].id == pid && !HasId(ps[i].tracks, track.id)
      ensures RemoveTrackFrom(AddTrackTo(ps, pid, track, copy, t1), pid, track.id, t2)[i].tracks == ps[i].tracks
    {
      var ts := ps[i].tracks;
      RemoveByIdAppend(ts, [copy], track.id);
      RemoveByIdAbsent(ts, track.id);
      FilterDropsAll([copy], NotWithId(track.id));
    }
  }

  /** `removeTrackFromAllPlaylists`: every playlist loses the track and is
      stamped with `now`, including those that never held it. */
  function RemoveTrackEverywhere(ps: seq<Playlist>, tid: string, now: int): (r: seq<Playlist>)
    ensures |r| == |ps|
    ensures forall i :: 0 <= i < |r| ==> r[i].id == ps[i].id
  {
    seq(|ps|, i requires 0 <= i < |ps| => ps[i].(tracks := RemoveById(ps[i].tracks, tid), updatedAt := now))
  }

  /** After the cascade no playlist holds the track; ids, names and the
      other tracks stay. */
  lemma RemoveTrackEverywhereEffect(ps: seq<Playlist>, tid: string, now: int)
    ensures forall i :: 0 <= i < |ps| ==> !HasId(RemoveTrackEverywhere(ps, tid, now)[i].tracks, tid)
    ensures forall i :: 0 <= i < |ps| ==>
      RemoveTrackEverywhere(ps, tid, now)[i] == ps[i].(tracks := RemoveTrackEverywhere(ps, tid, now)[i].tracks, updatedAt := now)
    ensures forall i, j :: 0 <= i < |ps| && 0 <= j < |ps[i].tracks| && ps[i].tracks[j].id != tid ==>
      ps[i].tracks[j] in RemoveTrackEverywhere(ps, tid, now)[i].tracks
    ensures forall i :: 0 <= i < |ps| && !HasId(ps[i].tracks, tid) ==>
      RemoveTrackEverywhere(ps, tid, now)[i].tracks == ps[i].tracks
  {
    forall i | 0 <= i < |ps| && !HasId(ps[i].tracks, tid)
      ensures RemoveTrackEverywhere(ps, tid, now)[i].tracks == ps[i].tracks
    {
      RemoveByIdAbsent(ps[i].tracks, tid);
    }
  }

  /** Running the cascade twice only moves the timestamps again. */
  lemma RemoveTrackEverywhereTwice(ps: seq<Playlist>, tid: string, t1: int, t2: int)
    ensures RemoveTrackEverywhere(RemoveTrackEverywhere(ps, tid, t1), tid, t2) == RemoveTrackEverywhere(ps, tid, t2)
  {
    forall i | 0 <= i < |ps|
      ensures RemoveById(RemoveById(ps[i].tracks, tid), tid) == RemoveById(ps[i].tracks, tid)
    {
      FilterIdempotent(ps[i].tracks, NotWithId(tid));
    }
  }

  predicate Contains(p: Playlist, tid: string) {
    HasId(p.tracks, tid)
  }

  /** Some playlist holds the track (`playlistsToUpdate.length > 0`). */
  predicate AnyContains(ps: seq<Playlist>, tid: string) {
    exists k :: 0 <= k < |ps| && Contains(ps[k], tid)
  }

  /** `playlistsToUpdate.some(p => p.id === pid)`: the id belongs to a
      playlist that holds the track. */
  predicate Selected(ps: seq<Playlist>, pid: string, tid: string) {
    exists k :: 0 <= k < |ps| && ps[k].id == pid && Contains(ps[k], tid)
  }

  /** `handleTrackUpdate`'s map: every playlist whose id is selected gets
      its copies of the track replaced and is stamped with `now`. */
  function PropagateTrackUpdate(ps: seq<Playlist>, upd: Track, now: int): (r: seq<Playlist>)
    ensures |r| == |ps|
    ensures forall i :: 0 <= i < |r| ==> r[i].id == ps[i].id
  {
    seq(|ps|, i requires 0 <= i < |ps| =>
      if Selected(ps, ps[i].id, upd.id)
      then ps[i].(tracks := ReplaceById(ps[i].tracks, upd), updatedAt := now)
      else ps[i])
  }

  /** After propagation no playlist holds a stale copy of the track, each
      playlist keeps its ids in place, and a playlist holding the track is
      updated and stamped. */
  lemma PropagateLeavesNoStaleCopy(ps: seq<Playlist>, upd: Track, now: int)
    ensures forall i, j ::
      (&& 0 <= i < |ps| && 0 <= j < |PropagateTrackUpdate(ps, upd, now)[i].tracks|
       && PropagateTrackUpdate(ps, upd, now)[i].tracks[j].id == upd.id)
      ==> PropagateTrackUpdate(ps, upd, now)[i].tracks[j] == upd
    ensures forall i :: 0 <= i < |ps| ==> PropagateTrackUpdate(ps, upd, now)[i].id == ps[i].id
    ensures forall i :: 0 <= i < |ps| && Contains(ps[i], upd.id) ==>
      PropagateTrackUpdate(ps, upd, now)[i] == ps[i].(tracks := ReplaceById(ps[i].tracks, upd), updatedAt := now)
  {
    forall i | 0 <= i < |ps| && Contains(ps[i], upd.id)
      ensures Selected(ps, ps[i].id, upd.id)
    {
    }
  }

  /** With unique playlist ids the selection is exactly the playlists that
      hold the track: the others keep even their timestamp. */
  lemma PropagateOnlyContaining(ps: seq<Playlist>, upd: Track, now: int)
    requires UniquePlaylistIds(ps)
    ensures forall i :: 0 <= i < |ps| && !Contains(ps[i], upd.id) ==> PropagateTrackUpdate(ps, upd, now)[i] == ps[i]
  {
    forall i | 0 <= i < |ps| && !Contains(ps[i], upd.id)
      ensures !Selected(ps, ps[i].id, upd.id)
    {
    }
  }

  /** When no playlist holds the track, nothing changes. */
  lemma PropagateNoneContaining(ps: seq<Playlist>, upd: Track, now: int)
    requires !AnyContains(ps, upd.id)
    ensures PropagateTrackUpdate(ps, upd, now) == ps
  {
  }
}
