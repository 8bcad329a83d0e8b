/** The track library of `context/MusicContext.tsx`: the `Track` record and
    the pure list transformations behind `addTracks`, `updateTrack`,
    `deleteTrack` and `loadSavedTracks`. The stateful provider that applies
    them is `MusicContext.MusicProvider`. */
module Library {
  import opened Wrappers
  import opened Seqs
  import opened Strings

  /** A track of the library. `year` is `null` or absent when `None`;
      `duration` is in milliseconds (a JavaScript number, modelled as an
      exact real). */
  datatype Track = Track(
    id: string,
    title: string,
    artist: string,
    album: string,
    year: Option<int>,
    duration: real,
    artwork: Option<string>,
    uri: string)

  /** An embedded picture as the tag parser reports it. */
  datatype Picture = Picture(data: seq<bv8>, format: string)

  /** What the tag parser reports of a file; absent tags are `None`.
      `durationSec` is `format.duration`, in seconds. */
  datatype Metadata = Metadata(
    title: Option<string>,
    artist: Option<string>,
    album: Option<string>,
    year: Option<int>,
    durationSec: Option<real>,
    pictures: seq<Picture>)

  /** JavaScript `tag || fallback` on an optional string: the empty string
      is falsy, so it also gives the fallback. */
  function TagOr(tag: Option<string>, fallback: string): (r: string)
    ensures tag.Some? && tag.value != "" ==> r == tag.value
    ensures tag.None? || tag.value == "" ==> r == fallback
  {
    if tag.Some? && tag.value != "" then tag.value else fallback
  }

  /** `common.year || null`: a year of 0 is falsy. */
  function YearOrNull(year: Option<int>): (r: Option<int>)
    ensures r.Some? <==> year.Some? && year.value != 0
    ensures r.Some? ==> r == year
  {
    if year.Some? && year.value != 0 then year else None
  }

  predicate HasId(ts: seq<Track>, id: string) {
    exists i :: 0 <= i < |ts| && ts[i].id == id
  }

  predicate UniqueIds(ts: seq<Track>) {
    forall i, j :: 0 <= i < j < |ts| ==> ts[i].id != ts[j].id
  }

  /** `tracks.findIndex(t => t.id === id)`. */
  function FindIndex(ts: seq<Track>, id: string): (r: int)
    ensures -1 <= r < |ts|
    ensures r >= 0 ==> ts[r].id == id && forall j :: 0 <= j < r ==> ts[j].id != id
    ensures r == -1 <==> !HasId(ts, id)
  {
    if ts == [] then -1
    else if ts[0].id == id then 0
    else
      var k := FindIndex(ts[1..], id);
      assert forall j :: 1 <= j < |ts| ==> ts[j] == ts[1..][j - 1];
      if k < 0 then -1 else k + 1
  }

  /** `tracks.find(t => t.id === id)`. */
  function Find(ts: seq<Track>, id: string): (r: Option<Track>)
    ensures r.Some? <==> HasId(ts, id)
    ensures r.Some? ==> r.value.id == id && r.value in ts
    ensures r.Some? ==> exists k :: 0 <= k < |ts| && ts[k] == r.value && !HasId(ts[..k], id)
  {
    var k := FindIndex(ts, id);
    if k >= 0 then
      assert forall j :: 0 <= j < k ==> ts[..k][j] == ts[j];
      assert !HasId(ts[..k], id);
      Some(ts[k])
    else None
  }

  function ReplaceIfSameId(upd: Track): Track -> Track {
    (t: Track) => if t.id == upd.id then upd else t
  }

  /** `tracks.map(t => t.id === upd.id ? upd : t)` of `updateTrack`. */
  function ReplaceById(ts: seq<Track>, upd: Track): (r: seq<Track>)
    ensures |r| == |ts|
    ensures forall i :: 0 <= i < |ts| && ts[i].id == upd.id ==> r[i] == upd
    ensures forall i :: 0 <= i < |ts| && ts[i].id != upd.id ==> r[i] == ts[i]
  {
    Map(ts, ReplaceIfSameId(upd))
  }

  /** Updating keeps every position's id, so the library's set of ids is
      unchanged and unique ids stay unique. */
  lemma ReplaceByIdKeepsIds(ts: seq<Track>, upd: Track)
    ensures forall i :: 0 <= i < |ts| ==> ReplaceById(ts, upd)[i].id == ts[i].id
    ensures UniqueIds(ts) ==> UniqueIds(ReplaceById(ts, upd))
  {
  }

  /** Updating a track whose id is not in the library changes nothing. */
  lemma ReplaceByIdAbsent(ts: seq<Track>, upd: Track)
    requires !HasId(ts, upd.id)
    ensures ReplaceById(ts, upd) == ts
  {
  }

  /** Repeating an update changes nothing more. */
  lemma ReplaceByIdIdempotent(ts: seq<Track>, upd: Track)
    ensures ReplaceById(ReplaceById(ts, upd), upd) == ReplaceById(ts, upd)
  {
  }

  /** After an update, looking the id up yields the new version exactly
      when the id was in the library. */
  lemma FindAfterReplace(ts: seq<Track>, upd: Track)
    ensures Find(ReplaceById(ts, upd), upd.id) == if HasId(ts, upd.id) then Some(upd) else None
  {
    var r := ReplaceById(ts, upd);
    if HasId(ts, upd.id) {
      var k := FindIndex(ts, upd.id);
      assert r[k].id == upd.id;
      assert FindIndex(r, upd.id) == k;
    }
  }

  function NotWithId(id: string): Track -> bool {
    (t: Track) => t.id != id
  }

  /** `tracks.filter(t => t.id !== id)`. */
  function RemoveById(ts: seq<Track>, id: string): (r: seq<Track>)
    ensures !HasId(r, id)
    ensures forall i :: 0 <= i < |r| ==> r[i] in ts
    ensures forall i :: 0 <= i < |ts| && ts[i].id != id ==> ts[i] in r
  {
    Filter(ts, NotWithId(id))
  }

  /** Removing an id that is not there changes nothing. */
  lemma RemoveByIdAbsent(ts: seq<Track>, id: string)
    requires !HasId(ts, id)
    ensures RemoveById(ts, id) == ts
  {
    FilterKeepsAll(ts, NotWithId(id));
  }

  /** Removal distributes over concatenation: the remaining tracks keep
      their relative order. */
  lemma RemoveByIdAppend(a: seq<Track>, b: seq<Track>, id: string)
    ensures RemoveById(a + b, id) == RemoveById(a, id) + RemoveById(b, id)
  {
    FilterAppend(a, b, NotWithId(id));
  }

  /** In a library with unique ids, deleting the track found at `idx`
      leaves exactly the tracks before and after it, in order. */
  lemma RemoveByIdAt(ts: seq<Track>, id: string)
    requires UniqueIds(ts) && HasId(ts, id)
    ensures RemoveById(ts, id) == ts[..FindIndex(ts, id)] + ts[FindIndex(ts, id) + 1..]
  {
    var k := FindIndex(ts, id);
    NoIdAfterFirst(ts, id);
    RemoveOnlyAt(ts, k, id);
  }

  /** Removing an id held only at position `k` removes that position. */
  lemma RemoveOnlyAt(ts: seq<Track>, k: nat, id: string)
    requires k < |ts| && ts[k].id == id
    requires !HasId(ts[..k], id) && !HasId(ts[k + 1..], id)
    ensures RemoveById(ts, id) == ts[..k] + ts[k + 1..]
  {
    var head, tail := ts[..k], ts[k + 1..];
    calc {
      RemoveById(ts, id);
    == { SplitAt(ts, k); }
      RemoveById(head + ([ts[k]] + tail), id);
    == { RemoveByIdAppend(head, [ts[k]] + tail, id); }
      RemoveById(head, id) + RemoveById([ts[k]] + tail, id);
    == { RemoveByIdAppend([ts[k]], tail, id); }
      RemoveById(head, id) + (RemoveById([ts[k]], id) + RemoveById(tail, id));
    == { FilterDropsAll([ts[k]], NotWithId(id)); RemoveByIdAbsent(head, id); RemoveByIdAbsent(tail, id); }
      head + ([] + tail);
    }
  }

  lemma NoIdAfterFirst(ts: seq<Track>, id: string)
    requires UniqueIds(ts) && HasId(ts, id)
    ensures !HasId(ts[FindIndex(ts, id) + 1..], id)
  {
    var k := FindIndex(ts, id);
    var tail := ts[k + 1..];
    forall j | 0 <= j < |tail| ensures tail[j].id != id {
      assert tail[j] == ts[k + 1 + j];
    }
  }

  /** The current index after the track at `idx` is deleted:
      `prev > idx ? prev - 1 : -1`. */
  function IndexAfterDelete(prev: int, idx: int): (r: int)
    requires 0 <= idx
    ensures r >= 0 <==> prev > idx
    ensures r >= 0 ==> r == prev - 1
    ensures r < 0 ==> r == -1
  {
    if prev > idx then prev - 1 else -1
  }

  /** When the deleted track came before the current one, the new index
      still designates the same track. */
  lemma IndexAfterDeleteKeepsLaterTrack(ts: seq<Track>, id: string, prev: int)
    requires UniqueIds(ts) && HasId(ts, id)
    requires FindIndex(ts, id) < prev < |ts|
    ensures 0 <= IndexAfterDelete(prev, FindIndex(ts, id)) < |RemoveById(ts, id)|
    ensures RemoveById(ts, id)[IndexAfterDelete(prev, FindIndex(ts, id))] == ts[prev]
  {
    RemoveByIdAt(ts, id);
  }

  function UriIn(existing: set<string>): Track -> bool {
    (t: Track) => t.uri in existing
  }

  /** The saved entries whose audio file still exists, in saved order
      (`saved.map(... exists ? t : null).filter(Boolean)`). */
  function KeepExisting(saved: seq<Track>, existing: set<string>): (r: seq<Track>)
    ensures forall i :: 0 <= i < |r| ==> r[i] in saved && r[i].uri in existing
    ensures forall i :: 0 <= i < |saved| && saved[i].uri in existing ==> saved[i] in r
  {
    Filter(saved, UriIn(existing))
  }

  /** When every saved file still exists the saved list comes back as it
      was saved. */
  lemma KeepExistingAll(saved: seq<Track>, existing: set<string>)
    requires forall i :: 0 <= i < |saved| ==> saved[i].uri in existing
    ensures KeepExisting(saved, existing) == saved
  {
    FilterKeepsAll(saved, UriIn(existing));
  }

  /** Dropping missing files preserves the order of the others. */
  lemma KeepExistingAppend(a: seq<Track>, b: seq<Track>, existing: set<string>)
    ensures KeepExisting(a + b, existing) == KeepExisting(a, existing) + KeepExisting(b, existing)
  {
    FilterAppend(a, b, UriIn(existing));
  }

  /** The names the directory scan treats as audio files. */
  predicate IsAudioFileName(name: string) {
    EndsWith(name, ".mp3") || EndsWith(name, ".m4a") || EndsWith(name, ".wav") || EndsWith(name, ".aac")
  }

  /** `files.filter(f => [...].some(ext => f.endsWith(ext)))`. */
  function AudioFiles(names: seq<string>): (r: seq<string>)
    ensures forall i :: 0 <= i < |r| ==> r[i] in names && IsAudioFileName(r[i])
    ensures forall i :: 0 <= i < |names| && IsAudioFileName(names[i]) ==> names[i] in r
  {
    Filter(names, IsAudioFileName)
  }

  /** The scan keeps the listing's order: filtering two parts of a listing
      one after the other gives the filter of the whole listing. */
  lemma AudioFilesAppend(a: seq<string>, b: seq<string>)
    ensures AudioFiles(a + b) == AudioFiles(a) + AudioFiles(b)
  {
    FilterAppend(a, b, IsAudioFileName);
  }

  /** The record the directory scan builds for the `i`-th audio file:
      parsed tags with the scan's own defaults ("Unknown", no rounding of
      the duration in ms), or a bare record when reading or parsing failed. */
  function ScannedTrack(uri: string, file: string, i: nat, meta: Option<Metadata>, artwork: Option<string>): (t: Track)
    ensures t.id == NatToString(i) && t.uri == uri
    ensures meta.None? ==> t == Track(NatToString(i), file, "Unknown", "Unknown", None, 0.0, None, uri)
    ensures meta.Some? ==> (
      && t.title == TagOr(meta.value.title, StripExtension(file))
      && t.artist == TagOr(meta.value.artist, "Unknown")
      && t.album == TagOr(meta.value.album, "Unknown")
      && t.year == YearOrNull(meta.value.year)
      && t.duration == meta.value.durationSec.GetOr(0.0) * 1000.0
      && t.artwork == artwork)
  {
    match meta
    case None => Track(NatToString(i), file, "Unknown", "Unknown", None, 0.0, None, uri)
    case Some(m) =>
      Track(NatToString(i), TagOr(m.title, StripExtension(file)), TagOr(m.artist, "Unknown"),
            TagOr(m.album, "Unknown"), YearOrNull(m.year), m.durationSec.GetOr(0.0) * 1000.0, artwork, uri)
  }
}
