/** The app's persistent storage: an abstract model of the document
    directory of `expo-file-system`. Paths are full `file://` URIs. A file
    holds an abstract `Content`: the JSON documents the app writes are kept
    as the values they serialise, and file bytes as bytes. */
module FileStore {
  import opened Library
  import opened PlaylistOps

  /** `FileSystem.documentDirectory`; the platform fixes the actual value,
      the model only needs it to end with `/`. */
  const DocumentDirectory: string := "file:///documents/"

  datatype Content =
    /** Bytes written through a base64-encoded write of those bytes. */
    | Bytes(data: seq<bv8>)
    /** What a base64-encoded write of `payload` stores (decoding is not modelled). */
    | Base64Payload(payload: string)
    /** The bytes of the picked document at `origin`, copied here. */
    | Audio(origin: string)
    /** `JSON.stringify(tracks)`: the library's metadata file. */
    | TrackIndex(tracks: seq<Track>)
    /** `JSON.stringify(playlists)`: the playlists file. */
    | PlaylistIndex(playlists: seq<Playlist>)

  /** The sequence of writes `ws` applied to `m` in order. */
  function WithWrites(m: map<string, Content>, ws: seq<(string, Content)>): map<string, Content>
    decreases |ws|
  {
    if ws == [] then m else WithWrites(m, ws[..|ws| - 1])[ws[|ws| - 1].0 := ws[|ws| - 1].1]
  }

  lemma WithWritesSnoc(m: map<string, Content>, ws: seq<(string, Content)>, w: (string, Content))
    ensures WithWrites(m, ws + [w]) == WithWrites(m, ws)[w.0 := w.1]
  {
    assert (ws + [w])[..|ws|] == ws;
  }

  lemma {:induction false} WithWritesAppend(m: map<string, Content>, ws: seq<(string, Content)>, more: seq<(string, Content)>)
    ensures WithWrites(m, ws + more) == WithWrites(WithWrites(m, ws), more)
    decreases |more|
  {
    if more == [] {
      assert ws + more == ws;
    } else {
      var last := more[|more| - 1];
      var init := more[..|more| - 1];
      assert ws + more == (ws + init) + [last];
      WithWritesSnoc(m, ws + init, last);
      WithWritesAppend(m, ws, init);
      WithWritesSnoc(WithWrites(m, ws), init, last);
      assert more == init + [last];
    }
  }

  /** Writes leave every path they do not name as it was: they only add
      or replace entries. */
  lemma {:induction false} WithWritesElsewhere(m: map<string, Content>, ws: seq<(string, Content)>, p: string)
    requires forall i :: 0 <= i < |ws| ==> ws[i].0 != p
    ensures p in WithWrites(m, ws) <==> p in m
    ensures p in m ==> WithWrites(m, ws)[p] == m[p]
    decreases |ws|
  {
    if ws != [] {
      WithWritesElsewhere(m, ws[..|ws| - 1], p);
    }
  }

  /** Writes never remove a file. */
  lemma {:induction false} WithWritesKeys(m: map<string, Content>, ws: seq<(string, Content)>)
    ensures m.Keys <= WithWrites(m, ws).Keys
    decreases |ws|
  {
    if ws != [] {
      WithWritesKeys(m, ws[..|ws| - 1]);
    }
  }

  class FileSystem {
    var files: map<string, Content>
    var dirs: set<string>

    constructor (files: map<string, Content>, dirs: set<string>)
      ensures this.files == files && this.dirs == dirs
    {
      this.files := files;
      this.dirs := dirs;
    }

    /** `getInfoAsync(path).exists`. */
    predicate Exists(path: string)
      reads this
    {
      path in files || path in dirs
    }

    /** `makeDirectoryAsync(path)`. */
    method MakeDirectory(path: string)
      modifies this
      ensures dirs == old(dirs) + {path} && files == old(files)
    {
      dirs := dirs + {path};
    }

    /** `writeAsStringAsync(path, ...)`: creates or replaces the file. */
    method Write(path: string, c: Content)
      modifies this
      ensures files == old(files)[path := c] && dirs == old(dirs)
    {
      files := files[path := c];
    }

    /** `deleteAsync(path)`: fails (throws) when nothing is at `path`. */
    method Delete(path: string) returns (ok: bool)
      modifies this
      ensures ok == old(Exists(path))
      ensures files == old(files) - {path} && dirs == old(dirs) - {path}
    {
      ok := Exists(path);
      files := files - {path};
      dirs := dirs - {path};
    }
  }
}
