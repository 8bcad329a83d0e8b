/** `utils/musicImport.ts`: importing picked audio documents into the
    music folder, one file after another, and the alert that reports the
    outcome. What the outside world answers for each file (the ranged
    fetch and its parse, the full read and its parse, the clock, the
    artwork file's random suffix, the copy) is a parameter. */
module MusicImport {
  import opened Wrappers
  import opened Seqs
  import opened Strings
  import opened Library
  import opened FileStore
  import opened ArtworkStorage
  import opened MusicContext

  /** A picked document. An empty `name` is one the picker did not give. */
  datatype Asset = Asset(uri: string, name: string, mimeType: string)

  /** What the document picker gives: it can throw, be cancelled (or give
      no asset list), or give the picked assets. */
  datatype PickerResult = PickerFailed | Cancelled | Picked(assets: seq<Asset>)

  datatype Progress = Progress(current: nat, total: nat, fileName: string)

  datatype ImportResult = ImportResult(success: bool, tracksAdded: nat, errors: seq<string>)

  /** The world's answers for one file: the metadata the partial parse
      gives (`None` when the fetch fails or the parse throws), the metadata
      of the full read and parse (`None` when either throws), the clock read
      for the id, the clock and random suffix of the artwork file, and
      whether the copy into the music folder succeeds. */
  datatype FileEnv = FileEnv(
    partial: Option<Metadata>,
    full: Option<Metadata>,
    idClock: nat,
    artClock: nat,
    artSuffix: string,
    copyOk: bool)

  datatype FileOutcome = Added(track: Track) | Failed(message: string)

  /** `file.name || \`track_${index}\``. */
  function FileName(a: Asset, index: nat): (r: string)
    ensures a.name != "" ==> r == a.name
    ensures a.name == "" ==> r == "track_" + NatToString(index)
  {
    if a.name != "" then a.name else "track_" + NatToString(index)
  }

  /** `Date.now().toString() + '_' + index`. */
  function TrackId(clock: nat, index: nat): (r: string)
    ensures NatToString(clock) <= r
    ensures LastSegment(r, '_') == NatToString(index)
  {
    assert forall k :: 0 <= k < |NatToString(index)| ==> IsDigit(NatToString(index)[k]);
    LastSegmentAfter(NatToString(clock), NatToString(index), '_');
    NatToString(clock) + "_" + NatToString(index)
  }

  /** The index is the part after the `_`, so ids of different positions
      differ even when the clock reads the same. */
  lemma TrackIdsDistinct(c1: nat, i: nat, c2: nat, j: nat)
    requires i != j
    ensures TrackId(c1, i) != TrackId(c2, j)
  {
    assert forall k :: 0 <= k < |NatToString(i)| ==> IsDigit(NatToString(i)[k]);
    assert forall k :: 0 <= k < |NatToString(j)| ==> IsDigit(NatToString(j)[k]);
    LastSegmentAfter(NatToString(c1), NatToString(i), '_');
    LastSegmentAfter(NatToString(c2), NatToString(j), '_');
    assert TrackId(c1, i) == NatToString(c1) + ['_'] + NatToString(i);
    assert TrackId(c2, j) == NatToString(c2) + ['_'] + NatToString(j);
    if TrackId(c1, i) == TrackId(c2, j) {
      NatToStringInjective(i, j);
    }
  }

  /** `fileName.split('.').pop() || 'mp3'`. */
  function FileExtension(fileName: string): (ext: string)
    ensures ext != "" && '.' !in ext
  {
    var e := LastSegment(fileName, '.');
    if e != "" then e else "mp3"
  }

  /** The extension is what follows the last `.`; a name ending in `.`
      gives "mp3", and a name without `.` is its own extension. */
  lemma FileExtensionCases(base: string, ext: string)
    requires '.' !in ext
    ensures FileExtension(base + "." + ext) == if ext == "" then "mp3" else ext
    ensures ext != "" ==> FileExtension(ext) == ext
  {
    LastSegmentAfter(base, ext, '.');
    assert base + "." + ext == base + ['.'] + ext;
    SplitWithoutSeparator(ext, '.');
  }

  /** `musicDir + \`${id}.${ext}\``. */
  function StoredUri(id: string, fileName: string): (r: string)
    ensures MusicDir <= r
    ensures FileExtension(r) == FileExtension(fileName)
  {
    FileExtensionCases(MusicDir + id, FileExtension(fileName));
    MusicDir + id + "." + FileExtension(fileName)
  }

  /** The copy lands directly in the music folder under the track's id. */
  lemma StoredUriShape(clock: nat, index: nat, fileName: string)
    ensures MusicDir <= StoredUri(TrackId(clock, index), fileName)
    ensures StoredUri(TrackId(clock, index), fileName)[|MusicDir|..] == TrackId(clock, index) + "." + FileExtension(fileName)
    ensures '/' !in fileName ==> '/' !in StoredUri(TrackId(clock, index), fileName)[|MusicDir|..]
  {
    var id := TrackId(clock, index);
    assert forall k :: 0 <= k < |NatToString(clock)| ==> IsDigit(NatToString(clock)[k]);
    assert forall k :: 0 <= k < |NatToString(index)| ==> IsDigit(NatToString(index)[k]);
    assert '/' !in id;
    var ext := FileExtension(fileName);
    SplitNoSlash(fileName);
    assert StoredUri(id, fileName)[|MusicDir|..] == id + "." + ext;
  }

  /** No segment of a `.`-split holds a character the string lacks. */
  lemma SplitNoSlash(s: string)
    ensures '/' in LastSegment(s, '.') ==> '/' in s
  {
    var parts := Split(s, '.');
    JoinSplit(s, '.');
    JoinHolds(parts, ".", |parts| - 1);
  }

  lemma {:induction false} JoinHolds(parts: seq<string>, sep: string, k: nat)
    requires k < |parts|
    ensures forall c :: c in parts[k] ==> c in Join(parts, sep)
  {
    if k > 0 {
      JoinHolds(parts[1..], sep, k - 1);
      assert parts[1..][k - 1] == parts[k];
    }
  }

  /** The record built for an imported file: its tags with the import's own
      defaults ("Unknown Artist", "Unknown Album", the file name without its
      extension) and the duration rounded to whole ms. */
  function ImportedTrack(id: string, fileName: string, meta: Metadata, artwork: Option<string>, uri: string): (t: Track)
    ensures t.id == id && t.uri == uri && t.artwork == artwork
    ensures t.title == TagOr(meta.title, StripExtension(fileName))
    ensures t.artist == TagOr(meta.artist, "Unknown Artist") && t.album == TagOr(meta.album, "Unknown Album")
    ensures t.year == YearOrNull(meta.year)
    ensures t.duration == RoundHalfUp(meta.durationSec.GetOr(0.0) * 1000.0) as real
  {
    Track(id, TagOr(meta.title, StripExtension(fileName)), TagOr(meta.artist, "Unknown Artist"),
          TagOr(meta.album, "Unknown Album"), YearOrNull(meta.year),
          RoundHalfUp(meta.durationSec.GetOr(0.0) * 1000.0) as real, artwork, uri)
  }

  /** The metadata the import uses: the partial parse's, else the full
      read's; the full file is read only when the partial parse failed. */
  function ChosenMetadata(env: FileEnv): Option<Metadata> {
    if env.partial.Some? then env.partial else env.full
  }

  function ImportArtwork(meta: Metadata, env: FileEnv): Option<string> {
    if |meta.pictures| > 0 then Some(ArtworkPath(env.artClock, env.artSuffix, meta.pictures[0].format)) else None
  }

  /** What becomes of the `index`-th picked file. */
  function ProcessFile(a: Asset, index: nat, env: FileEnv): (r: FileOutcome)
    ensures r.Added? <==> ChosenMetadata(env).Some? && env.copyOk
    ensures r.Failed? ==> r.message == "Failed to process " + FileName(a, index)
    ensures r.Added? ==> r.track.id == TrackId(env.idClock, index) && MusicDir <= r.track.uri
  {
    var fileName := FileName(a, index);
    var meta := ChosenMetadata(env);
    if meta.None? || !env.copyOk then Failed("Failed to process " + fileName)
    else
      var id := TrackId(env.idClock, index);
      Added(ImportedTrack(id, fileName, meta.value, ImportArtwork(meta.value, env), StoredUri(id, fileName)))
  }

  /** The files one picked file writes, in order: its artwork (also when
      the copy then fails), then its copy. */
  function FileWrites(a: Asset, index: nat, env: FileEnv): seq<(string, Content)> {
    match ChosenMetadata(env)
    case None => []
    case Some(meta) => ArtworkWrite(meta, env) + CopyWrite(a, index, env)
  }

  function ArtworkWrite(meta: Metadata, env: FileEnv): seq<(string, Content)> {
    if |meta.pictures| > 0
    then [(ArtworkPath(env.artClock, env.artSuffix, meta.pictures[0].format), Bytes(meta.pictures[0].data))]
    else []
  }

  function CopyWrite(a: Asset, index: nat, env: FileEnv): seq<(string, Content)> {
    if env.copyOk then [(StoredUri(TrackId(env.idClock, index), FileName(a, index)), Audio(a.uri))] else []
  }

  function ImportWrites(assets: seq<Asset>, env: nat -> FileEnv, n: nat): seq<(string, Content)>
    requires n <= |assets|
  {
    if n == 0 then [] else ImportWrites(assets, env, n - 1) + FileWrites(assets[n - 1], n - 1, env(n - 1))
  }

  function Outcomes(assets: seq<Asset>, env: nat -> FileEnv): (os: seq<FileOutcome>)
    ensures |os| == |assets|
  {
    seq(|assets|, i requires 0 <= i < |assets| => ProcessFile(assets[i], i, env(i)))
  }

  /** `newTracks`: the records of the files that went through, in order. */
  function AddedTracks(os: seq<FileOutcome>): (r: seq<Track>)
    ensures |r| <= |os|
    ensures forall i :: 0 <= i < |r| ==> Added(r[i]) in os
    ensures forall k :: 0 <= k < |os| && os[k].Added? ==> os[k].track in r
  {
    if os == [] then []
    else
      var init := os[..|os| - 1];
      assert forall k :: 0 <= k < |init| ==> init[k] == os[k];
      AddedTracks(init) + (if os[|os| - 1].Added? then [os[|os| - 1].track] else [])
  }

  /** `errors`: one message per file that failed, in order. */
  function Errors(os: seq<FileOutcome>): (r: seq<string>)
    ensures |r| <= |os|
    ensures forall i :: 0 <= i < |r| ==> Failed(r[i]) in os
    ensures forall k :: 0 <= k < |os| && os[k].Failed? ==> os[k].message in r
  {
    if os == [] then []
    else
      var init := os[..|os| - 1];
      assert forall k :: 0 <= k < |init| ==> init[k] == os[k];
      Errors(init) + (if os[|os| - 1].Failed? then [os[|os| - 1].message] else [])
  }

  predicate IsAdded(o: FileOutcome) {
    o.Added?
  }

  predicate IsFailed(o: FileOutcome) {
    o.Failed?
  }

  function AsAdded(t: Track): FileOutcome {
    Added(t)
  }

  function AsFailed(message: string): FileOutcome {
    Failed(message)
  }

  lemma FilterSingle<T>(x: T, p: T -> bool)
    ensures Filter([x], p) == if p(x) then [x] else []
  {
    assert [x][1..] == [];
  }

  /** The added records are exactly the tracks of the `Added` outcomes,
      in file order: keeping those outcomes gives the records back. */
  lemma {:induction false} AddedTracksInOrder(os: seq<FileOutcome>)
    ensures Filter(os, IsAdded) == Map(AddedTracks(os), AsAdded)
  {
    if os != [] {
      var n := |os|;
      var init, last := os[..n - 1], os[n - 1];
      AddedTracksInOrder(init);
      assert os == init + [last];
      FilterAppend(init, [last], IsAdded);
      FilterSingle(last, IsAdded);
      var tail := if last.Added? then [last.track] else [];
      MapAppend(AddedTracks(init), tail, AsAdded);
    }
  }

  /** The errors are exactly the messages of the `Failed` outcomes, in
      file order. */
  lemma {:induction false} ErrorsInOrder(os: seq<FileOutcome>)
    ensures Filter(os, IsFailed) == Map(Errors(os), AsFailed)
  {
    if os != [] {
      var n := |os|;
      var init, last := os[..n - 1], os[n - 1];
      ErrorsInOrder(init);
      assert os == init + [last];
      FilterAppend(init, [last], IsFailed);
      FilterSingle(last, IsFailed);
      var tail := if last.Failed? then [last.message] else [];
      MapAppend(Errors(init), tail, AsFailed);
    }
  }

  /** Every file is either added or reported: of N files of which K
      fail, N-K records are added and K errors are reported. */
  lemma {:induction false} CountsAddUp(os: seq<FileOutcome>)
    ensures |AddedTracks(os)| + |Errors(os)| == |os|
    ensures |AddedTracks(os)| == |Filter(os, IsAdded)|
    ensures |Errors(os)| == |Filter(os, IsFailed)|
  {
    if os != [] {
      CountsAddUp(os[..|os| - 1]);
    }
    AddedTracksInOrder(os);
    ErrorsInOrder(os);
  }

  /** Each added record is the record of some file's outcome. */
  lemma {:induction false} AddedTracksFrom(os: seq<FileOutcome>, m: nat)
    requires m < |AddedTracks(os)|
    ensures exists k :: 0 <= k < |os| && os[k] == Added(AddedTracks(os)[m])
  {
    var n := |os|;
    var init := AddedTracks(os[..n - 1]);
    if m < |init| {
      AddedTracksFrom(os[..n - 1], m);
      var k :| 0 <= k < n - 1 && os[..n - 1][k] == Added(init[m]);
      assert os[k] == Added(AddedTracks(os)[m]);
    } else {
      assert os[n - 1] == Added(AddedTracks(os)[m]);
    }
  }

  /** An added file's record carries the id built from its index. */
  lemma ProcessFileId(a: Asset, index: nat, env: FileEnv)
    ensures ProcessFile(a, index, env).Added? ==> ProcessFile(a, index, env).track.id == TrackId(env.idClock, index)
  {
  }

  predicate AddedIdsDistinct(os: seq<FileOutcome>) {
    forall k, l :: 0 <= k < l < |os| && os[k].Added? && os[l].Added? ==> os[k].track.id != os[l].track.id
  }

  lemma {:induction false} AddedTracksUnique(os: seq<FileOutcome>)
    requires AddedIdsDistinct(os)
    ensures UniqueIds(AddedTracks(os))
  {
    if os != [] {
      var n := |os|;
      var init := os[..n - 1];
      assert AddedIdsDistinct(init) by {
        forall k, l | 0 <= k < l < |init| ensures init[k] == os[k] && init[l] == os[l] { }
      }
      AddedTracksUnique(init);
      if os[n - 1].Added? {
        var before := AddedTracks(init);
        forall m | 0 <= m < |before| ensures before[m].id != os[n - 1].track.id {
          AddedTracksFrom(init, m);
          var k :| 0 <= k < n - 1 && init[k] == Added(before[m]);
          assert os[k] == init[k];
        }
      }
    }
  }

  /** The records of one import have distinct ids. */
  lemma ImportedIdsUnique(assets: seq<Asset>, env: nat -> FileEnv)
    ensures UniqueIds(AddedTracks(Outcomes(assets, env)))
  {
    var os := Outcomes(assets, env);
    forall k, l | 0 <= k < l < |os| && os[k].Added? && os[l].Added? ensures os[k].track.id != os[l].track.id {
      ProcessFileId(assets[k], k, env(k));
      ProcessFileId(assets[l], l, env(l));
      TrackIdsDistinct(env(k).idClock, k, env(l).idClock, l);
    }
    AddedTracksUnique(os);
  }

  /** What the import's result reports: the added records are the tracks
      of the files that went through, in file order; the errors are the
      messages of the others, in file order; the two counts make up the
      number of files. */
  lemma ImportCounts(assets: seq<Asset>, env: nat -> FileEnv)
    ensures var os := Outcomes(assets, env);
      && Map(AddedTracks(os), AsAdded) == Filter(os, IsAdded)
      && Map(Errors(os), AsFailed) == Filter(os, IsFailed)
      && |AddedTracks(os)| == |assets| - |Errors(os)|
  {
    var os := Outcomes(assets, env);
    CountsAddUp(os);
    AddedTracksInOrder(os);
    ErrorsInOrder(os);
  }

  /** The progress reports for the first `n` files. */
  function ProgressReports(assets: seq<Asset>, n: nat): (r: seq<Progress>)
    requires n <= |assets|
    ensures |r| == n
    ensures forall i :: 0 <= i < n ==> r[i] == Progress(i + 1, |assets|, FileName(assets[i], i))
  {
    if n == 0 then [] else ProgressReports(assets, n - 1) + [Progress(n, |assets|, FileName(assets[n - 1], n - 1))]
  }

  /** The indices whose full file is read. */
  function FullReads(env: nat -> FileEnv, n: nat): (r: seq<nat>)
    ensures forall i :: 0 <= i < |r| ==> r[i] < n && env(r[i]).partial.None?
    ensures forall i :: 0 <= i < n && env(i).partial.None? ==> i in r
  {
    if n == 0 then [] else FullReads(env, n - 1) + (if env(n - 1).partial.None? then [n - 1] else [])
  }

  const NoFilesSelected: ImportResult := ImportResult(false, 0, ["No files selected"])
  const ImportFailed: ImportResult := ImportResult(false, 0, ["Failed to import files"])

  /** `importMusicFiles(onProgress, addTracksCallback)`. The progress
      reports, the indices read in full and the batch handed to the
      callback are returned; `withCallback` says whether a callback was
      given, and the callback is `library.addTracks`. */
  method ImportMusicFiles(fs: FileSystem, picker: PickerResult, env: nat -> FileEnv,
                          library: MusicProvider, withCallback: bool)
    returns (result: ImportResult, progress: seq<Progress>, fullReads: seq<nat>, committed: Option<seq<Track>>)
    requires library.fs == fs
    modifies fs, library`tracks
    ensures picker.PickerFailed? ==> result == ImportFailed
    ensures picker.Cancelled? || picker == Picked([]) ==> result == NoFilesSelected
    ensures !(picker.Picked? && |picker.assets| > 0) ==>
      && progress == [] && fullReads == [] && committed.None?
      && fs.files == old(fs.files) && fs.dirs == old(fs.dirs) && library.tracks == old(library.tracks)
    ensures picker.Picked? && |picker.assets| > 0 ==>
      var assets := picker.assets;
      var added := AddedTracks(Outcomes(assets, env));
      && result == ImportResult(|added| > 0, |added|, Errors(Outcomes(assets, env)))
      && Map(added, AsAdded) == Filter(Outcomes(assets, env), IsAdded)
      && Map(result.errors, AsFailed) == Filter(Outcomes(assets, env), IsFailed)
      && result.tracksAdded == |assets| - |result.errors|
      && progress == ProgressReports(assets, |assets|)
      && fullReads == FullReads(env, |assets|)
      && committed == (if withCallback && |added| > 0 then Some(added) else None)
      && library.tracks == old(library.tracks) + (if committed.Some? then added else [])
      && fs.files == (if committed.Some?
                      then WithWrites(old(fs.files), ImportWrites(assets, env, |assets|))[TracksMetadataPath := TrackIndex(library.tracks)]
                      else WithWrites(old(fs.files), ImportWrites(assets, env, |assets|)))
      && fs.Exists(MusicDir)
      && old(fs.dirs) <= fs.dirs <= old(fs.dirs) + {MusicDir, ArtworkDir}
  {
    progress, fullReads, committed := [], [], None;
    if picker.PickerFailed? {
      return ImportFailed, progress, fullReads, committed;
    }
    if picker.Cancelled? || |picker.assets| == 0 {
      return NoFilesSelected, progress, fullReads, committed;
    }
    ImportCounts(picker.assets, env);
    if !fs.Exists(MusicDir) {
      fs.MakeDirectory(MusicDir);
    }
    ghost var files0 := fs.files;
    var newTracks, errors;
    newTracks, errors, progress, fullReads := ImportEach(fs, picker.assets, env);
    WithWritesKeys(files0, ImportWrites(picker.assets, env, |picker.assets|));
    if |newTracks| > 0 && withCallback {
      library.AddTracks(newTracks);
      committed := Some(newTracks);
    }
    result := ImportResult(|newTracks| > 0, |newTracks|, errors);
  }

  /** What handling file `i` adds to each of the loop's results. */
  lemma ImportStep(assets: seq<Asset>, env: nat -> FileEnv, i: nat)
    requires i < |assets|
    ensures var os := Outcomes(assets, env);
      var o := ProcessFile(assets[i], i, env(i));
      && AddedTracks(os[..i + 1]) == AddedTracks(os[..i]) + (if o.Added? then [o.track] else [])
      && Errors(os[..i + 1]) == Errors(os[..i]) + (if o.Failed? then [o.message] else [])
    ensures ProgressReports(assets, i + 1) == ProgressReports(assets, i) + [Progress(i + 1, |assets|, FileName(assets[i], i))]
    ensures FullReads(env, i + 1) == FullReads(env, i) + (if env(i).partial.None? then [i] else [])
    ensures ImportWrites(assets, env, i + 1) == ImportWrites(assets, env, i) + FileWrites(assets[i], i, env(i))
  {
    var os := Outcomes(assets, env);
    assert os[..i + 1][..i] == os[..i];
  }

  /** The loop of `importMusicFiles` over the picked files. */
  method ImportEach(fs: FileSystem, files: seq<Asset>, env: nat -> FileEnv)
    returns (newTracks: seq<Track>, errors: seq<string>, progress: seq<Progress>, fullReads: seq<nat>)
    modifies fs
    ensures newTracks == AddedTracks(Outcomes(files, env))
    ensures errors == Errors(Outcomes(files, env))
    ensures progress == ProgressReports(files, |files|)
    ensures fullReads == FullReads(env, |files|)
    ensures fs.files == WithWrites(old(fs.files), ImportWrites(files, env, |files|))
    ensures old(fs.dirs) <= fs.dirs <= old(fs.dirs) + {ArtworkDir}
  {
    newTracks, errors, progress, fullReads := [], [], [], [];
    ghost var os := Outcomes(files, env);
    var total := |files|;
    var index := 0;
    assert os[..0] == [];
    while index < total
      invariant 0 <= index <= total
      invariant newTracks == AddedTracks(os[..index])
      invariant errors == Errors(os[..index])
      invariant progress == ProgressReports(files, index)
      invariant fullReads == FullReads(env, index)
      invariant fs.files == WithWrites(old(fs.files), ImportWrites(files, env, index))
      invariant old(fs.dirs) <= fs.dirs <= old(fs.dirs) + {ArtworkDir}
    {
      var file := files[index];
      var fileEnv := env(index);
      ImportStep(files, env, index);
      WithWritesAppend(old(fs.files), ImportWrites(files, env, index), FileWrites(file, index, fileEnv));
      progress := progress + [Progress(index + 1, total, FileName(file, index))];
      if fileEnv.partial.None? {
        fullReads := fullReads + [index];
      }
      var outcome := ImportOne(fs, file, index, fileEnv);
      if outcome.Added? {
        newTracks := newTracks + [outcome.track];
      } else {
        errors := errors + [outcome.message];
      }
      index := index + 1;
    }
    assert os[..index] == os;
  }

  /** The body of the loop for one file: the artwork is saved when the
      metadata has a picture, then the file is copied; a failed parse or
      copy is reported as the file's error message. */
  method ImportOne(fs: FileSystem, file: Asset, index: nat, env: FileEnv) returns (outcome: FileOutcome)
    modifies fs
    ensures outcome == ProcessFile(file, index, env)
    ensures fs.files == WithWrites(old(fs.files), FileWrites(file, index, env))
    ensures old(fs.dirs) <= fs.dirs <= old(fs.dirs) + {ArtworkDir}
  {
    var fileName := FileName(file, index);
    var id := TrackId(env.idClock, index);
    var metadata := env.partial;
    if metadata.None? {
      metadata := env.full;
    }
    assert metadata == ChosenMetadata(env);
    if metadata.None? {
      return Failed("Failed to process " + fileName);
    }
    var meta := metadata.value;
    var artwork := SaveFirstPicture(fs, meta, env);
    if !env.copyOk {
      WithWritesAppend(old(fs.files), ArtworkWrite(meta, env), []);
      return Failed("Failed to process " + fileName);
    }
    var newUri := StoredUri(id, fileName);
    fs.Write(newUri, Audio(file.uri));
    WithWritesSnoc(old(fs.files), ArtworkWrite(meta, env), (newUri, Audio(file.uri)));
    outcome := Added(ImportedTrack(id, fileName, meta, artwork, newUri));
  }

  /** Saves the first embedded picture, if any, as an artwork file. */
  method SaveFirstPicture(fs: FileSystem, meta: Metadata, env: FileEnv) returns (artwork: Option<string>)
    modifies fs
    ensures artwork == ImportArtwork(meta, env)
    ensures fs.files == WithWrites(old(fs.files), ArtworkWrite(meta, env))
    ensures old(fs.dirs) <= fs.dirs <= old(fs.dirs) + {ArtworkDir}
  {
    artwork := None;
    if |meta.pictures| > 0 {
      var uri := SaveArtworkToFile(fs, meta.pictures[0].data, meta.pictures[0].format, env.artClock, env.artSuffix);
      artwork := Some(uri);
      WithWritesSnoc(old(fs.files), [], (uri, Bytes(meta.pictures[0].data)));
    }
  }

  /** `showImportResult`: the alert's title and message. */
  function ImportMessage(r: ImportResult): (alert: (string, string))
    ensures alert.0 == if r.success then "Import Complete" else "Import Failed"
    ensures r.success ==>
      var head := "Successfully added " + NatToString(r.tracksAdded) + (if r.tracksAdded == 1 then " track" else " tracks") + " to your library.";
      |head| <= |alert.1| && alert.1[..|head|] == head
    ensures (!r.success && |r.errors| == 0) ==> alert.1 == "No tracks were imported."
    ensures (!r.success && |r.errors| > 0) ==> alert.1 == Join(r.errors, "\n")
  {
    if r.success then
      ("Import Complete",
       "Successfully added " + NatToString(r.tracksAdded) + " track" + (if r.tracksAdded == 1 then "" else "s")
       + " to your library."
       + (if |r.errors| > 0 then "\n\n" + NatToString(|r.errors|) + " file(s) failed to import." else ""))
    else
      ("Import Failed", if |r.errors| > 0 then Join(r.errors, "\n") else "No tracks were imported.")
  }

  /** A failed import lists its errors one per line, so the lines of the
      message give back the errors. */
  lemma FailedMessageLines(r: ImportResult)
    requires !r.success && |r.errors| > 0
    requires forall i :: 0 <= i < |r.errors| ==> '\n' !in r.errors[i]
    ensures Split(ImportMessage(r).1, '\n') == r.errors
  {
    SplitJoin(r.errors, '\n');
  }

  /** A successful import's message names the count and, when some files
      failed, ends with how many. */
  lemma SuccessMessageCounts(r: ImportResult)
    requires r.success
    ensures ImportMessage(r).1[..|"Successfully added " + NatToString(r.tracksAdded)|] == "Successfully added " + NatToString(r.tracksAdded)
    ensures |r.errors| > 0 ==> EndsWith(ImportMessage(r).1, NatToString(|r.errors|) + " file(s) failed to import.")
    ensures |r.errors| == 0 ==> EndsWith(ImportMessage(r).1, " to your library.")
  {
    var count := "Successfully added " + NatToString(r.tracksAdded);
    assert ImportMessage(r).1[..|count|] == count by {}
    if |r.errors| > 0 {
      assert EndsWith(ImportMessage(r).1, NatToString(|r.errors|) + " file(s) failed to import.") by {}
    } else {
      assert EndsWith(ImportMessage(r).1, " to your library.") by {}
    }
  }
}
