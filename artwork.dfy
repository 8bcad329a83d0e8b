/** `utils/artworkStorage.ts`: artwork files under the document
    directory's `artwork/` folder, named from the clock and a random
    suffix, which are both parameters here. */
module ArtworkStorage {
  import opened Wrappers
  import opened Strings
  import opened FileStore

  const ArtworkDir: string := DocumentDirectory + "artwork/"

  /** The two capture groups of `^data:([^;]+);base64,(.+)$`. */
  datatype DataUri = DataUri(mime: string, payload: string)

  /** The groups a match can have: a non-empty type without `;` and a
      non-empty payload without line terminators (`.` matches none). */
  predicate WellFormed(d: DataUri) {
    && |d.mime| > 0 && ';' !in d.mime
    && |d.payload| > 0 && !HasLineTerminator(d.payload)
  }

  function Format(d: DataUri): string {
    "data:" + d.mime + ";base64," + d.payload
  }

  /** The regular-expression match of `saveBase64ArtworkToFile`. */
  function ParseDataUri(s: string): (r: Option<DataUri>)
    ensures r.Some? ==> WellFormed(r.value) && Format(r.value) == s
  {
    if |s| < 5 || s[..5] != "data:" then None
    else
      var rest := s[5..];
      var k := FirstIndexOf(rest, ';');
      if k <= 0 then None
      else
        var after := rest[k..];
        if |after| < 8 || after[..8] != ";base64," then None
        else
          var payload := after[8..];
          if |payload| == 0 || HasLineTerminator(payload) then None
          else
            var d := DataUri(rest[..k], payload);
            Some(d)
  }

  /** Every well-formed data URI parses back to its parts, so together
      with the postcondition of `ParseDataUri` a string matches exactly
      when it is `Format` of a well-formed `DataUri`. */
  lemma ParseFormat(d: DataUri)
    requires WellFormed(d)
    ensures ParseDataUri(Format(d)) == Some(d)
  {
    var s := Format(d);
    var rest := d.mime + ";base64," + d.payload;
    assert s[5..] == rest;
    assert rest[|d.mime|] == ';';
    assert rest[..|d.mime|] == d.mime;
    FirstIndexOfAt(rest, ';', |d.mime|);
    var k := |d.mime|;
    assert rest[k..] == ";base64," + d.payload;
    assert rest[k..][8..] == d.payload;
  }

  /** `${format.split('/')[1]}`: the subtype, or "undefined" when the
      type has no `/`. */
  function ImageExtension(mime: string): (ext: string)
    ensures '/' !in ext
  {
    match Segment(mime, '/', 1)
    case Some(e) => e
    case None => "undefined"
  }

  lemma ImageExtensionOf(kind: string, sub: string)
    requires '/' !in kind && '/' !in sub
    ensures ImageExtension(kind + "/" + sub) == sub
  {
    SplitConcat(kind, sub, '/');
    SplitWithoutSeparator(kind, '/');
    SplitWithoutSeparator(sub, '/');
  }

  lemma ImageExtensionWithoutSlash(mime: string)
    requires '/' !in mime
    ensures ImageExtension(mime) == "undefined"
  {
    SplitWithoutSeparator(mime, '/');
  }

  /** `${Date.now()}-${random}.${ext}`. */
  function ArtworkFileName(now: nat, suffix: string, mime: string): (r: string)
    ensures NatToString(now) <= r
    ensures EndsWith(r, "." + ImageExtension(mime))
  {
    NatToString(now) + "-" + suffix + "." + ImageExtension(mime)
  }

  function ArtworkPath(now: nat, suffix: string, mime: string): (r: string)
    ensures ArtworkDir <= r
    ensures EndsWith(r, "." + ImageExtension(mime))
  {
    ArtworkDir + ArtworkFileName(now, suffix, mime)
  }

  /** An artwork path lies in the artwork folder, ends with the image's
      extension, and names a file directly in the folder when the random
      suffix has no `/`. */
  lemma ArtworkPathShape(now: nat, suffix: string, mime: string)
    ensures ArtworkDir <= ArtworkPath(now, suffix, mime)
    ensures EndsWith(ArtworkPath(now, suffix, mime), "." + ImageExtension(mime))
    ensures '/' !in suffix ==> '/' !in ArtworkPath(now, suffix, mime)[|ArtworkDir|..]
  {
    var name := ArtworkFileName(now, suffix, mime);
    assert ArtworkPath(now, suffix, mime)[|ArtworkDir|..] == name;
    if '/' !in suffix {
      assert forall i :: 0 <= i < |NatToString(now)| ==> IsDigit(NatToString(now)[i]);
      assert name == NatToString(now) + ("-" + suffix + "." + ImageExtension(mime));
    }
  }

  /** Files named at two different clock readings never collide, whatever
      the random suffixes and types: the name starts with the clock's
      digits up to the first `-`. */
  lemma ArtworkNamesDistinct(now1: nat, suffix1: string, mime1: string, now2: nat, suffix2: string, mime2: string)
    requires now1 != now2
    ensures ArtworkFileName(now1, suffix1, mime1) != ArtworkFileName(now2, suffix2, mime2)
  {
    DigitsHaveNoDash(now1);
    DigitsHaveNoDash(now2);
    FirstSegmentIsClock(now1, suffix1 + "." + ImageExtension(mime1));
    FirstSegmentIsClock(now2, suffix2 + "." + ImageExtension(mime2));
    assert ArtworkFileName(now1, suffix1, mime1) == NatToString(now1) + "-" + (suffix1 + "." + ImageExtension(mime1));
    assert ArtworkFileName(now2, suffix2, mime2) == NatToString(now2) + "-" + (suffix2 + "." + ImageExtension(mime2));
    if ArtworkFileName(now1, suffix1, mime1) == ArtworkFileName(now2, suffix2, mime2) {
      NatToStringInjective(now1, now2);
    }
  }

  lemma DigitsHaveNoDash(n: nat)
    ensures '-' !in NatToString(n)
  {
    assert forall i :: 0 <= i < |NatToString(n)| ==> IsDigit(NatToString(n)[i]);
  }

  lemma FirstSegmentIsClock(n: nat, rest: string)
    requires '-' !in NatToString(n)
    ensures Split(NatToString(n) + "-" + rest, '-')[0] == NatToString(n)
  {
    SplitConcat(NatToString(n), rest, '-');
    SplitWithoutSeparator(NatToString(n), '-');
  }

  /** `ensureArtworkDir`: creates the folder unless something exists there. */
  method EnsureArtworkDir(fs: FileSystem)
    modifies fs
    ensures fs.files == old(fs.files)
    ensures fs.dirs == if old(fs.Exists(ArtworkDir)) then old(fs.dirs) else old(fs.dirs) + {ArtworkDir}
    ensures fs.Exists(ArtworkDir)
  {
    if !fs.Exists(ArtworkDir) {
      fs.MakeDirectory(ArtworkDir);
    }
  }

  /** Ensuring the folder a second time changes nothing. */
  method EnsureArtworkDirTwice(fs: FileSystem)
    modifies fs
    ensures fs.files == old(fs.files)
    ensures fs.dirs == if old(fs.Exists(ArtworkDir)) then old(fs.dirs) else old(fs.dirs) + {ArtworkDir}
  {
    EnsureArtworkDir(fs);
    ghost var once := fs.dirs;
    EnsureArtworkDir(fs);
    assert fs.dirs == once;
  }

  /** `saveArtworkToFile(data, format)` at clock `now` with random `suffix`:
      the bytes land in a new file of the artwork folder. */
  method SaveArtworkToFile(fs: FileSystem, data: seq<bv8>, format: string, now: nat, suffix: string)
    returns (uri: string)
    modifies fs
    ensures uri == ArtworkPath(now, suffix, format)
    ensures fs.files == old(fs.files)[uri := Bytes(data)]
    ensures fs.dirs == if old(fs.Exists(ArtworkDir)) then old(fs.dirs) else old(fs.dirs) + {ArtworkDir}
  {
    EnsureArtworkDir(fs);
    uri := ArtworkPath(now, suffix, format);
    fs.Write(uri, Bytes(data));
  }

  /** `saveBase64ArtworkToFile(dataUri)`: the folder is ensured first, even
      when the URI then fails to match and the call throws. */
  method SaveBase64ArtworkToFile(fs: FileSystem, dataUri: string, now: nat, suffix: string)
    returns (r: Result<string, string>)
    modifies fs
    ensures fs.dirs == if old(fs.Exists(ArtworkDir)) then old(fs.dirs) else old(fs.dirs) + {ArtworkDir}
    ensures ParseDataUri(dataUri).None? ==> r == Err("Invalid base64 data URI") && fs.files == old(fs.files)
    ensures ParseDataUri(dataUri).Some? ==>
      && r == Ok(ArtworkPath(now, suffix, ParseDataUri(dataUri).value.mime))
      && fs.files == old(fs.files)[r.value := Base64Payload(ParseDataUri(dataUri).value.payload)]
  {
    EnsureArtworkDir(fs);
    var m := ParseDataUri(dataUri);
    if m.None? {
      return Err("Invalid base64 data URI");
    }
    var uri := ArtworkPath(now, suffix, m.value.mime);
    fs.Write(uri, Base64Payload(m.value.payload));
    r := Ok(uri);
  }

  /** `deleteArtworkFile(uri)`: nothing for `null` or "", otherwise the
      file goes if it exists; it never reports a failure. */
  method DeleteArtworkFile(fs: FileSystem, uri: Option<string>)
    modifies fs
    ensures uri.None? || uri.value == "" ==> fs.files == old(fs.files) && fs.dirs == old(fs.dirs)
    ensures uri.Some? && uri.value != "" ==>
      fs.files == old(fs.files) - {uri.value} && fs.dirs == old(fs.dirs) - {uri.value}
  {
    if uri.None? || uri.value == "" {
      return;
    }
    if fs.Exists(uri.value) {
      var _ := fs.Delete(uri.value);
    }
  }
}
