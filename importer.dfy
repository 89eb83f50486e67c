/**
 * The photo importer (photo_importer.py): the walk over a folder that picks
 * the image files, skips the ones whose hash the catalog already holds,
 * imports the others through process_file, keeps the photo, thumbnail,
 * error and skip counters, and finally hands the recorded (path, hash) pairs
 * to the face pass.
 *
 * The file system is an oracle: `hashOf` is calculate_file_hash (None when
 * reading the file raises) and `open` is what PIL yields for the file (None
 * when opening, decoding, thumbnailing or copying raises).  os.walk is given
 * as the sequence of directories it visits.
 */
module Importer {
  import opened Text
  import opened Exif
  import opened Catalog
  import opened FacePass

  // ---------------------------------------------------------------------------
  // File names

  /** The suffixes the walk accepts, compared against the lowered file name. */
  const ImageExtensions: seq<string> := [".png", ".jpg", ".jpeg", ".bmp", ".gif", ".tiff", ".webp", ".heic"]

  /** file.lower().endswith((...)) */
  predicate IsImageName(name: string)
  {
    exists e :: e in ImageExtensions && EndsWith(Lower(name), e)
  }

  /** The filter ignores case: a name is accepted exactly when its lowered form is. */
  lemma ImageNameIgnoresCase(name: string)
    ensures IsImageName(Lower(name)) <==> IsImageName(name)
  {
    LowerIsIdempotent(name);
  }

  /** An accepted name holds a '.', the one its extension starts with. */
  lemma ImageNameHasDot(name: string)
    requires IsImageName(name)
    ensures '.' in name
  {
    var e :| e in ImageExtensions && EndsWith(Lower(name), e);
    assert e[0] == '.';
    var k := |name| - |e|;
    assert Lower(name)[k] == e[0];
    assert name[k] in name;
  }

  /** os.path.basename(file_path).replace('.', '_thumb.') */
  function ThumbnailName(base: string): string
  {
    ReplaceChar(base, '.', "_thumb.")
  }

  /**
   * The inverse of ThumbnailName, reading left to right: every "_thumb."
   * becomes "." again and every other character is kept.
   */
  function RestoreName(thumb: string): string
    decreases |thumb|
  {
    if thumb == [] then []
    else if |thumb| >= 7 && thumb[..7] == "_thumb." then "." + RestoreName(thumb[7..])
    else [thumb[0]] + RestoreName(thumb[1..])
  }

  /** Each '.' of the base name becomes seven characters, every other character one. */
  lemma {:induction false} ThumbnailLength(base: string)
    ensures |ThumbnailName(base)| == |base| + 6 * Occurrences(base, '.')
  {
    if base != [] {
      ThumbnailLength(base[1..]);
    }
  }

  /** Every '.' of a thumbnail name closes an inserted "_thumb.", so none lies before index 6. */
  lemma {:induction false} ThumbnailDotsAreLate(base: string)
    ensures forall j :: 0 <= j < |ThumbnailName(base)| && ThumbnailName(base)[j] == '.' ==> j >= 6
  {
    if base != [] {
      ThumbnailDotsAreLate(base[1..]);
      var chunk := if base[0] == '.' then "_thumb." else [base[0]];
      var rest := ThumbnailName(base[1..]);
      assert ThumbnailName(base) == chunk + rest;
      forall j | 0 <= j < |chunk + rest| && (chunk + rest)[j] == '.' ensures j >= 6 {
        if j >= |chunk| {
          assert (chunk + rest)[j] == rest[j - |chunk|];
        }
      }
    }
  }

  /** The thumbnail name determines the base name: restoring it gives the base name back. */
  lemma {:induction false} ThumbnailNameRoundTrip(base: string)
    ensures RestoreName(ThumbnailName(base)) == base
  {
    if base != [] {
      ThumbnailNameRoundTrip(base[1..]);
      var rest := ThumbnailName(base[1..]);
      if base[0] == '.' {
        var t := "_thumb." + rest;
        assert ThumbnailName(base) == t;
        assert t[..7] == "_thumb." && t[7..] == rest;
        assert "." + base[1..] == base;
      } else {
        var t := [base[0]] + rest;
        assert ThumbnailName(base) == t;
        ThumbnailDotsAreLate(base[1..]);
        if |t| >= 7 {
          assert t[..7][6] == t[6] == rest[5];
        }
        assert t[1..] == rest;
        assert [base[0]] + base[1..] == base;
      }
    }
  }

  /** A name without '.' is its own thumbnail name, and an image file name never is. */
  lemma {:induction false} ThumbnailNameChanges(base: string)
    ensures ThumbnailName(base) == base <==> '.' !in base
  {
    ThumbnailLength(base);
    if '.' !in base {
      NoDotIsUnchanged(base);
    } else {
      DotIsCounted(base);
    }
  }

  lemma {:induction false} NoDotIsUnchanged(base: string)
    requires '.' !in base
    ensures ThumbnailName(base) == base
  {
    if base != [] {
      assert base[0] != '.' by { assert base[0] in base; }
      assert '.' !in base[1..] by {
        forall j | 0 <= j < |base[1..]| ensures base[1..][j] != '.' {
          assert base[1..][j] == base[j + 1] && base[j + 1] in base;
        }
      }
      NoDotIsUnchanged(base[1..]);
      assert [base[0]] + base[1..] == base;
    }
  }

  lemma {:induction false} DotIsCounted(base: string)
    requires '.' in base
    ensures Occurrences(base, '.') > 0
  {
    if base[0] != '.' {
      var j :| 0 <= j < |base| && base[j] == '.';
      assert base[1..][j - 1] == base[j];
      DotIsCounted(base[1..]);
    }
  }

  // ---------------------------------------------------------------------------
  // The file system as an oracle

  /** One directory os.walk yields: its path and the names of its files, in listing order. */
  datatype WalkDir = WalkDir(root: string, files: seq<string>)

  /** One file the walk reaches. */
  datatype WalkedFile = WalkedFile(root: string, name: string)

  /** What PIL yields for a file: its EXIF data, image.format, the size and the creation time (strftime-formatted). */
  datatype ImageFacts = ImageFacts(exif: ExifData, format: string, fileSize: int, creationTime: string)

  /** calculate_file_hash and opening the file with PIL; None where they raise. */
  datatype FileSystem = FileSystem(hashOf: string -> Option<string>, open: string -> Option<ImageFacts>)

  /** What the importer works against: whether the catalog is connected, the file system, the two storage folders. */
  datatype Setting = Setting(connected: bool, fs: FileSystem, photoDir: string, thumbDir: string)

  /** How process_file ends: an exception escapes it, or it returns (True, or False/None). */
  datatype FileOutcome = Raised | Returned(imported: bool)

  function FilesOfDir(d: WalkDir): (files: seq<WalkedFile>)
    ensures |files| == |d.files|
    ensures forall j :: 0 <= j < |files| ==> files[j] == WalkedFile(d.root, d.files[j])
  {
    seq(|d.files|, j requires 0 <= j < |d.files| => WalkedFile(d.root, d.files[j]))
  }

  /** The files in the order the two nested for-loops reach them. */
  function WalkedFiles(walk: seq<WalkDir>): seq<WalkedFile>
  {
    if walk == [] then [] else WalkedFiles(walk[..|walk| - 1]) + FilesOfDir(walk[|walk| - 1])
  }

  // ---------------------------------------------------------------------------
  // process_file

  /** exif_data.get('Make', 'Unknown') */
  function CameraModel(exif: ExifData): string
  {
    if "Make" in exif.tags then exif.tags["Make"] else "Unknown"
  }

  /** The photo_info tuple process_file stores for the file at `path`. */
  function PhotoInfoFor(s: Setting, path: string, facts: ImageFacts, fileHash: string): PhotoInfo
  {
    var name := Basename(path);
    var thumbnail := ThumbnailName(name);
    var capture := ExtractCaptureInfo(facts.exif, facts.creationTime);
    PhotoInfo(name, facts.fileSize, facts.format, capture.captureDate, capture.isCaptureTimeAccurate,
              GpsLocation(facts.exif), CameraModel(facts.exif), Join(s.photoDir, name),
              thumbnail, Join(s.thumbDir, thumbnail), fileHash, 0)
  }

  /** process_file on the catalog tables `t`: its outcome and the tables afterwards. */
  function ProcessFileSpec(s: Setting, t: Tables, path: string): (FileOutcome, Tables)
  {
    match s.fs.hashOf(path)
    case None => (Raised, t)
    case Some(h) =>
      if s.connected && FirstByHash(t.photos, h).Some? then (Returned(false), t)
      else match s.fs.open(path)
        case None => (Returned(false), t)
        case Some(facts) =>
          (Returned(true), if s.connected then InsertPhotoRow(t, PhotoInfoFor(s, path, facts, h)) else t)
  }

  /** process_file either changes nothing or adds the one row it describes, and it reports True exactly when it got that far. */
  lemma ProcessFileAddsOneRow(s: Setting, t: Tables, path: string)
    ensures var (outcome, t') := ProcessFileSpec(s, t, path);
      && (outcome == Returned(true) <==>
            && s.fs.hashOf(path).Some? && s.fs.open(path).Some?
            && !(s.connected && FirstByHash(t.photos, s.fs.hashOf(path).value).Some?))
      && (outcome == Returned(true) && s.connected ==>
            && t'.photos == t.photos + [PhotoRow(t.photoSeq + 1, PhotoInfoFor(s, path, s.fs.open(path).value, s.fs.hashOf(path).value))]
            && t'.faces == t.faces && t'.links == t.links)
      && (outcome != Returned(true) || !s.connected ==> t' == t)
  {
  }

  // ---------------------------------------------------------------------------
  // import_from_folder

  /** The local variables of import_from_folder. */
  datatype ImportState = ImportState(
    tables: Tables,
    photoCount: nat,
    thumbnailCount: nat,
    errorCount: nat,
    skipCount: nat,
    paths: seq<string>,
    hashes: seq<string>)

  function Start(t: Tables): ImportState
  {
    ImportState(t, 0, 0, 0, 0, [], [])
  }

  /** One turn of the inner for-loop. */
  function ImportStep(s: Setting, st: ImportState, f: WalkedFile): ImportState
  {
    var path := Join(f.root, f.name);
    if !IsImageName(f.name) then st
    else match s.fs.hashOf(path)
      case None => st.(errorCount := st.errorCount + 1)
      case Some(h) =>
        if s.connected && FirstByHash(st.tables.photos, h).Some? then st.(skipCount := st.skipCount + 1)
        else
          var r := ProcessFileSpec(s, st.tables, path);
          match r.0
          case Raised => st.(tables := r.1, errorCount := st.errorCount + 1)
          case Returned(imported) =>
            if !imported then st.(tables := r.1)
            else st.(tables := r.1, photoCount := st.photoCount + 1, thumbnailCount := st.thumbnailCount + 1,
                     paths := st.paths + [path], hashes := st.hashes + [h])
  }

  /** The walk over `files`, from the state `st`. */
  function Walk(s: Setting, st: ImportState, files: seq<WalkedFile>): ImportState
    decreases |files|
  {
    if files == [] then st else ImportStep(s, Walk(s, st, files[..|files| - 1]), files[|files| - 1])
  }

  /** list(zip(all_file_paths, all_file_hashes)) */
  function Sources(paths: seq<string>, hashes: seq<string>): (sources: seq<PhotoSource>)
    ensures |sources| == if |paths| < |hashes| then |paths| else |hashes|
    ensures forall i :: 0 <= i < |sources| ==> sources[i] == PhotoSource(paths[i], hashes[i])
  {
    var n := if |paths| < |hashes| then |paths| else |hashes|;
    seq(n, i requires 0 <= i < n => PhotoSource(paths[i], hashes[i]))
  }

  /** The files of one more directory follow those of the directories before it. */
  lemma WalkedFilesNext(walk: seq<WalkDir>, d: nat)
    requires d < |walk|
    ensures WalkedFiles(walk[..d + 1]) == WalkedFiles(walk[..d]) + FilesOfDir(walk[d])
  {
    assert walk[..d + 1][..d] == walk[..d];
  }

  /** Walking one more file is one more step. */
  lemma WalkAppend(s: Setting, st: ImportState, files: seq<WalkedFile>, f: WalkedFile)
    ensures Walk(s, st, files + [f]) == ImportStep(s, Walk(s, st, files), f)
  {
    assert (files + [f])[..|files|] == files;
  }

  /** The walk over one more entry of `files` is one more step. */
  lemma WalkNext(s: Setting, st: ImportState, files: seq<WalkedFile>, j: nat)
    requires j < |files|
    ensures Walk(s, st, files[..j + 1]) == ImportStep(s, Walk(s, st, files[..j]), files[j])
  {
    assert files[..j + 1][..j] == files[..j];
  }

  /** Walking two runs of files one after the other is walking them together. */
  lemma {:induction false} WalkConcat(s: Setting, st: ImportState, xs: seq<WalkedFile>, ys: seq<WalkedFile>)
    ensures Walk(s, st, xs + ys) == Walk(s, Walk(s, st, xs), ys)
    decreases |ys|
  {
    if ys == [] {
      assert xs + ys == xs;
    } else {
      var ys' := ys[..|ys| - 1];
      WalkConcat(s, st, xs, ys');
      assert (xs + ys)[..|xs + ys| - 1] == xs + ys';
    }
  }

  /**
   * photo_count and thumbnail_count rise together and with the two lists, so
   * the face pass receives one (path, hash) pair per imported photo.
   */
  lemma {:induction false} ImportCountsAgree(s: Setting, t: Tables, files: seq<WalkedFile>)
    ensures var st := Walk(s, Start(t), files);
      && st.photoCount == st.thumbnailCount == |st.paths| == |st.hashes|
      && |Sources(st.paths, st.hashes)| == st.photoCount
  {
    if files != [] {
      ImportCountsAgree(s, t, files[..|files| - 1]);
    }
  }

  /** Each recorded pair is an image file the walk reached, with the hash calculate_file_hash gives for it. */
  lemma {:induction false} RecordedPairsAreWalkedImages(s: Setting, t: Tables, files: seq<WalkedFile>)
    ensures var st := Walk(s, Start(t), files);
      && |st.paths| == |st.hashes|
      && forall i :: 0 <= i < |st.paths| ==>
           && s.fs.hashOf(st.paths[i]) == Some(st.hashes[i])
           && exists f :: f in files && IsImageName(f.name) && Join(f.root, f.name) == st.paths[i]
  {
    if files != [] {
      var prefix := files[..|files| - 1];
      var f := files[|files| - 1];
      RecordedPairsAreWalkedImages(s, t, prefix);
      var before := Walk(s, Start(t), prefix);
      var st := Walk(s, Start(t), files);
      forall i | 0 <= i < |st.paths|
        ensures s.fs.hashOf(st.paths[i]) == Some(st.hashes[i])
        ensures exists g :: g in files && IsImageName(g.name) && Join(g.root, g.name) == st.paths[i]
      {
        if i < |before.paths| {
          assert st.paths[i] == before.paths[i] && st.hashes[i] == before.hashes[i];
          var g :| g in prefix && IsImageName(g.name) && Join(g.root, g.name) == before.paths[i];
          assert g in files;
        } else {
          var path := Join(f.root, f.name);
          assert st == ImportStep(s, before, f);
          assert IsImageName(f.name) && s.fs.hashOf(path).Some?;
          assert st.paths == before.paths + [path] && st.hashes == before.hashes + [s.fs.hashOf(path).value];
          assert f in files;
        }
      }
    }
  }

  /** Only image names matter: the walk over all files is the walk over the accepted ones. */
  function ImageFiles(files: seq<WalkedFile>): (r: seq<WalkedFile>)
    ensures forall f :: f in r <==> f in files && IsImageName(f.name)
    decreases |files|
  {
    if files == [] then []
    else
      var last := files[|files| - 1];
      ImageFiles(files[..|files| - 1]) + (if IsImageName(last.name) then [last] else [])
  }

  lemma {:induction false} WalkIgnoresOtherFiles(s: Setting, st: ImportState, files: seq<WalkedFile>)
    ensures Walk(s, st, files) == Walk(s, st, ImageFiles(files))
    decreases |files|
  {
    if files != [] {
      var prefix := files[..|files| - 1];
      var f := files[|files| - 1];
      WalkIgnoresOtherFiles(s, st, prefix);
      if IsImageName(f.name) {
        WalkAppend(s, st, ImageFiles(prefix), f);
      } else {
        assert ImageFiles(files) == ImageFiles(prefix) + [];
        assert ImageFiles(prefix) + [] == ImageFiles(prefix);
      }
    }
  }

  /** Without a connection nothing is looked up or stored: the tables stay as they were. */
  lemma {:induction false} DisconnectedImportStoresNothing(s: Setting, t: Tables, files: seq<WalkedFile>)
    requires !s.connected
    ensures Walk(s, Start(t), files).tables == t
  {
    if files != [] {
      DisconnectedImportStoresNothing(s, t, files[..|files| - 1]);
    }
  }

  /** The number of image files in `files` whose hash cannot be calculated. */
  function Unhashable(s: Setting, files: seq<WalkedFile>): nat
    decreases |files|
  {
    if files == [] then 0
    else
      var f := files[|files| - 1];
      Unhashable(s, files[..|files| - 1]) + (if IsImageName(f.name) && s.fs.hashOf(Join(f.root, f.name)).None? then 1 else 0)
  }

  /**
   * error_count counts exactly the image files whose hash raises: that
   * exception is caught by the loop's handler and the walk goes on, and no
   * other file raises once its hash is known.
   */
  lemma {:induction false} ErrorsCountUnhashable(s: Setting, st: ImportState, files: seq<WalkedFile>)
    ensures Walk(s, st, files).errorCount == st.errorCount + Unhashable(s, files)
    decreases |files|
  {
    if files != [] {
      ErrorsCountUnhashable(s, st, files[..|files| - 1]);
    }
  }

  /** Without a connection no lookup finds a row, so no file is skipped. */
  lemma {:induction false} DisconnectedImportSkipsNothing(s: Setting, st: ImportState, files: seq<WalkedFile>)
    requires !s.connected
    ensures Walk(s, st, files).skipCount == st.skipCount
    decreases |files|
  {
    if files != [] {
      DisconnectedImportSkipsNothing(s, st, files[..|files| - 1]);
    }
  }

  /** Every image file the walk reaches opens with PIL. */
  predicate AllImagesOpen(s: Setting, files: seq<WalkedFile>)
  {
    forall f :: f in files && IsImageName(f.name) ==> s.fs.open(Join(f.root, f.name)).Some?
  }

  /**
   * Each image file raises photo_count, skip_count or error_count by one, or
   * none of them when PIL cannot open it; other files raise none.  So the
   * three grow by at most the number of image files, and by exactly that
   * number when every image opens.
   */
  /** photo_count + skip_count + error_count */
  function Tally(st: ImportState): nat
  {
    st.photoCount + st.skipCount + st.errorCount
  }

  /** One turn of the loop raises the tally by at most one, and by exactly one for an image PIL can open. */
  lemma StepCountsImage(s: Setting, st: ImportState, f: WalkedFile)
    ensures var e := ImportStep(s, st, f);
      && e.photoCount >= st.photoCount && e.skipCount >= st.skipCount && e.errorCount >= st.errorCount
      && (!IsImageName(f.name) ==> Tally(e) == Tally(st))
      && (IsImageName(f.name) ==> Tally(e) <= Tally(st) + 1)
      && (IsImageName(f.name) && s.fs.open(Join(f.root, f.name)).Some? ==> Tally(e) == Tally(st) + 1)
  {
  }

  lemma {:induction false} WalkCountsImages(s: Setting, st: ImportState, files: seq<WalkedFile>)
    ensures var e := Walk(s, st, files);
      && e.photoCount >= st.photoCount && e.skipCount >= st.skipCount && e.errorCount >= st.errorCount
      && Tally(e) <= Tally(st) + |ImageFiles(files)|
      && (AllImagesOpen(s, files) ==> Tally(e) == Tally(st) + |ImageFiles(files)|)
    decreases |files|
  {
    if files != [] {
      var prefix := files[..|files| - 1];
      var last := files[|files| - 1];
      WalkCountsImages(s, st, prefix);
      StepCountsImage(s, Walk(s, st, prefix), last);
      assert Walk(s, st, files) == ImportStep(s, Walk(s, st, prefix), last);
      assert |ImageFiles(files)| == |ImageFiles(prefix)| + (if IsImageName(last.name) then 1 else 0);
      if AllImagesOpen(s, files) {
        assert last in files;
        assert AllImagesOpen(s, prefix) by {
          forall f | f in prefix && IsImageName(f.name) ensures s.fs.open(Join(f.root, f.name)).Some? {
            assert f in files;
          }
        }
      }
    }
  }

  /**
   * A connected walk skips an image file whose hash the catalog held before
   * the import: skip_count rises by one and nothing else changes, so the file
   * is neither processed nor recorded.
   */
  lemma CataloguedFileIsSkipped(s: Setting, t: Tables, files: seq<WalkedFile>, j: nat, k: nat)
    requires s.connected
    requires j < |files| && IsImageName(files[j].name)
    requires k < |t.photos| && s.fs.hashOf(Join(files[j].root, files[j].name)) == Some(t.photos[k].info.fileHash)
    ensures var before := Walk(s, Start(t), files[..j]);
      Walk(s, Start(t), files[..j + 1]) == before.(skipCount := before.skipCount + 1)
  {
    var before := Walk(s, Start(t), files[..j]);
    ImportKeepsRows(s, t, files[..j]);
    assert before.tables.photos[..|t.photos|] == t.photos;
    assert before.tables.photos[k] == t.photos[k];
    FirstByHashIsFirstMatch(before.tables.photos, t.photos[k].info.fileHash);
    WalkNext(s, Start(t), files, j);
  }

  /**
   * The face pass receives exactly the recorded pairs, in recording order:
   * one per imported photo, each an image path with the hash
   * calculate_file_hash gives for it.
   */
  lemma FacePassReceivesRecordedPairs(s: Setting, t: Tables, files: seq<WalkedFile>)
    ensures var st := Walk(s, Start(t), files);
      var sources := Sources(st.paths, st.hashes);
      && |sources| == st.photoCount
      && forall i :: 0 <= i < |sources| ==>
           && sources[i].path == st.paths[i] && sources[i].fileHash == st.hashes[i]
           && s.fs.hashOf(sources[i].path) == Some(sources[i].fileHash)
  {
    ImportCountsAgree(s, t, files);
    RecordedPairsAreWalkedImages(s, t, files);
  }

  /**
   * What a connected walk has done to the catalog: the faces and links are
   * untouched, one photo row was appended per recorded hash, in recording
   * order, and the recorded hashes are pairwise distinct and new to the
   * catalog (a duplicate is found by the lookup and skipped).
   */
  ghost predicate ImportedRows(t: Tables, st: ImportState)
  {
    && st.tables.faces == t.faces && st.tables.links == t.links
    && |st.paths| == |st.hashes|
    && |st.tables.photos| == |t.photos| + |st.hashes|
    && st.tables.photos[..|t.photos|] == t.photos
    && (forall i :: 0 <= i < |st.hashes| ==> st.tables.photos[|t.photos| + i].info.fileHash == st.hashes[i])
    && (forall i, j :: 0 <= i < j < |st.hashes| ==> st.hashes[i] != st.hashes[j])
    && (forall i, k :: 0 <= i < |st.hashes| && 0 <= k < |t.photos| ==> t.photos[k].info.fileHash != st.hashes[i])
  }

  /** Appending the row of a hash no stored photo has keeps the invariant. */
  lemma RecordingKeepsRows(t: Tables, st: ImportState, st': ImportState, row: PhotoRow, path: string)
    requires ImportedRows(t, st)
    requires forall k :: 0 <= k < |st.tables.photos| ==> st.tables.photos[k].info.fileHash != row.info.fileHash
    requires st'.tables.faces == st.tables.faces && st'.tables.links == st.tables.links
    requires st'.tables.photos == st.tables.photos + [row]
    requires st'.paths == st.paths + [path] && st'.hashes == st.hashes + [row.info.fileHash]
    ensures ImportedRows(t, st')
  {
    var photos := st.tables.photos;
    var h := row.info.fileHash;
    var n := |t.photos|;
    forall i | 0 <= i < |st.hashes| ensures st.hashes[i] != h {
      assert photos[n + i].info.fileHash == st.hashes[i];
    }
    forall k | 0 <= k < n ensures t.photos[k].info.fileHash != h {
      assert photos[..n][k] == photos[k];
    }
    assert st'.tables.photos[..n] == photos[..n];
    forall i | 0 <= i < |st'.hashes| ensures st'.tables.photos[n + i].info.fileHash == st'.hashes[i] {
      if i < |st.hashes| {
        assert st'.tables.photos[n + i] == photos[n + i];
      }
    }
  }

  lemma ImportStepKeepsRows(s: Setting, t: Tables, st: ImportState, f: WalkedFile)
    requires s.connected
    requires ImportedRows(t, st)
    ensures ImportedRows(t, ImportStep(s, st, f))
  {
    var path := Join(f.root, f.name);
    var st' := ImportStep(s, st, f);
    if IsImageName(f.name) && s.fs.hashOf(path).Some? && s.fs.open(path).Some?
       && FirstByHash(st.tables.photos, s.fs.hashOf(path).value).None? {
      var h := s.fs.hashOf(path).value;
      FirstByHashIsFirstMatch(st.tables.photos, h);
      var row := PhotoRow(st.tables.photoSeq + 1, PhotoInfoFor(s, path, s.fs.open(path).value, h));
      RecordingKeepsRows(t, st, st', row, path);
    } else {
      assert st'.tables == st.tables && st'.paths == st.paths && st'.hashes == st.hashes;
    }
  }

  lemma {:induction false} ImportKeepsRows(s: Setting, t: Tables, files: seq<WalkedFile>)
    requires s.connected
    ensures ImportedRows(t, Walk(s, Start(t), files))
  {
    if files == [] {
      assert t.photos[..|t.photos|] == t.photos;
    } else {
      ImportKeepsRows(s, t, files[..|files| - 1]);
      ImportStepKeepsRows(s, t, Walk(s, Start(t), files[..|files| - 1]), files[|files| - 1]);
    }
  }

  /** A connected import stores each photo once: the pairs handed to the face pass have distinct hashes, none already catalogued. */
  lemma ImportedHashesAreNew(s: Setting, t: Tables, files: seq<WalkedFile>)
    requires s.connected
    ensures var st := Walk(s, Start(t), files);
      && |st.tables.photos| == |t.photos| + st.photoCount
      && (forall i, j :: 0 <= i < j < |st.hashes| ==> st.hashes[i] != st.hashes[j])
      && (forall i, p :: 0 <= i < |st.hashes| && p in t.photos ==> p.info.fileHash != st.hashes[i])
  {
    ImportKeepsRows(s, t, files);
    ImportCountsAgree(s, t, files);
  }

  // ---------------------------------------------------------------------------
  // The importer object

  /** PhotoImporter: the catalog it writes to and the two folders it copies into. */
  class PhotoImporter {
    const db: PhotoDatabase
    const photoStoragePath: string
    const thumbnailStoragePath: string

    /** Creating the folders is not modelled. */
    constructor (dbProcessor: PhotoDatabase, photoDir: string, thumbDir: string)
      ensures db == dbProcessor && photoStoragePath == photoDir && thumbnailStoragePath == thumbDir
    {
      db := dbProcessor;
      photoStoragePath := photoDir;
      thumbnailStoragePath := thumbDir;
    }

    /** process_file: stores the photo's row unless its hash is known or PIL fails on it. */
    method ProcessFile(path: string, fs: FileSystem) returns (outcome: FileOutcome)
      requires db.Valid()
      modifies db
      ensures db.Valid() && db.connected == old(db.connected)
      ensures (outcome, db.State()) ==
        ProcessFileSpec(Setting(db.connected, fs, photoStoragePath, thumbnailStoragePath), old(db.State()), path)
    {
      var fileHash := fs.hashOf(path);
      if fileHash.None? {
        return Raised;
      }
      var known := db.QueryPhotoInfoByHash(fileHash.value);
      if known.Some? {
        // the bare `return` gives None, which the caller reads as False
        return Returned(false);
      }
      var image := fs.open(path);
      if image.None? {
        return Returned(false);
      }
      var exif := image.value.exif;
      var gpsLocation := GpsLocation(exif);
      var capture := ExtractCaptureInfo(exif, image.value.creationTime);
      var cameraModel := CameraModel(exif);
      var thumbnailFilename := ThumbnailName(Basename(path));
      var thumbnailPath := Join(thumbnailStoragePath, thumbnailFilename);
      var isCaptureTimeAccurate := if "DateTimeOriginal" in exif.tags then 1 else 0;
      var info := PhotoInfo(Basename(path), image.value.fileSize, image.value.format, capture.captureDate,
                            isCaptureTimeAccurate, gpsLocation, cameraModel, Join(photoStoragePath, Basename(path)),
                            thumbnailFilename, thumbnailPath, fileHash.value, 0);
      db.AddPhotoInfo(info);
      return Returned(true);
    }

    /** The body of the inner for-loop of import_from_folder, for the file `name` in `root`. */
    method ConsiderFile(root: string, name: string, fs: FileSystem,
                        photoCount: nat, thumbnailCount: nat, errorCount: nat, skipCount: nat,
                        allFilePaths: seq<string>, allFileHashes: seq<string>)
      returns (photoCount': nat, thumbnailCount': nat, errorCount': nat, skipCount': nat,
               allFilePaths': seq<string>, allFileHashes': seq<string>)
      requires db.Valid()
      modifies db
      ensures db.Valid() && db.connected == old(db.connected)
      ensures ImportState(db.State(), photoCount', thumbnailCount', errorCount', skipCount', allFilePaths', allFileHashes')
        == ImportStep(Setting(db.connected, fs, photoStoragePath, thumbnailStoragePath),
                      ImportState(old(db.State()), photoCount, thumbnailCount, errorCount, skipCount, allFilePaths, allFileHashes),
                      WalkedFile(root, name))
    {
      photoCount', thumbnailCount', errorCount', skipCount' := photoCount, thumbnailCount, errorCount, skipCount;
      allFilePaths', allFileHashes' := allFilePaths, allFileHashes;
      var filePath := Join(root, name);
      if IsImageName(name) {
        var fileHash := fs.hashOf(filePath);
        if fileHash.None? {
          errorCount' := errorCount + 1;
        } else {
          var known := db.QueryPhotoInfoByHash(fileHash.value);
          if known.Some? {
            skipCount' := skipCount + 1;
          } else {
            // process_file hashes the file again, so it cannot raise here and the
            // except clause that would count an error is not reached
            var outcome := ProcessFile(filePath, fs);
            if outcome == Returned(true) {
              photoCount' := photoCount + 1;
              thumbnailCount' := thumbnailCount + 1;
              allFilePaths' := allFilePaths + [filePath];
              allFileHashes' := allFileHashes + [fs.hashOf(filePath).value];
            }
          }
        }
      }
    }

    /** The inner for-loop of import_from_folder: the files of one directory, in listing order. */
    method ConsiderDirectory(root: string, files: seq<string>, fs: FileSystem,
                             photoCount: nat, thumbnailCount: nat, errorCount: nat, skipCount: nat,
                             allFilePaths: seq<string>, allFileHashes: seq<string>)
      returns (photoCount': nat, thumbnailCount': nat, errorCount': nat, skipCount': nat,
               allFilePaths': seq<string>, allFileHashes': seq<string>)
      requires db.Valid()
      modifies db
      ensures db.Valid() && db.connected == old(db.connected)
      ensures ImportState(db.State(), photoCount', thumbnailCount', errorCount', skipCount', allFilePaths', allFileHashes')
        == Walk(Setting(db.connected, fs, photoStoragePath, thumbnailStoragePath),
                ImportState(old(db.State()), photoCount, thumbnailCount, errorCount, skipCount, allFilePaths, allFileHashes),
                FilesOfDir(WalkDir(root, files)))
    {
      ghost var s := Setting(db.connected, fs, photoStoragePath, thumbnailStoragePath);
      ghost var st0 := ImportState(db.State(), photoCount, thumbnailCount, errorCount, skipCount, allFilePaths, allFileHashes);
      ghost var entries := FilesOfDir(WalkDir(root, files));
      photoCount', thumbnailCount', errorCount', skipCount' := photoCount, thumbnailCount, errorCount, skipCount;
      allFilePaths', allFileHashes' := allFilePaths, allFileHashes;
      ghost var current := st0;
      var j := 0;
      while j < |files|
        invariant 0 <= j <= |files|
        invariant db.Valid() && db.connected == s.connected
        invariant current == Walk(s, st0, entries[..j])
        invariant ImportState(db.State(), photoCount', thumbnailCount', errorCount', skipCount', allFilePaths', allFileHashes')
                  == current
      {
        WalkNext(s, st0, entries, j);
        assert entries[j] == WalkedFile(root, files[j]);
        photoCount', thumbnailCount', errorCount', skipCount', allFilePaths', allFileHashes' :=
          ConsiderFile(root, files[j], fs, photoCount', thumbnailCount', errorCount', skipCount', allFilePaths', allFileHashes');
        current := ImportStep(s, current, WalkedFile(root, files[j]));
        j := j + 1;
      }
      assert entries[..|files|] == entries;
    }

    /**
     * import_from_folder: walks the folder, imports each new image file and
     * runs the face pass on the recorded pairs.  The four counters are what
     * the import_finished and import_error signals report.
     */
    method ImportFromFolder(walk: seq<WalkDir>, fs: FileSystem,
                            detect: string -> Option<seq<Encoding>>, cluster: seq<Encoding> -> Clustering)
      returns (photoCount: nat, thumbnailCount: nat, errorCount: nat, skipCount: nat)
      requires db.Valid()
      modifies db
      ensures db.Valid() && db.connected == old(db.connected)
      ensures var st := Walk(Setting(old(db.connected), fs, photoStoragePath, thumbnailStoragePath),
                             Start(old(db.State())), WalkedFiles(walk));
        && photoCount == st.photoCount && thumbnailCount == st.thumbnailCount
        && errorCount == st.errorCount && skipCount == st.skipCount
        && db.State() == Pass(st.tables, old(db.connected), Sources(st.paths, st.hashes), detect, cluster).1
    {
      ghost var s := Setting(db.connected, fs, photoStoragePath, thumbnailStoragePath);
      ghost var t0 := db.State();
      photoCount, thumbnailCount, errorCount, skipCount := 0, 0, 0, 0;
      var allFilePaths: seq<string> := [];
      var allFileHashes: seq<string> := [];
      var d := 0;
      while d < |walk|
        invariant 0 <= d <= |walk|
        invariant db.Valid() && db.connected == s.connected
        invariant ImportState(db.State(), photoCount, thumbnailCount, errorCount, skipCount, allFilePaths, allFileHashes)
                  == Walk(s, Start(t0), WalkedFiles(walk[..d]))
      {
        WalkedFilesNext(walk, d);
        WalkConcat(s, Start(t0), WalkedFiles(walk[..d]), FilesOfDir(walk[d]));
        photoCount, thumbnailCount, errorCount, skipCount, allFilePaths, allFileHashes :=
          ConsiderDirectory(walk[d].root, walk[d].files, fs,
                            photoCount, thumbnailCount, errorCount, skipCount, allFilePaths, allFileHashes);
        d := d + 1;
      }
      assert walk[..|walk|] == walk;
      // process_photos runs inside a try block whose handler only prints
      var _ := ProcessPhotos(Sources(allFilePaths, allFileHashes), db, detect, cluster);
    }
  }
}
