/**
 * The face-to-identity pass (process_photos.py).  The faces detected in the
 * new photos are flattened into parallel lists, clustered together with the
 * faces already stored, and each new face is then either minted as a new
 * Faces row labelled 未命名<n> (a noise label, -1) or resolved to a stored
 * face through the stored label list, and linked to its photo when the photo
 * is found by hash.
 *
 * Face detection and DBSCAN are oracles: `detect` maps an image path to the
 * encodings found in it (None when loading the image raises), `cluster` maps
 * the combined encodings to the outcome of fitting DBSCAN.
 */
module FacePass {
  import opened Text
  import opened Catalog

  /** One element of photo_source: the photo's path and its file hash. */
  datatype PhotoSource = PhotoSource(path: string, fileHash: string)

  /** One newly detected face: an element of the three parallel lists. */
  datatype NewFace = NewFace(path: string, fileHash: string, encoding: Encoding)

  /** What fitting DBSCAN gives: an exception, a model without labels_, or the labels. */
  datatype Clustering = ClusteringRaised | NoLabels | Labels(labels: seq<int>)

  /** How the pass ends. */
  datatype PassOutcome =
    | Propagated        // an exception outside the try block reaches the caller
    | NoFacesDetected   // no new encoding: clustering is not run
    | ClusteringFailed  // DBSCAN raised; the handler reports it
    | LabelsMissing     // the fitted model has no labels_
    | Finished          // every paired face was handled
    | AbortedAt(index: nat)  // the label of new face `index` did not index the stored labels

  // ---------------------------------------------------------------------------
  // Flattening the detected faces

  /** The entries one photo contributes: one per detected face, repeating its path and hash. */
  function FacesOfPhoto(src: PhotoSource, encodings: seq<Encoding>): (faces: seq<NewFace>)
    ensures |faces| == |encodings|
    ensures forall i :: 0 <= i < |faces| ==> faces[i] == NewFace(src.path, src.fileHash, encodings[i])
  {
    seq(|encodings|, i requires 0 <= i < |encodings| => NewFace(src.path, src.fileHash, encodings[i]))
  }

  /** The flattened faces of the photos, in photo order; None when detection raises on one of them. */
  function FacesOf(sources: seq<PhotoSource>, detect: string -> Option<seq<Encoding>>): Option<seq<NewFace>>
    decreases |sources|
  {
    if sources == [] then Some([])
    else
      var last := sources[|sources| - 1];
      match FacesOf(sources[..|sources| - 1], detect)
      case None => None
      case Some(faces) =>
        match detect(last.path)
        case None => None
        case Some(encodings) => Some(faces + FacesOfPhoto(last, encodings))
  }

  /** The number of faces detected in the photos, photo by photo (a photo whose loading raises adds none). */
  function DetectedCount(sources: seq<PhotoSource>, detect: string -> Option<seq<Encoding>>): nat
    decreases |sources|
  {
    if sources == [] then 0
    else
      var last := sources[|sources| - 1];
      DetectedCount(sources[..|sources| - 1], detect) + (if detect(last.path).Some? then |detect(last.path).value| else 0)
  }

  /**
   * The flattened lists have one entry per detected face: a photo with k
   * faces adds k entries, one with none adds nothing, and the faces of an
   * earlier photo come before those of a later one.
   */
  lemma {:induction false} FacesOfCounts(sources: seq<PhotoSource>, detect: string -> Option<seq<Encoding>>, j: nat)
    requires FacesOf(sources, detect).Some?
    requires j <= |sources|
    ensures |FacesOf(sources, detect).value| == DetectedCount(sources, detect)
    ensures FacesOf(sources[..j], detect).Some?
    ensures DetectedCount(sources[..j], detect) <= DetectedCount(sources, detect)
    ensures FacesOf(sources, detect).value[..DetectedCount(sources[..j], detect)] == FacesOf(sources[..j], detect).value
    decreases |sources|
  {
    if sources != [] {
      var n := |sources| - 1;
      var init := sources[..n];
      var last := sources[n];
      var encodings := detect(last.path).value;
      var before := FacesOf(init, detect).value;
      assert FacesOf(sources, detect).value == before + FacesOfPhoto(last, encodings);
      assert DetectedCount(sources, detect) == DetectedCount(init, detect) + |encodings|;
      if j <= n {
        assert sources[..j] == init[..j];
        FacesOfCounts(init, detect, j);
        assert (before + FacesOfPhoto(last, encodings))[..DetectedCount(init[..j], detect)] == before[..DetectedCount(init[..j], detect)];
      } else {
        assert sources[..j] == sources;
        FacesOfCounts(init, detect, n);
      }
    } else {
      assert sources[..j] == sources;
    }
  }

  /** The flattening fails exactly when detection fails on some photo. */
  lemma {:induction false} FacesOfFails(sources: seq<PhotoSource>, detect: string -> Option<seq<Encoding>>)
    ensures FacesOf(sources, detect).None? <==> exists j :: 0 <= j < |sources| && detect(sources[j].path).None?
    decreases |sources|
  {
    if sources != [] {
      var n := |sources|;
      var init := sources[..n - 1];
      FacesOfFails(init, detect);
      if FacesOf(init, detect).None? {
        var j :| 0 <= j < |init| && detect(init[j].path).None?;
        assert sources[j] == init[j];
      } else if detect(sources[n - 1].path).Some? {
        forall j | 0 <= j < n ensures detect(sources[j].path).Some? {
          if j < n - 1 { assert sources[j] == init[j]; }
        }
      }
    }
  }

  /** Every flattened face comes from one of the photos, with that photo's path and hash and one of its encodings. */
  lemma {:induction false} FacesOfOrigins(sources: seq<PhotoSource>, detect: string -> Option<seq<Encoding>>)
    requires FacesOf(sources, detect).Some?
    ensures forall f :: f in FacesOf(sources, detect).value ==>
      exists j :: 0 <= j < |sources| && f.path == sources[j].path && f.fileHash == sources[j].fileHash &&
        detect(sources[j].path).Some? && f.encoding in detect(sources[j].path).value
    decreases |sources|
  {
    if sources != [] {
      var n := |sources|;
      var init := sources[..n - 1];
      FacesOfOrigins(init, detect);
      var last := sources[n - 1];
      var encodings := detect(last.path).value;
      forall f | f in FacesOf(sources, detect).value
        ensures exists j :: (0 <= j < n && f.path == sources[j].path && f.fileHash == sources[j].fileHash &&
          detect(sources[j].path).Some? && f.encoding in detect(sources[j].path).value)
      {
        if f in FacesOf(init, detect).value {
          var j :| 0 <= j < |init| && f.path == init[j].path && f.fileHash == init[j].fileHash &&
            detect(init[j].path).Some? && f.encoding in detect(init[j].path).value;
          assert sources[j] == init[j];
        } else {
          var k :| 0 <= k < |encodings| && f == FacesOfPhoto(last, encodings)[k];
          assert f.encoding == encodings[k];
        }
      }
    }
  }

  function EncodingsOf(faces: seq<NewFace>): (r: seq<Encoding>)
    ensures |r| == |faces| && forall i :: 0 <= i < |r| ==> r[i] == faces[i].encoding
  {
    seq(|faces|, i requires 0 <= i < |faces| => faces[i].encoding)
  }

  function PathsOf(faces: seq<NewFace>): (r: seq<string>)
    ensures |r| == |faces| && forall i :: 0 <= i < |r| ==> r[i] == faces[i].path
  {
    seq(|faces|, i requires 0 <= i < |faces| => faces[i].path)
  }

  function HashesOf(faces: seq<NewFace>): (r: seq<string>)
    ensures |r| == |faces| && forall i :: 0 <= i < |r| ==> r[i] == faces[i].fileHash
  {
    seq(|faces|, i requires 0 <= i < |faces| => faces[i].fileHash)
  }

  // ---------------------------------------------------------------------------
  // The stored faces

  function StoredEncodings(rows: seq<FaceRow>): (r: seq<Encoding>)
    ensures |r| == |rows| && forall i :: 0 <= i < |r| ==> r[i] == rows[i].faceHash
  {
    seq(|rows|, i requires 0 <= i < |rows| => rows[i].faceHash)
  }

  function StoredLabels(rows: seq<FaceRow>): (r: seq<string>)
    ensures |r| == |rows| && forall i :: 0 <= i < |r| ==> r[i] == rows[i].faceLabel
  {
    seq(|rows|, i requires 0 <= i < |rows| => rows[i].faceLabel)
  }

  /** face_id_map: label to FaceID, filled in query order, so a later row with the same label overwrites an earlier one. */
  function FaceIdMap(rows: seq<FaceRow>): (m: map<string, nat>)
    ensures forall i :: 0 <= i < |rows| ==> rows[i].faceLabel in m
    decreases |rows|
  {
    if rows == [] then map[]
    else
      var n := |rows|;
      var m := FaceIdMap(rows[..n - 1]);
      assert forall i :: 0 <= i < n - 1 ==> rows[..n - 1][i] == rows[i];
      m[rows[n - 1].faceLabel := rows[n - 1].faceId]
  }

  /** face_id_map holds the labels of the stored faces and nothing else, each mapped to the id of a face with that label. */
  lemma {:induction false} FaceIdMapEntries(rows: seq<FaceRow>)
    ensures forall l :: l in FaceIdMap(rows) ==>
      exists i :: 0 <= i < |rows| && rows[i].faceLabel == l && rows[i].faceId == FaceIdMap(rows)[l]
    decreases |rows|
  {
    if rows != [] {
      var n := |rows|;
      var init := rows[..n - 1];
      FaceIdMapEntries(init);
      assert FaceIdMap(rows) == FaceIdMap(init)[rows[n - 1].faceLabel := rows[n - 1].faceId];
      forall l | l in FaceIdMap(rows)
        ensures exists i :: 0 <= i < n && rows[i].faceLabel == l && rows[i].faceId == FaceIdMap(rows)[l]
      {
        if l != rows[n - 1].faceLabel {
          var i :| 0 <= i < |init| && init[i].faceLabel == l && init[i].faceId == FaceIdMap(init)[l];
          assert rows[i] == init[i];
        }
      }
    }
  }

  /** When several stored faces share a label, the map holds the id of the last of them. */
  lemma {:induction false} FaceIdMapLaterWins(rows: seq<FaceRow>, j: nat)
    requires j < |rows|
    requires forall k :: j < k < |rows| ==> rows[k].faceLabel != rows[j].faceLabel
    ensures FaceIdMap(rows)[rows[j].faceLabel] == rows[j].faceId
    decreases |rows|
  {
    var n := |rows|;
    if j < n - 1 {
      var init := rows[..n - 1];
      assert init[j] == rows[j];
      assert forall k :: j < k < |init| ==> init[k] == rows[k];
      FaceIdMapLaterWins(init, j);
    }
  }

  /** Python's s[k]: negative indices count from the end; outside [-|s|, |s|) it raises IndexError (None). */
  function PyIndex<T>(s: seq<T>, k: int): (r: Option<T>)
    ensures r.Some? <==> -|s| <= k < |s|
    ensures r.Some? ==> r.value == s[if k < 0 then |s| + k else k]
  {
    if 0 <= k < |s| then Some(s[k])
    else if -|s| <= k < 0 then Some(s[|s| + k])
    else None
  }

  /** Python's s[start:] for a non-negative start. */
  function PySuffix<T>(s: seq<T>, start: nat): (r: seq<T>)
    ensures |r| == if start <= |s| then |s| - start else 0
    ensures forall i :: 0 <= i < |r| ==> r[i] == s[start + i]
  {
    if start <= |s| then s[start..] else []
  }

  /** How the label of one new face is turned into a FaceID. */
  datatype Resolution = Mint | Reuse(faceId: nat) | Unresolvable

  /** Noise mints a face; any other label k takes the id mapped to existing_labels[k], or raises. */
  function Resolve(existing: seq<FaceRow>, k: int): Resolution
  {
    if k == -1 then Mint
    else match PyIndex(StoredLabels(existing), k)
      case None => Unresolvable
      case Some(l) => Reuse(FaceIdMap(existing)[l])
  }

  /** existing_labels[label] raises IndexError: the label is not noise and lies outside [-len, len). */
  predicate Raises(existing: seq<FaceRow>, k: int)
  {
    k != -1 && (k < -|existing| || k >= |existing|)
  }

  /** The three ways a label resolves, and that a cluster number k is used as an index into the stored faces. */
  lemma ResolveCases(existing: seq<FaceRow>, k: int)
    ensures Resolve(existing, k).Mint? <==> k == -1
    ensures Resolve(existing, k).Unresolvable? <==> Raises(existing, k)
    ensures Resolve(existing, k).Reuse? ==>
      exists i :: 0 <= i < |existing| && existing[i].faceId == Resolve(existing, k).faceId
    ensures k != -1 && 0 <= k < |existing| ==>
      Resolve(existing, k) == Reuse(FaceIdMap(existing)[existing[k].faceLabel])
  {
    if Resolve(existing, k).Reuse? {
      FaceIdMapEntries(existing);
      var l := PyIndex(StoredLabels(existing), k).value;
      var i :| 0 <= i < |existing| && existing[i].faceLabel == l && existing[i].faceId == FaceIdMap(existing)[l];
    }
  }

  // ---------------------------------------------------------------------------
  // The assignment loop

  /** The numbered label given to a noise face. */
  function UnnamedLabel(n: nat): string
  {
    "未命名" + NatToText(n)
  }

  /** Different counter values give different labels. */
  lemma UnnamedLabelInjective(a: nat, b: nat)
    requires UnnamedLabel(a) == UnnamedLabel(b)
    ensures a == b
  {
    assert UnnamedLabel(a)[3..] == NatToText(a);
    assert UnnamedLabel(b)[3..] == NatToText(b);
    NatToTextInjective(a, b);
  }

  /** unnamed_counter's first value: one more than the largest FaceID, or 1 for an empty Faces table. */
  function FirstUnnamedNumber(faces: seq<FaceRow>): (n: nat)
    ensures n >= 1
    ensures forall i :: 0 <= i < |faces| ==> faces[i].faceId < n
  {
    match MaxFaceId(faces)
    case None => 1
    case Some(m) => m + 1
  }

  /** What the assignment loop works on: the stored faces, the new faces and the labels after the stored ones. */
  datatype PassContext = PassContext(existing: seq<FaceRow>, news: seq<NewFace>, labels: seq<int>)

  /** zip stops at the shorter of the new faces and the labels left. */
  function PairCount(ctx: PassContext): nat
  {
    if |ctx.news| <= |ctx.labels| then |ctx.news| else |ctx.labels|
  }

  /** The state of the loop: the tables, unnamed_counter, and the index at which an exception ended it. */
  datatype Progress = Progress(tables: Tables, counter: nat, stopped: Option<nat>)

  /** Looks the photo up by the base name of its hash and, when a row is found, links the face to its PhotoID. */
  function LinkIfFound(t: Tables, fileHash: string, faceId: int): (r: Tables)
    ensures r.photos == t.photos && r.faces == t.faces && r.photoSeq == t.photoSeq && r.faceSeq == t.faceSeq
    ensures r.links == t.links + match FirstByHash(t.photos, Basename(fileHash))
      case None => []
      case Some(p) => [LinkRow(p.photoId, faceId)]
  {
    match FirstByHash(t.photos, Basename(fileHash))
    case None => t
    case Some(p) => AppendLink(t, p.photoId, faceId)
  }

  /** One iteration for new face i. */
  function Step(ctx: PassContext, p: Progress, i: nat): Progress
    requires i < PairCount(ctx)
  {
    if p.stopped.Some? then p
    else
      var face := ctx.news[i];
      match Resolve(ctx.existing, ctx.labels[i])
      case Unresolvable => p.(stopped := Some(i))
      case Mint =>
        var t := InsertFaceRow(p.tables, face.encoding, UnnamedLabel(p.counter));
        Progress(LinkIfFound(t, face.fileHash, t.faceSeq), p.counter + 1, None)
      case Reuse(faceId) =>
        p.(tables := LinkIfFound(p.tables, face.fileHash, faceId))
  }

  /** The loop after its first n iterations. */
  function AssignUpTo(ctx: PassContext, start: Progress, n: nat): Progress
    requires n <= PairCount(ctx)
  {
    if n == 0 then start else Step(ctx, AssignUpTo(ctx, start, n - 1), n - 1)
  }

  /** The assignment loop over all paired faces, from the stored faces and the labels DBSCAN gave. */
  function AssignPhase(t: Tables, news: seq<NewFace>, labels: seq<int>): (PassOutcome, Tables)
  {
    var ctx := PassContext(t.faces, news, PySuffix(labels, |t.faces|));
    var p := AssignUpTo(ctx, Progress(t, FirstUnnamedNumber(t.faces), None), PairCount(ctx));
    (if p.stopped.Some? then AbortedAt(p.stopped.value) else Finished, p.tables)
  }

  /** The try block: clustering runs only when some face was found, and its labels drive the loop. */
  function ClusterPhase(t: Tables, news: seq<NewFace>, cluster: seq<Encoding> -> Clustering): (PassOutcome, Tables)
  {
    if news == [] then (NoFacesDetected, t)
    else match cluster(StoredEncodings(t.faces) + EncodingsOf(news))
      case ClusteringRaised => (ClusteringFailed, t)
      case NoLabels => (LabelsMissing, t)
      case Labels(labels) => AssignPhase(t, news, labels)
  }

  /** process_photos on the given tables: the outcome and the tables afterwards. */
  function Pass(t: Tables, connected: bool, sources: seq<PhotoSource>,
                detect: string -> Option<seq<Encoding>>, cluster: seq<Encoding> -> Clustering): (PassOutcome, Tables)
  {
    if !connected then (Propagated, t)
    else match FacesOf(sources, detect)
      case None => (Propagated, t)
      case Some(news) => ClusterPhase(t, news, cluster)
  }

  // ---------------------------------------------------------------------------
  // The pass as a method on the database

  /** The loop over all_faces: the stored encodings, the stored labels and face_id_map. */
  method LoadStoredFaces(stored: seq<FaceRow>)
    returns (existingEncodings: seq<Encoding>, existingLabels: seq<string>, faceIdMap: map<string, nat>)
    ensures existingEncodings == StoredEncodings(stored)
    ensures existingLabels == StoredLabels(stored)
    ensures faceIdMap == FaceIdMap(stored)
  {
    existingEncodings, existingLabels, faceIdMap := [], [], map[];
    var k := 0;
    while k < |stored|
      invariant 0 <= k <= |stored|
      invariant existingEncodings == StoredEncodings(stored[..k])
      invariant existingLabels == StoredLabels(stored[..k])
      invariant faceIdMap == FaceIdMap(stored[..k])
    {
      StoredRowsGrow(stored, k);
      existingEncodings := existingEncodings + [stored[k].faceHash];
      existingLabels := existingLabels + [stored[k].faceLabel];
      faceIdMap := faceIdMap[stored[k].faceLabel := stored[k].faceId];
      k := k + 1;
    }
    assert stored[..k] == stored;
  }

  /** Reading one more stored face appends its encoding and label and maps its label to its id. */
  lemma StoredRowsGrow(rows: seq<FaceRow>, k: nat)
    requires k < |rows|
    ensures StoredEncodings(rows[..k + 1]) == StoredEncodings(rows[..k]) + [rows[k].faceHash]
    ensures StoredLabels(rows[..k + 1]) == StoredLabels(rows[..k]) + [rows[k].faceLabel]
    ensures FaceIdMap(rows[..k + 1]) == FaceIdMap(rows[..k])[rows[k].faceLabel := rows[k].faceId]
  {
    var longer := rows[..k + 1];
    assert longer[..k] == rows[..k];
    assert longer[k] == rows[k];
  }

  /**
   * The loop over photo_source: the three parallel lists, or `raised` when
   * detection raises on some photo.
   */
  method FlattenFaces(sources: seq<PhotoSource>, detect: string -> Option<seq<Encoding>>)
    returns (raised: bool, encodings: seq<Encoding>, photoPaths: seq<string>, fileHashes: seq<string>)
    ensures raised <==> FacesOf(sources, detect).None?
    ensures !raised ==> var news := FacesOf(sources, detect).value;
      encodings == EncodingsOf(news) && photoPaths == PathsOf(news) && fileHashes == HashesOf(news)
  {
    encodings, photoPaths, fileHashes := [], [], [];
    ghost var news: seq<NewFace> := [];
    var i := 0;
    while i < |sources|
      invariant 0 <= i <= |sources|
      invariant FacesOf(sources[..i], detect) == Some(news)
      invariant encodings == EncodingsOf(news) && photoPaths == PathsOf(news) && fileHashes == HashesOf(news)
    {
      var source := sources[i];
      var found := detect(source.path);
      assert sources[..i + 1][..i] == sources[..i];
      if found.None? {
        FacesOfFails(sources[..i + 1], detect);
        FacesOfFails(sources, detect);
        assert sources[..i + 1][i] == sources[i];
        return true, encodings, photoPaths, fileHashes;
      }
      var faceEncodings := found.value;
      ghost var added := FacesOfPhoto(source, faceEncodings);
      if |faceEncodings| > 0 {
        encodings := encodings + faceEncodings;
        photoPaths := photoPaths + seq(|faceEncodings|, _ => source.path);
        fileHashes := fileHashes + seq(|faceEncodings|, _ => source.fileHash);
      }
      news := news + added;
      i := i + 1;
    }
    assert sources[..i] == sources;
    raised := false;
  }

  /** existing_labels and face_id_map, as built from the stored faces. */
  ghost predicate StoredLists(existing: seq<FaceRow>, existingLabels: seq<string>, faceIdMap: map<string, nat>)
  {
    existingLabels == StoredLabels(existing) && faceIdMap == FaceIdMap(existing)
  }

  /** encodings and file_hashes, as flattened from the new faces. */
  ghost predicate NewLists(news: seq<NewFace>, encodings: seq<Encoding>, fileHashes: seq<string>)
  {
    encodings == EncodingsOf(news) && fileHashes == HashesOf(news)
  }

  /** The lists the assignment loop reads. */
  ghost predicate LoopInputs(ctx: PassContext, encodings: seq<Encoding>, fileHashes: seq<string>, newLabels: seq<int>,
                             existingLabels: seq<string>, faceIdMap: map<string, nat>)
  {
    StoredLists(ctx.existing, existingLabels, faceIdMap) && NewLists(ctx.news, encodings, fileHashes) && newLabels == ctx.labels
  }

  /**
   * The body of the assignment loop for new face j: mint or resolve its
   * FaceID, then link it to its photo if the photo is found; `raised` when
   * indexing the stored labels raises.
   */
  method HandleNewFace(db: PhotoDatabase, ghost ctx: PassContext, ghost start: Progress, j: nat,
                       encodings: seq<Encoding>, fileHashes: seq<string>, newLabels: seq<int>,
                       existingLabels: seq<string>, faceIdMap: map<string, nat>, unnamedCounter: nat)
    returns (counter: nat, raised: bool)
    requires db.connected && WellFormed(start.tables)
    requires LoopInputs(ctx, encodings, fileHashes, newLabels, existingLabels, faceIdMap)
    requires j < PairCount(ctx)
    requires AssignUpTo(ctx, start, j) == Progress(db.State(), unnamedCounter, None)
    modifies db
    ensures db.connected
    ensures AssignUpTo(ctx, start, j + 1) == Progress(db.State(), counter, if raised then Some(j) else None)
  {
    AssignNext(ctx, start, j + 1);
    AssignKeepsWellFormed(ctx, start, j);
    counter, raised := unnamedCounter, false;
    var clusterLabel, encoding, fileHash := newLabels[j], encodings[j], fileHashes[j];
    var faceId: int;
    if clusterLabel == -1 {
      var faceLabel := UnnamedLabel(unnamedCounter);
      var minted := db.AddFaceInfo(encoding, faceLabel);
      faceId := if minted.Some? then minted.value else 0;
      counter := unnamedCounter + 1;
    } else if -|existingLabels| <= clusterLabel < |existingLabels| {
      var faceLabel := existingLabels[if clusterLabel < 0 then |existingLabels| + clusterLabel else clusterLabel];
      faceId := faceIdMap[faceLabel];
    } else {
      return counter, true;
    }
    var photoInfo := db.QueryPhotoInfoByHash(Basename(fileHash));
    if photoInfo.Some? {
      db.LinkFaceToPhoto(photoInfo.value.photoId, faceId);
    }
  }

  /** The assignment loop over zip(photo_paths, encodings, labels[len(existing):], file_hashes). */
  method AssignFaces(db: PhotoDatabase, ghost ctx: PassContext, ghost start: Progress,
                     encodings: seq<Encoding>, fileHashes: seq<string>, newLabels: seq<int>,
                     existingLabels: seq<string>, faceIdMap: map<string, nat>, unnamedCounter: nat)
    returns (outcome: PassOutcome)
    requires db.connected && WellFormed(start.tables)
    requires LoopInputs(ctx, encodings, fileHashes, newLabels, existingLabels, faceIdMap)
    requires start == Progress(db.State(), unnamedCounter, None)
    modifies db
    ensures db.connected
    ensures var p := AssignUpTo(ctx, start, PairCount(ctx));
      (outcome, db.State()) == (if p.stopped.Some? then AbortedAt(p.stopped.value) else Finished, p.tables)
  {
    var count := if |encodings| <= |newLabels| then |encodings| else |newLabels|;
    var counter := unnamedCounter;
    var j := 0;
    while j < count
      invariant 0 <= j <= count == PairCount(ctx)
      invariant db.connected
      invariant AssignUpTo(ctx, start, j) == Progress(db.State(), counter, None)
    {
      var raised;
      counter, raised := HandleNewFace(db, ctx, start, j, encodings, fileHashes, newLabels,
                                       existingLabels, faceIdMap, counter);
      if raised {
        StopPersists(ctx, start, j + 1, count);
        return AbortedAt(j);
      }
      j := j + 1;
      assert AssignUpTo(ctx, start, j) == Progress(db.State(), counter, None);
    }
    return Finished;
  }

  /** The try block of process_photos: DBSCAN over all encodings, then the assignment loop. */
  method ClusterAndAssign(db: PhotoDatabase, ghost news: seq<NewFace>, cluster: seq<Encoding> -> Clustering,
                          existingEncodings: seq<Encoding>, existingLabels: seq<string>, faceIdMap: map<string, nat>,
                          unnamedCounter: nat, encodings: seq<Encoding>, fileHashes: seq<string>)
    returns (outcome: PassOutcome)
    requires db.Valid() && db.connected
    requires existingEncodings == StoredEncodings(db.faces) && unnamedCounter == FirstUnnamedNumber(db.faces)
    requires StoredLists(db.faces, existingLabels, faceIdMap) && NewLists(news, encodings, fileHashes)
    modifies db
    ensures db.Valid() && db.connected
    ensures (outcome, db.State()) == ClusterPhase(old(db.State()), news, cluster)
  {
    var allEncodings := existingEncodings + encodings;
    if |encodings| == 0 {
      return NoFacesDetected;
    }
    var clustering := cluster(allEncodings);
    if clustering.ClusteringRaised? {
      return ClusteringFailed;
    }
    if clustering.NoLabels? {
      return LabelsMissing;
    }
    var newLabels := PySuffix(clustering.labels, |existingEncodings|);
    ghost var ctx := PassContext(db.faces, news, newLabels);
    ghost var start := Progress(db.State(), unnamedCounter, None);
    outcome := AssignFaces(db, ctx, start, encodings, fileHashes, newLabels, existingLabels, faceIdMap, unnamedCounter);
    AssignKeepsWellFormed(ctx, start, PairCount(ctx));
  }

  /** process_photos(photo_source, db_processor), proved equal to `Pass`. */
  method ProcessPhotos(sources: seq<PhotoSource>, db: PhotoDatabase,
                       detect: string -> Option<seq<Encoding>>, cluster: seq<Encoding> -> Clustering)
    returns (outcome: PassOutcome)
    requires db.Valid()
    modifies db
    ensures db.Valid() && db.connected == old(db.connected)
    ensures (outcome, db.State()) == Pass(old(db.State()), old(db.connected), sources, detect, cluster)
  {
    var allFaces := db.QueryAllFaces();
    if allFaces.None? {
      return Propagated;
    }
    var stored := allFaces.value;
    var existingEncodings, existingLabels, faceIdMap := LoadStoredFaces(stored);
    var maxFaceId := db.GetMaxFaceId();
    var unnamedCounter: nat := if maxFaceId.Some? then maxFaceId.value + 1 else 1;

    var raised, encodings, photoPaths, fileHashes := FlattenFaces(sources, detect);
    if raised {
      return Propagated;
    }
    ghost var news := FacesOf(sources, detect).value;
    outcome := ClusterAndAssign(db, news, cluster, existingEncodings, existingLabels, faceIdMap,
                                unnamedCounter, encodings, fileHashes);
  }

  // ---------------------------------------------------------------------------
  // Properties of the assignment loop

  /** One more iteration of the loop. */
  lemma AssignNext(ctx: PassContext, start: Progress, n: nat)
    requires 0 < n <= PairCount(ctx)
    ensures AssignUpTo(ctx, start, n) == Step(ctx, AssignUpTo(ctx, start, n - 1), n - 1)
  {
  }

  /** Once the loop has stopped, later iterations change nothing. */
  lemma {:induction false} StopPersists(ctx: PassContext, start: Progress, n: nat, m: nat)
    requires n <= m <= PairCount(ctx)
    requires AssignUpTo(ctx, start, n).stopped.Some?
    ensures AssignUpTo(ctx, start, m) == AssignUpTo(ctx, start, n)
    decreases m
  {
    if m > n {
      StopPersists(ctx, start, n, m - 1);
    }
  }

  /** How the tables and the counter have grown since the start of the loop. */
  ghost predicate Grown(start: Progress, p: Progress)
  {
    var s := start.tables;
    var t := p.tables;
    && t.photos == s.photos && t.photoSeq == s.photoSeq
    && |s.faces| <= |t.faces| && t.faces[..|s.faces|] == s.faces
    && |s.links| <= |t.links| && t.links[..|s.links|] == s.links
    && p.counter == start.counter + (|t.faces| - |s.faces|)
    && t.faceSeq == s.faceSeq + (|t.faces| - |s.faces|)
    && NumberedRows(t.faces[|s.faces|..], s.faceSeq + 1, start.counter)
  }

  /** Row k of `rows` has the id firstId + k and the label numbered number + k. */
  ghost predicate NumberedRows(rows: seq<FaceRow>, firstId: nat, number: nat)
    decreases |rows|
  {
    || rows == []
    || (&& rows[0].faceId == firstId && rows[0].faceLabel == UnnamedLabel(number)
        && NumberedRows(rows[1..], firstId + 1, number + 1))
  }

  /** Appending the row that comes next in the numbering keeps the rows numbered. */
  lemma {:induction false} NumberedRowsAppend(rows: seq<FaceRow>, firstId: nat, number: nat, r: FaceRow)
    requires NumberedRows(rows, firstId, number)
    requires r.faceId == firstId + |rows| && r.faceLabel == UnnamedLabel(number + |rows|)
    ensures NumberedRows(rows + [r], firstId, number)
    decreases |rows|
  {
    if rows != [] {
      assert (rows + [r])[1..] == rows[1..] + [r];
      NumberedRowsAppend(rows[1..], firstId + 1, number + 1, r);
    }
  }

  /** The id and the label of each numbered row. */
  lemma {:induction false} NumberedRowsAt(rows: seq<FaceRow>, firstId: nat, number: nat, j: nat)
    requires NumberedRows(rows, firstId, number) && j < |rows|
    ensures rows[j].faceId == firstId + j && rows[j].faceLabel == UnnamedLabel(number + j)
  {
    if j > 0 {
      NumberedRowsAt(rows[1..], firstId + 1, number + 1, j - 1);
    }
  }

  lemma StepGrown(ctx: PassContext, start: Progress, p: Progress, i: nat)
    requires i < PairCount(ctx)
    requires Grown(start, p)
    ensures Grown(start, Step(ctx, p, i))
  {
    var q := Step(ctx, p, i);
    var s := start.tables;
    ResolveCases(ctx.existing, ctx.labels[i]);
    if p.stopped.None? && ctx.labels[i] == -1 {
      MintWritesARow(ctx, p, i);
      var row := q.tables.faces[|p.tables.faces|];
      assert q.tables.faces[..|s.faces|] == p.tables.faces[..|s.faces|];
      assert q.tables.links[..|s.links|] == p.tables.links[..|s.links|];
      assert q.tables.faces[|s.faces|..] == p.tables.faces[|s.faces|..] + [row];
      NumberedRowsAppend(p.tables.faces[|s.faces|..], s.faceSeq + 1, start.counter, row);
    } else if p.stopped.None? && Resolve(ctx.existing, ctx.labels[i]).Reuse? {
      ReuseWritesOnlyALink(ctx, p, i);
      assert q.tables.links[..|s.links|] == p.tables.links[..|s.links|];
    }
  }

  /**
   * Rows written by the loop are only added: photos are untouched, the old
   * faces and links stay as a prefix, and the k-th face minted gets the next
   * AUTOINCREMENT id and the label numbered counter + k.
   */
  lemma {:induction false} AssignGrown(ctx: PassContext, start: Progress, n: nat)
    requires n <= PairCount(ctx)
    ensures Grown(start, AssignUpTo(ctx, start, n))
  {
    if n > 0 {
      AssignGrown(ctx, start, n - 1);
      StepGrown(ctx, start, AssignUpTo(ctx, start, n - 1), n - 1);
      AssignNext(ctx, start, n);
    }
  }

  /** The number of noise labels among the first k labels. */
  function NoiseCount(labels: seq<int>, k: nat): nat
  {
    if k == 0 then 0
    else NoiseCount(labels, k - 1) + (if k - 1 < |labels| && labels[k - 1] == -1 then 1 else 0)
  }

  /** What one iteration does to the stop index and the counter. */
  lemma StepCounts(ctx: PassContext, p: Progress, i: nat)
    requires i < PairCount(ctx)
    ensures Step(ctx, p, i).stopped ==
      if p.stopped.Some? then p.stopped else if Raises(ctx.existing, ctx.labels[i]) then Some(i) else None
    ensures Step(ctx, p, i).counter == p.counter + if p.stopped.None? && ctx.labels[i] == -1 then 1 else 0
  {
    ResolveCases(ctx.existing, ctx.labels[i]);
  }

  /** What iteration n does to the stop index and the counter, stated on the loop's progress. */
  lemma AssignNextCounts(ctx: PassContext, start: Progress, n: nat)
    requires 0 < n <= PairCount(ctx)
    ensures var p := AssignUpTo(ctx, start, n - 1);
      && AssignUpTo(ctx, start, n).stopped ==
           (if p.stopped.Some? then p.stopped else if Raises(ctx.existing, ctx.labels[n - 1]) then Some(n - 1) else None)
      && AssignUpTo(ctx, start, n).counter == p.counter + if p.stopped.None? && ctx.labels[n - 1] == -1 then 1 else 0
  {
    StepCounts(ctx, AssignUpTo(ctx, start, n - 1), n - 1);
  }

  /** The index of the first of the first n labels that raises, if any. */
  function FirstRaise(existing: seq<FaceRow>, labels: seq<int>, n: nat): Option<nat>
    requires n <= |labels|
  {
    if n == 0 then None
    else match FirstRaise(existing, labels, n - 1)
      case Some(k) => Some(k)
      case None => if Raises(existing, labels[n - 1]) then Some(n - 1) else None
  }

  /** FirstRaise finds nothing exactly when no label raises, and otherwise a raising label with none before it. */
  lemma {:induction false} FirstRaiseIsFirst(existing: seq<FaceRow>, labels: seq<int>, n: nat)
    requires n <= |labels|
    ensures var r := FirstRaise(existing, labels, n);
      && (r.None? <==> forall k :: 0 <= k < n ==> !Raises(existing, labels[k]))
      && (r.Some? ==>
            r.value < n && Raises(existing, labels[r.value]) &&
            forall k :: 0 <= k < r.value ==> !Raises(existing, labels[k]))
  {
    if n > 0 {
      FirstRaiseIsFirst(existing, labels, n - 1);
    }
  }

  /** The loop stops at the first label that raises and only there. */
  lemma {:induction false} AssignStops(ctx: PassContext, start: Progress, n: nat)
    requires n <= PairCount(ctx)
    requires start.stopped.None?
    ensures AssignUpTo(ctx, start, n).stopped == FirstRaise(ctx.existing, ctx.labels, n)
  {
    if n > 0 {
      AssignStops(ctx, start, n - 1);
      AssignNextCounts(ctx, start, n);
    }
  }

  /** The number of faces the loop mints in its first n iterations: the noise labels met before any label raises. */
  function Minted(existing: seq<FaceRow>, labels: seq<int>, n: nat): nat
    requires n <= |labels|
  {
    if n == 0 then 0
    else
      var minted := if FirstRaise(existing, labels, n - 1).None? && labels[n - 1] == -1 then 1 else 0;
      Minted(existing, labels, n - 1) + minted
  }

  /** unnamed_counter grows by one per face minted. */
  lemma {:induction false} AssignCounts(ctx: PassContext, start: Progress, n: nat)
    requires n <= PairCount(ctx)
    requires start.stopped.None?
    ensures AssignUpTo(ctx, start, n).counter == start.counter + Minted(ctx.existing, ctx.labels, n)
  {
    if n > 0 {
      AssignCounts(ctx, start, n - 1);
      AssignStops(ctx, start, n - 1);
      AssignNextCounts(ctx, start, n);
    }
  }

  /** The faces minted are exactly the noise labels among the faces handled, those before the first label that raises. */
  lemma {:induction false} MintedCountsNoise(existing: seq<FaceRow>, labels: seq<int>, n: nat)
    requires n <= |labels|
    ensures Minted(existing, labels, n) ==
      NoiseCount(labels, match FirstRaise(existing, labels, n) case Some(k) => k case None => n)
  {
    if n > 0 {
      MintedCountsNoise(existing, labels, n - 1);
      FirstRaiseIsFirst(existing, labels, n - 1);
    }
  }

  /** Tables grown by appending faces with the next AUTOINCREMENT ids stay well formed. */
  lemma GrownKeepsWellFormed(start: Progress, p: Progress)
    requires WellFormed(start.tables) && Grown(start, p)
    ensures WellFormed(p.tables)
  {
    var s := start.tables;
    var t := p.tables;
    var k := |s.faces|;
    forall i | 0 <= i < |t.faces| ensures t.faces[i].faceId == if i < k then s.faces[i].faceId else s.faceSeq + 1 + (i - k) {
      if i < k {
        assert t.faces[..k][i] == t.faces[i];
      } else {
        NumberedRowsAt(t.faces[k..], s.faceSeq + 1, start.counter, i - k);
      }
    }
  }

  /** The loop keeps the tables well formed. */
  lemma AssignKeepsWellFormed(ctx: PassContext, start: Progress, n: nat)
    requires n <= PairCount(ctx)
    requires WellFormed(start.tables)
    ensures WellFormed(AssignUpTo(ctx, start, n).tables)
  {
    AssignGrown(ctx, start, n);
    GrownKeepsWellFormed(start, AssignUpTo(ctx, start, n));
  }

  /** Every row of PhotoInfoTable whose id a row of links names, and every row of Faces likewise. */
  ghost predicate LinkResolves(t: Tables, l: LinkRow)
  {
    && (exists a :: 0 <= a < |t.photos| && t.photos[a].photoId == l.photoId)
    && (exists b :: 0 <= b < |t.faces| && t.faces[b].faceId == l.faceId)
  }

  /** Every link in `links` resolves in `t`. */
  ghost predicate LinksResolve(t: Tables, links: seq<LinkRow>)
    decreases |links|
  {
    links == [] || (LinkResolves(t, links[0]) && LinksResolve(t, links[1..]))
  }

  /** Every link added since `start` resolves in `t`. */
  ghost predicate NewLinksResolve(start: Tables, t: Tables)
  {
    |start.links| <= |t.links| && LinksResolve(t, t.links[|start.links|..])
  }

  /** Links that resolve keep resolving once faces are appended, the photos staying as they are. */
  lemma {:induction false} LinksStillResolve(p: Tables, q: Tables, links: seq<LinkRow>)
    requires q.photos == p.photos && |p.faces| <= |q.faces| && q.faces[..|p.faces|] == p.faces
    requires LinksResolve(p, links)
    ensures LinksResolve(q, links)
    decreases |links|
  {
    if links != [] {
      var b :| 0 <= b < |p.faces| && p.faces[b].faceId == links[0].faceId;
      assert q.faces[..|p.faces|][b] == q.faces[b];
      LinksStillResolve(p, q, links[1..]);
    }
  }

  /** One more resolving link keeps the list resolving. */
  lemma {:induction false} LinksResolveAppend(t: Tables, links: seq<LinkRow>, l: LinkRow)
    requires LinksResolve(t, links) && LinkResolves(t, l)
    ensures LinksResolve(t, links + [l])
    decreases |links|
  {
    if links != [] {
      assert (links + [l])[1..] == links[1..] + [l];
      LinksResolveAppend(t, links[1..], l);
    }
  }

  /** Each link of a resolving list resolves. */
  lemma {:induction false} LinksResolveAt(t: Tables, links: seq<LinkRow>, j: nat)
    requires LinksResolve(t, links) && j < |links|
    ensures LinkResolves(t, links[j])
  {
    if j > 0 {
      LinksResolveAt(t, links[1..], j - 1);
    }
  }

  lemma StepLinksResolve(ctx: PassContext, start: Progress, p: Progress, i: nat)
    requires i < PairCount(ctx)
    requires ctx.existing == start.tables.faces
    ensures (&& |start.tables.faces| <= |p.tables.faces| && p.tables.faces[..|start.tables.faces|] == start.tables.faces
             && NewLinksResolve(start.tables, p.tables))
            ==> NewLinksResolve(start.tables, Step(ctx, p, i).tables)
  {
    if !(&& |start.tables.faces| <= |p.tables.faces| && p.tables.faces[..|start.tables.faces|] == start.tables.faces
         && NewLinksResolve(start.tables, p.tables)) {
      return;
    }
    var q := Step(ctx, p, i);
    ResolveCases(ctx.existing, ctx.labels[i]);
    if p.stopped.None? && ctx.labels[i] == -1 {
      MintWritesARow(ctx, p, i);
      AddedLinkResolves(start.tables, p.tables, q.tables, ctx.news[i].fileHash, |q.tables.faces| - 1);
    } else if p.stopped.None? && Resolve(ctx.existing, ctx.labels[i]).Reuse? {
      ReuseWritesOnlyALink(ctx, p, i);
      var b :| 0 <= b < |ctx.existing| && ctx.existing[b].faceId == Resolve(ctx.existing, ctx.labels[i]).faceId;
      assert p.tables.faces[..|start.tables.faces|][b] == p.tables.faces[b];
      AddedLinkResolves(start.tables, p.tables, q.tables, ctx.news[i].fileHash, b);
    }
  }

  /**
   * Tables that keep every row of `p`, and add at most the link from the photo
   * found by `fileHash` to the face in row b, keep every new link resolving.
   */
  lemma AddedLinkResolves(s: Tables, p: Tables, q: Tables, fileHash: string, b: nat)
    requires NewLinksResolve(s, p)
    requires q.photos == p.photos && |p.faces| <= |q.faces| && q.faces[..|p.faces|] == p.faces
    requires b < |q.faces|
    requires q.links == p.links + match FirstByHash(p.photos, Basename(fileHash))
      case None => []
      case Some(r) => [LinkRow(r.photoId, q.faces[b].faceId)]
    ensures NewLinksResolve(s, q)
  {
    var k := |s.links|;
    LinksStillResolve(p, q, p.links[k..]);
    match FirstByHash(p.photos, Basename(fileHash))
    case None =>
      assert q.links[k..] == p.links[k..];
    case Some(r) =>
      FirstByHashIsFirstMatch(p.photos, Basename(fileHash));
      var l := LinkRow(r.photoId, q.faces[b].faceId);
      assert LinkResolves(q, l);
      LinksResolveAppend(q, p.links[k..], l);
      assert q.links[k..] == p.links[k..] + [l];
  }

  /** No link the loop writes dangles: its PhotoID and its FaceID are ids of rows present afterwards. */
  lemma {:induction false} AssignLinksResolve(ctx: PassContext, start: Progress, n: nat)
    requires n <= PairCount(ctx)
    requires ctx.existing == start.tables.faces
    ensures NewLinksResolve(start.tables, AssignUpTo(ctx, start, n).tables)
  {
    if n > 0 {
      AssignLinksResolve(ctx, start, n - 1);
      AssignGrown(ctx, start, n - 1);
      StepLinksResolve(ctx, start, AssignUpTo(ctx, start, n - 1), n - 1);
      AssignNext(ctx, start, n);
    }
  }

  /**
   * A noise face inserts one Faces row, with the next AUTOINCREMENT id and the
   * label numbered by unnamed_counter, and links it only when its photo is found.
   */
  lemma MintWritesARow(ctx: PassContext, p: Progress, i: nat)
    requires i < PairCount(ctx)
    requires p.stopped.None? && ctx.labels[i] == -1
    ensures var q := Step(ctx, p, i);
      var id := p.tables.faceSeq + 1;
      && q.stopped.None? && q.counter == p.counter + 1
      && q.tables.faces == p.tables.faces + [FaceRow(id, ctx.news[i].encoding, UnnamedLabel(p.counter))]
      && q.tables.faceSeq == id
      && q.tables.photos == p.tables.photos && q.tables.photoSeq == p.tables.photoSeq
      && q.tables.links == p.tables.links + match FirstByHash(p.tables.photos, Basename(ctx.news[i].fileHash))
           case None => []
           case Some(r) => [LinkRow(r.photoId, id)]
  {
  }

  /** A face whose label resolves to a stored face never creates or changes a Faces row, and adds a link only when its photo is found. */
  lemma ReuseWritesOnlyALink(ctx: PassContext, p: Progress, i: nat)
    requires i < PairCount(ctx)
    requires p.stopped.None? && Resolve(ctx.existing, ctx.labels[i]).Reuse?
    ensures var q := Step(ctx, p, i);
      && q.tables.faces == p.tables.faces && q.tables.faceSeq == p.tables.faceSeq && q.counter == p.counter
      && (FirstByHash(p.tables.photos, Basename(ctx.news[i].fileHash)).None? ==> q.tables == p.tables)
      && (FirstByHash(p.tables.photos, Basename(ctx.news[i].fileHash)).Some? ==>
            q.tables.links == p.tables.links +
              [LinkRow(FirstByHash(p.tables.photos, Basename(ctx.news[i].fileHash)).value.photoId,
                       Resolve(ctx.existing, ctx.labels[i]).faceId)])
  {
  }

  // ---------------------------------------------------------------------------
  // Properties of the whole pass

  /** Without any new face the pass writes nothing. */
  lemma NoNewFacesNoWrites(t: Tables, connected: bool, sources: seq<PhotoSource>,
                           detect: string -> Option<seq<Encoding>>, cluster: seq<Encoding> -> Clustering)
    requires FacesOf(sources, detect) == Some([])
    ensures Pass(t, connected, sources, detect, cluster).1 == t
    ensures connected ==> Pass(t, connected, sources, detect, cluster).0 == NoFacesDetected
  {
  }

  /**
   * Rows are only added: photos stay, the stored faces and links stay in
   * front, the faces added are numbered on from FirstUnnamedNumber in
   * insertion order with fresh ids, every link added resolves, and the tables
   * stay well formed.
   */
  ghost predicate OnlyAdds(t: Tables, t': Tables)
  {
    && WellFormed(t')
    && t'.photos == t.photos
    && |t.faces| <= |t'.faces| && t'.faces[..|t.faces|] == t.faces
    && |t.links| <= |t'.links| && t'.links[..|t.links|] == t.links
    && NumberedRows(t'.faces[|t.faces|..], t.faceSeq + 1, FirstUnnamedNumber(t.faces))
    && NewLinksResolve(t, t')
  }

  /** The assignment loop only adds rows. */
  lemma AssignPhaseShape(t: Tables, news: seq<NewFace>, labels: seq<int>)
    requires WellFormed(t)
    ensures OnlyAdds(t, AssignPhase(t, news, labels).1)
  {
    var ctx := PassContext(t.faces, news, PySuffix(labels, |t.faces|));
    var start := Progress(t, FirstUnnamedNumber(t.faces), None);
    AssignGrown(ctx, start, PairCount(ctx));
    AssignKeepsWellFormed(ctx, start, PairCount(ctx));
    AssignLinksResolve(ctx, start, PairCount(ctx));
  }

  /** Whatever the outcome, the pass only adds rows. */
  lemma PassShape(t: Tables, connected: bool, sources: seq<PhotoSource>,
                  detect: string -> Option<seq<Encoding>>, cluster: seq<Encoding> -> Clustering)
    requires WellFormed(t)
    ensures OnlyAdds(t, Pass(t, connected, sources, detect, cluster).1)
  {
    if connected && FacesOf(sources, detect).Some? && FacesOf(sources, detect).value != [] {
      var news := FacesOf(sources, detect).value;
      match cluster(StoredEncodings(t.faces) + EncodingsOf(news))
      case Labels(labels) =>
        AssignPhaseShape(t, news, labels);
      case _ =>
    }
  }

  /** Numbered rows carry distinct labels and increasing ids. */
  lemma MintedRowsDistinct(rows: seq<FaceRow>, firstId: nat, firstNumber: nat, m1: nat, m2: nat)
    requires m1 < m2 < |rows|
    requires NumberedRows(rows, firstId, firstNumber)
    ensures rows[m1].faceLabel != rows[m2].faceLabel && rows[m1].faceId < rows[m2].faceId
  {
    NumberedRowsAt(rows, firstId, firstNumber, m1);
    NumberedRowsAt(rows, firstId, firstNumber, m2);
    if rows[m1].faceLabel == rows[m2].faceLabel {
      UnnamedLabelInjective(firstNumber + m1, firstNumber + m2);
    }
  }

  /** The labels minted in one pass are pairwise distinct, and their ids strictly increase. */
  lemma PassMintsDistinctLabels(t: Tables, connected: bool, sources: seq<PhotoSource>,
                                detect: string -> Option<seq<Encoding>>, cluster: seq<Encoding> -> Clustering,
                                m1: nat, m2: nat)
    requires WellFormed(t)
    requires |t.faces| <= m1 < m2 < |Pass(t, connected, sources, detect, cluster).1.faces|
    ensures var f := Pass(t, connected, sources, detect, cluster).1.faces;
      f[m1].faceLabel != f[m2].faceLabel && f[m1].faceId < f[m2].faceId
  {
    PassShape(t, connected, sources, detect, cluster);
    AddedRowsDistinct(t, Pass(t, connected, sources, detect, cluster).1, m1, m2);
  }

  /** Two rows added after the stored faces carry different labels and increasing ids. */
  lemma AddedRowsDistinct(t: Tables, t': Tables, m1: nat, m2: nat)
    requires |t.faces| <= m1 < m2 < |t'.faces|
    requires NumberedRows(t'.faces[|t.faces|..], t.faceSeq + 1, FirstUnnamedNumber(t.faces))
    ensures t'.faces[m1].faceLabel != t'.faces[m2].faceLabel && t'.faces[m1].faceId < t'.faces[m2].faceId
  {
    var k := |t.faces|;
    MintedRowsDistinct(t'.faces[k..], t.faceSeq + 1, FirstUnnamedNumber(t.faces), m1 - k, m2 - k);
    assert t'.faces[m1] == t'.faces[k..][m1 - k] && t'.faces[m2] == t'.faces[k..][m2 - k];
  }

  /**
   * The pass aborts exactly when some paired label neither is noise nor
   * indexes the stored faces, and then at the first such face; a face minted
   * before the abort stays.
   */
  lemma PassAbortsAtFirstUnresolvable(t: Tables, sources: seq<PhotoSource>,
                                      detect: string -> Option<seq<Encoding>>, cluster: seq<Encoding> -> Clustering,
                                      news: seq<NewFace>, labels: seq<int>)
    requires FacesOf(sources, detect) == Some(news) && news != []
    requires cluster(StoredEncodings(t.faces) + EncodingsOf(news)) == Labels(labels)
    ensures var ctx := PassContext(t.faces, news, PySuffix(labels, |t.faces|));
      var outcome := Pass(t, true, sources, detect, cluster).0;
      && (outcome.AbortedAt? <==> exists k :: 0 <= k < PairCount(ctx) && Raises(t.faces, ctx.labels[k]))
      && (outcome.AbortedAt? ==>
            outcome.index < PairCount(ctx) && Raises(t.faces, ctx.labels[outcome.index]) &&
            forall k :: 0 <= k < outcome.index ==> !Raises(t.faces, ctx.labels[k]))
      && (outcome.AbortedAt? || outcome == Finished)
  {
    var ctx := PassContext(t.faces, news, PySuffix(labels, |t.faces|));
    AssignStops(ctx, Progress(t, FirstUnnamedNumber(t.faces), None), PairCount(ctx));
    FirstRaiseIsFirst(t.faces, ctx.labels, PairCount(ctx));
  }

  /** The pass mints exactly one face per noise label among the new faces it handled. */
  lemma PassMintsOnePerNoiseLabel(t: Tables, sources: seq<PhotoSource>,
                                  detect: string -> Option<seq<Encoding>>, cluster: seq<Encoding> -> Clustering,
                                  news: seq<NewFace>, labels: seq<int>)
    requires FacesOf(sources, detect) == Some(news) && news != []
    requires cluster(StoredEncodings(t.faces) + EncodingsOf(news)) == Labels(labels)
    ensures var ctx := PassContext(t.faces, news, PySuffix(labels, |t.faces|));
      var (outcome, t') := Pass(t, true, sources, detect, cluster);
      var handled := if outcome.AbortedAt? then outcome.index else PairCount(ctx);
      |t'.faces| == |t.faces| + NoiseCount(ctx.labels, handled)
  {
    var ctx := PassContext(t.faces, news, PySuffix(labels, |t.faces|));
    var start := Progress(t, FirstUnnamedNumber(t.faces), None);
    AssignCounts(ctx, start, PairCount(ctx));
    AssignStops(ctx, start, PairCount(ctx));
    MintedCountsNoise(t.faces, ctx.labels, PairCount(ctx));
    AssignGrown(ctx, start, PairCount(ctx));
  }
}
