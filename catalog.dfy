/**
 * The photo catalog (DBprocess.py): the three tables the face pipeline uses,
 * PhotoInfoTable, Faces and PhotoFaceLink, held in memory as sequences of
 * rows in rowid order, with the AUTOINCREMENT counters of the two tables that
 * have one.  Every operation goes through `ExecuteQuery`, which interprets
 * the handful of SQL statements the program issues (`Run`) and returns None
 * when there is no connection or the statement fails, as execute_query does.
 */
module Catalog {
  import opened Text
  import opened Exif

  /** A face encoding, stored as the FaceHash blob (the raw bytes of its float64 components). */
  datatype Encoding = Encoding(components: seq<real>)

  /** The twelve columns of a PhotoInfoTable row after PhotoID, in declaration order. */
  datatype PhotoInfo = PhotoInfo(
    fileName: string,
    fileSize: int,
    fileFormat: string,
    captureTime: string,
    isCaptureTimeAccurate: int,
    captureLocation: Location,
    cameraModel: string,
    filePath: string,
    thumbnail: string,
    thumbnailPath: string,
    fileHash: string,
    isLandscape: int)

  datatype PhotoRow = PhotoRow(photoId: nat, info: PhotoInfo)
  datatype FaceRow = FaceRow(faceId: nat, faceHash: Encoding, faceLabel: string)
  datatype LinkRow = LinkRow(photoId: int, faceId: int)

  /**
   * The database contents.  `photoSeq` and `faceSeq` are the sqlite_sequence
   * entries of the two AUTOINCREMENT tables (the largest id ever handed out);
   * `lastRowId` is what last_insert_rowid() returns.
   */
  datatype Tables = Tables(
    photos: seq<PhotoRow>,
    faces: seq<FaceRow>,
    links: seq<LinkRow>,
    photoSeq: nat,
    faceSeq: nat,
    lastRowId: nat)

  /** The tables as an empty database file holds them. */
  const EmptyTables := Tables([], [], [], 0, 0, 0)

  /** Ids are positive, strictly increasing in rowid order and never above the AUTOINCREMENT counter. */
  ghost predicate WellFormed(t: Tables)
  {
    && (forall i :: 0 <= i < |t.photos| ==> 1 <= t.photos[i].photoId <= t.photoSeq)
    && PhotoIdsAscending(t.photos)
    && (forall i :: 0 <= i < |t.faces| ==> 1 <= t.faces[i].faceId <= t.faceSeq)
    && (forall i, j :: 0 <= i < j < |t.faces| ==> t.faces[i].faceId < t.faces[j].faceId)
  }

  // ---------------------------------------------------------------------------
  // Row operations behind the statements

  /** INSERT INTO PhotoInfoTable: the new row gets the next AUTOINCREMENT id. */
  function InsertPhotoRow(t: Tables, info: PhotoInfo): Tables
  {
    var id := t.photoSeq + 1;
    t.(photos := t.photos + [PhotoRow(id, info)], photoSeq := id, lastRowId := id)
  }

  /** INSERT INTO Faces (FaceHash, FaceLabel): the new row gets the next AUTOINCREMENT id. */
  function InsertFaceRow(t: Tables, faceHash: Encoding, faceLabel: string): Tables
  {
    var id := t.faceSeq + 1;
    t.(faces := t.faces + [FaceRow(id, faceHash, faceLabel)], faceSeq := id, lastRowId := id)
  }

  /** INSERT INTO PhotoFaceLink: the table has no key, so every insert adds a row. */
  function AppendLink(t: Tables, photoId: int, faceId: int): Tables
  {
    t.(links := t.links + [LinkRow(photoId, faceId)])
  }

  /** SELECT MAX(FaceID) FROM Faces: NULL on an empty table. */
  function MaxFaceId(faces: seq<FaceRow>): (m: Option<nat>)
    ensures m.None? <==> faces == []
    ensures m.Some? ==> exists i :: 0 <= i < |faces| && faces[i].faceId == m.value
    ensures m.Some? ==> forall i :: 0 <= i < |faces| ==> faces[i].faceId <= m.value
  {
    if faces == [] then None
    else
      var last := faces[|faces| - 1].faceId;
      match MaxFaceId(faces[..|faces| - 1])
      case None => Some(last)
      case Some(m) => if m < last then Some(last) else Some(m)
  }

  /** In a well-formed table the largest id is the id of the last row. */
  lemma MaxFaceIdIsLastRow(t: Tables)
    requires WellFormed(t) && t.faces != []
    ensures MaxFaceId(t.faces) == Some(t.faces[|t.faces| - 1].faceId)
  {
    var n := |t.faces|;
    var prefix := t.faces[..n - 1];
    match MaxFaceId(prefix)
    case None =>
    case Some(m) =>
      var k :| 0 <= k < |prefix| && prefix[k].faceId == m;
      assert prefix[k] == t.faces[k];
  }

  /** SELECT * FROM PhotoInfoTable WHERE FileHash=?: the matching rows in rowid order. */
  function PhotosWithHash(photos: seq<PhotoRow>, fileHash: string): seq<PhotoRow>
  {
    if photos == [] then []
    else (if photos[0].info.fileHash == fileHash then [photos[0]] else []) + PhotosWithHash(photos[1..], fileHash)
  }

  /** The query returns exactly the rows whose FileHash matches. */
  lemma {:induction false} PhotosWithHashMembers(photos: seq<PhotoRow>, fileHash: string)
    ensures forall p :: p in PhotosWithHash(photos, fileHash) <==> p in photos && p.info.fileHash == fileHash
  {
    if photos != [] {
      PhotosWithHashMembers(photos[1..], fileHash);
      assert photos == [photos[0]] + photos[1..];
    }
  }

  /** query_photo_info_by_hash: the first row fetched, or None. */
  function FirstByHash(photos: seq<PhotoRow>, fileHash: string): Option<PhotoRow>
  {
    if photos == [] then None
    else if photos[0].info.fileHash == fileHash then Some(photos[0])
    else FirstByHash(photos[1..], fileHash)
  }

  /** The lookup is the first row the SELECT fetches, or None when it fetches none. */
  lemma {:induction false} FirstByHashIsFirstFetched(photos: seq<PhotoRow>, fileHash: string)
    ensures FirstByHash(photos, fileHash) ==
      (var rows := PhotosWithHash(photos, fileHash); if rows == [] then None else Some(rows[0]))
  {
    if photos != [] {
      FirstByHashIsFirstFetched(photos[1..], fileHash);
    }
  }

  /** The lookup finds nothing exactly when no row has the hash, and otherwise the earliest row that has it. */
  lemma {:induction false} FirstByHashIsFirstMatch(photos: seq<PhotoRow>, fileHash: string)
    ensures FirstByHash(photos, fileHash).None? <==> forall i :: 0 <= i < |photos| ==> photos[i].info.fileHash != fileHash
    ensures FirstByHash(photos, fileHash).Some? ==>
      exists i :: 0 <= i < |photos| && photos[i] == FirstByHash(photos, fileHash).value
        && photos[i].info.fileHash == fileHash
        && forall j :: 0 <= j < i ==> photos[j].info.fileHash != fileHash
  {
    if photos != [] {
      FirstByHashIsFirstMatch(photos[1..], fileHash);
      if photos[0].info.fileHash != fileHash {
        if FirstByHash(photos, fileHash).Some? {
          var i :| 0 <= i < |photos[1..]| && photos[1..][i] == FirstByHash(photos, fileHash).value
            && photos[1..][i].info.fileHash == fileHash
            && forall j :: 0 <= j < i ==> photos[1..][j].info.fileHash != fileHash;
          assert photos[i + 1] == photos[1..][i];
          forall j | 0 <= j < i + 1 ensures photos[j].info.fileHash != fileHash {
            if j > 0 { assert photos[j] == photos[1..][j - 1]; }
          }
        } else {
          forall i | 0 <= i < |photos| ensures photos[i].info.fileHash != fileHash {
            if i > 0 { assert photos[i] == photos[1..][i - 1]; }
          }
        }
      }
    }
  }

  /** DELETE FROM PhotoInfoTable WHERE PhotoID=? */
  function WithoutPhoto(photos: seq<PhotoRow>, photoId: int): (r: seq<PhotoRow>)
    ensures forall p :: p in r <==> p in photos && p.photoId != photoId
    ensures |r| <= |photos|
  {
    if photos == [] then []
    else (if photos[0].photoId != photoId then [photos[0]] else []) + WithoutPhoto(photos[1..], photoId)
  }

  /** DELETE FROM PhotoFaceLink WHERE PhotoID=? */
  function WithoutPhotoLinks(links: seq<LinkRow>, photoId: int): (r: seq<LinkRow>)
    ensures forall l :: l in r <==> l in links && l.photoId != photoId
    ensures forall l :: multiset(r)[l] == if l.photoId != photoId then multiset(links)[l] else 0
  {
    if links == [] then []
    else
      assert multiset(links) == multiset{links[0]} + multiset(links[1..]) by { assert links == [links[0]] + links[1..]; }
      (if links[0].photoId != photoId then [links[0]] else []) + WithoutPhotoLinks(links[1..], photoId)
  }

  /** UPDATE Faces SET FaceLabel = ? WHERE FaceID = ? */
  function RenameFace(faces: seq<FaceRow>, faceId: int, newName: string): (r: seq<FaceRow>)
  {
    seq(|faces|, i requires 0 <= i < |faces| =>
      if faces[i].faceId == faceId then faces[i].(faceLabel := newName) else faces[i])
  }

  /** UPDATE Faces SET FaceLabel = ? WHERE FaceLabel = ? */
  function RenamePerson(faces: seq<FaceRow>, oldName: string, newName: string): (r: seq<FaceRow>)
  {
    seq(|faces|, i requires 0 <= i < |faces| =>
      if faces[i].faceLabel == oldName then faces[i].(faceLabel := newName) else faces[i])
  }

  /** A row as the cursor returns it. */
  datatype Row =
    | PhotoTuple(photo: PhotoRow)
    | FaceTuple(face: FaceRow)
    | JoinTuple(joined: PhotoRow, link: LinkRow, face: FaceRow)
    | ScalarTuple(scalar: Option<nat>)

  function PhotoTuples(photos: seq<PhotoRow>): (rows: seq<Row>)
    ensures |rows| == |photos|
    ensures forall i :: 0 <= i < |rows| ==> rows[i] == PhotoTuple(photos[i])
  {
    seq(|photos|, i requires 0 <= i < |photos| => PhotoTuple(photos[i]))
  }

  function FaceTuples(faces: seq<FaceRow>): (rows: seq<Row>)
    ensures |rows| == |faces|
    ensures forall i :: 0 <= i < |rows| ==> rows[i] == FaceTuple(faces[i])
  {
    seq(|faces|, i requires 0 <= i < |faces| => FaceTuple(faces[i]))
  }

  /** The joined rows for one photo and one link: the faces whose FaceID is the link's. */
  function JoinFaces(p: PhotoRow, l: LinkRow, faces: seq<FaceRow>): seq<JoinedRow>
  {
    if faces == [] then []
    else (if faces[0].faceId == l.faceId then [JoinedRow(p, l, faces[0])] else []) + JoinFaces(p, l, faces[1..])
  }

  /** The joined rows for one photo: its links, each with its faces. */
  function JoinLinks(p: PhotoRow, links: seq<LinkRow>, faces: seq<FaceRow>): seq<JoinedRow>
  {
    if links == [] then []
    else (if links[0].photoId == p.photoId then JoinFaces(p, links[0], faces) else []) + JoinLinks(p, links[1..], faces)
  }

  /** A row of SELECT * FROM PhotoInfoTable, PhotoFaceLink, Faces WHERE ... */
  datatype JoinedRow = JoinedRow(photo: PhotoRow, link: LinkRow, face: FaceRow)

  /**
   * The three-table join of query_all_photo_info_face, enumerated in the
   * order of its FROM clause (photos, then links, then faces).
   */
  function JoinPhotos(photos: seq<PhotoRow>, links: seq<LinkRow>, faces: seq<FaceRow>): seq<JoinedRow>
  {
    if photos == [] then []
    else JoinLinks(photos[0], links, faces) + JoinPhotos(photos[1..], links, faces)
  }

  /** Every joined row pairs a photo, a link and a face whose ids agree. */
  lemma {:induction false} JoinedRowsMatch(photos: seq<PhotoRow>, links: seq<LinkRow>, faces: seq<FaceRow>)
    ensures forall r :: r in JoinPhotos(photos, links, faces) ==>
      r.photo in photos && r.link in links && r.face in faces &&
      r.link.photoId == r.photo.photoId && r.link.faceId == r.face.faceId
  {
    if photos != [] {
      JoinedRowsMatch(photos[1..], links, faces);
      JoinLinksMatch(photos[0], links, faces);
    }
  }

  lemma {:induction false} JoinLinksMatch(p: PhotoRow, links: seq<LinkRow>, faces: seq<FaceRow>)
    ensures forall r :: r in JoinLinks(p, links, faces) ==>
      r.photo == p && r.link in links && r.face in faces &&
      r.link.photoId == p.photoId && r.link.faceId == r.face.faceId
  {
    if links != [] {
      JoinLinksMatch(p, links[1..], faces);
      JoinFacesMatch(p, links[0], faces);
    }
  }

  lemma {:induction false} JoinFacesMatch(p: PhotoRow, l: LinkRow, faces: seq<FaceRow>)
    ensures forall r :: r in JoinFaces(p, l, faces) ==> r.photo == p && r.link == l && r.face in faces && r.face.faceId == l.faceId
  {
    if faces != [] {
      JoinFacesMatch(p, l, faces[1..]);
    }
  }

  /** Every face whose FaceID is the link's is joined with the photo and the link. */
  lemma {:induction false} JoinFacesComplete(p: PhotoRow, l: LinkRow, faces: seq<FaceRow>)
    ensures forall f :: f in faces && f.faceId == l.faceId ==> JoinedRow(p, l, f) in JoinFaces(p, l, faces)
  {
    if faces != [] {
      JoinFacesComplete(p, l, faces[1..]);
      assert forall f :: f in faces ==> f == faces[0] || f in faces[1..];
    }
  }

  /** Every link of the photo is joined with every face whose FaceID it names. */
  lemma {:induction false} JoinLinksComplete(p: PhotoRow, links: seq<LinkRow>, faces: seq<FaceRow>)
    ensures forall l, f :: l in links && f in faces && l.photoId == p.photoId && l.faceId == f.faceId ==>
      JoinedRow(p, l, f) in JoinLinks(p, links, faces)
  {
    if links != [] {
      JoinLinksComplete(p, links[1..], faces);
      JoinFacesComplete(p, links[0], faces);
      assert forall l :: l in links ==> l == links[0] || l in links[1..];
    }
  }

  /** The join is complete: every photo, link and face whose ids agree appear together as a joined row. */
  lemma {:induction false} JoinPhotosComplete(photos: seq<PhotoRow>, links: seq<LinkRow>, faces: seq<FaceRow>)
    ensures forall p, l, f :: p in photos && l in links && f in faces && l.photoId == p.photoId && l.faceId == f.faceId ==>
      JoinedRow(p, l, f) in JoinPhotos(photos, links, faces)
  {
    if photos != [] {
      JoinPhotosComplete(photos[1..], links, faces);
      JoinLinksComplete(photos[0], links, faces);
      assert forall p :: p in photos ==> p == photos[0] || p in photos[1..];
    }
  }

  function JoinTuples(rows: seq<JoinedRow>): (r: seq<Row>)
    ensures |r| == |rows|
    ensures forall i :: 0 <= i < |r| ==> r[i] == JoinTuple(rows[i].photo, rows[i].link, rows[i].face)
  {
    seq(|rows|, i requires 0 <= i < |rows| => JoinTuple(rows[i].photo, rows[i].link, rows[i].face))
  }

  // ---------------------------------------------------------------------------
  // The statements and their interpretation

  /** The SQL statements DBprocess issues, with their parameters. */
  datatype Statement =
    | InsertPhotoInfo(info: PhotoInfo)
    | InsertFace(faceHash: Encoding, faceLabel: string)
    | InsertLink(linkPhotoId: int, linkFaceId: int)
    | SelectLastInsertRowid
    | SelectMaxFaceId
    | SelectPhotoByHash(fileHash: string)
    | SelectAllPhotoInfo
    | SelectAllPhotoInfoFace
    | SelectAllFaces
    | UpdateFaceLabelById(newName: string, faceId: int)
    | UpdateFaceLabelByLabel(newName: string, oldName: string)
    | DeletePhotoById(photoId: int)
    | DeleteLinksByPhoto(photoId: int)
    | DeleteAllFrom(table: string)

  /** The tables create_tables creates. */
  const CreatedTables: set<string> := {"PhotoInfoTable", "Faces", "PhotoFaceLink", "SWConfig"}

  /**
   * One statement on an open connection: the new tables and the rows the
   * cursor holds afterwards, or None when SQLite raises a DatabaseError
   * (here only a DELETE from a table that does not exist).
   */
  function Run(t: Tables, q: Statement): (Tables, Option<seq<Row>>)
  {
    match q
    case InsertPhotoInfo(info) => (InsertPhotoRow(t, info), Some([]))
    case InsertFace(h, faceLabel) => (InsertFaceRow(t, h, faceLabel), Some([]))
    case InsertLink(p, f) => (AppendLink(t, p, f), Some([]))
    case SelectLastInsertRowid => (t, Some([ScalarTuple(Some(t.lastRowId))]))
    case SelectMaxFaceId => (t, Some([ScalarTuple(MaxFaceId(t.faces))]))
    case SelectPhotoByHash(h) => (t, Some(PhotoTuples(PhotosWithHash(t.photos, h))))
    case SelectAllPhotoInfo => (t, Some(PhotoTuples(t.photos)))
    case SelectAllPhotoInfoFace => (t, Some(JoinTuples(JoinPhotos(t.photos, t.links, t.faces))))
    case SelectAllFaces => (t, Some(FaceTuples(t.faces)))
    case UpdateFaceLabelById(name, id) => (t.(faces := RenameFace(t.faces, id, name)), Some([]))
    case UpdateFaceLabelByLabel(name, oldName) => (t.(faces := RenamePerson(t.faces, oldName, name)), Some([]))
    case DeletePhotoById(id) => (t.(photos := WithoutPhoto(t.photos, id)), Some([]))
    case DeleteLinksByPhoto(id) => (t.(links := WithoutPhotoLinks(t.links, id)), Some([]))
    case DeleteAllFrom(table) =>
      if table !in CreatedTables then (t, None)
      else if table == "PhotoInfoTable" then (t.(photos := []), Some([]))
      else if table == "Faces" then (t.(faces := []), Some([]))
      else if table == "PhotoFaceLink" then (t.(links := []), Some([]))
      else (t, Some([]))
  }

  /** What execute_query returns: None, one fetched row, or all fetched rows. */
  datatype Reply = NoReply | OneRow(row: Row) | AllRows(rows: seq<Row>)

  /** execute_query(query, params, fetch_one) on a connection that is present or not. */
  function Execute(t: Tables, connected: bool, q: Statement, fetchOne: bool): (Tables, Reply)
  {
    if !connected then (t, NoReply)
    else match Run(t, q).1
      case None => (t, NoReply)
      case Some(rows) =>
        (Run(t, q).0, if !fetchOne then AllRows(rows) else if rows == [] then NoReply else OneRow(rows[0]))
  }

  /** Photo ids strictly increasing in rowid order. */
  predicate PhotoIdsAscending(photos: seq<PhotoRow>)
  {
    forall i, j :: 0 <= i < j < |photos| ==> photos[i].photoId < photos[j].photoId
  }

  /** A row whose id is below every id of an ascending sequence can be put in front of it. */
  lemma ConsAscending(p: PhotoRow, rest: seq<PhotoRow>)
    requires PhotoIdsAscending(rest)
    requires forall k :: 0 <= k < |rest| ==> p.photoId < rest[k].photoId
    ensures PhotoIdsAscending([p] + rest)
  {
    var r := [p] + rest;
    forall i, j | 0 <= i < j < |r| ensures r[i].photoId < r[j].photoId {
      assert r[j] == rest[j - 1];
      if i > 0 { assert r[i] == rest[i - 1]; }
    }
  }

  /** Removing rows keeps the ids of the rows left strictly increasing. */
  lemma {:induction false} WithoutPhotoKeepsOrder(photos: seq<PhotoRow>, photoId: int)
    requires PhotoIdsAscending(photos)
    ensures PhotoIdsAscending(WithoutPhoto(photos, photoId))
  {
    if photos != [] {
      var tail := photos[1..];
      assert PhotoIdsAscending(tail) by {
        forall i, j | 0 <= i < j < |tail| ensures tail[i].photoId < tail[j].photoId {
          assert tail[i] == photos[i + 1] && tail[j] == photos[j + 1];
        }
      }
      WithoutPhotoKeepsOrder(tail, photoId);
      var rest := WithoutPhoto(tail, photoId);
      if photos[0].photoId != photoId {
        forall k | 0 <= k < |rest| ensures photos[0].photoId < rest[k].photoId {
          assert rest[k] in tail;
          var m :| 0 <= m < |tail| && tail[m] == rest[k];
          assert tail[m] == photos[m + 1];
        }
        ConsAscending(photos[0], rest);
        assert WithoutPhoto(photos, photoId) == [photos[0]] + rest;
      } else {
        assert WithoutPhoto(photos, photoId) == rest;
      }
    }
  }

  /** Removing photo rows keeps the photo ids well formed. */
  lemma DeletePhotoKeepsWellFormed(t: Tables, photoId: int)
    requires WellFormed(t)
    ensures WellFormed(t.(photos := WithoutPhoto(t.photos, photoId)))
  {
    WithoutPhotoKeepsOrder(t.photos, photoId);
    var r := WithoutPhoto(t.photos, photoId);
    forall i | 0 <= i < |r| ensures 1 <= r[i].photoId <= t.photoSeq {
      assert r[i] in t.photos;
    }
  }

  /** Relabelling faces keeps every face id where it was. */
  lemma RelabelKeepsWellFormed(t: Tables, faces: seq<FaceRow>)
    requires WellFormed(t)
    requires |faces| == |t.faces| && forall i :: 0 <= i < |faces| ==> faces[i].faceId == t.faces[i].faceId
    ensures WellFormed(t.(faces := faces))
  {
  }

  /** Every statement keeps the tables well formed. */
  lemma RunKeepsWellFormed(t: Tables, q: Statement)
    requires WellFormed(t)
    ensures WellFormed(Run(t, q).0)
  {
    match q
    case DeletePhotoById(id) =>
      DeletePhotoKeepsWellFormed(t, id);
    case UpdateFaceLabelById(name, id) =>
      RelabelKeepsWellFormed(t, RenameFace(t.faces, id, name));
    case UpdateFaceLabelByLabel(name, oldName) =>
      RelabelKeepsWellFormed(t, RenamePerson(t.faces, oldName, name));
    case _ =>
  }

  // ---------------------------------------------------------------------------
  // The database object

  /** DBprocess: a connection (or None) and the tables behind it. */
  class PhotoDatabase {
    var connected: bool
    var photos: seq<PhotoRow>
    var faces: seq<FaceRow>
    var links: seq<LinkRow>
    var photoSeq: nat
    var faceSeq: nat
    var lastRowId: nat

    function State(): Tables
      reads this
    {
      Tables(photos, faces, links, photoSeq, faceSeq, lastRowId)
    }

    ghost predicate Valid()
      reads this
    {
      WellFormed(State())
    }

    /** Opening the database file: `stored` is what the file holds, `isOpen` whether sqlite3.connect succeeded. */
    constructor (isOpen: bool, stored: Tables)
      requires WellFormed(stored)
      ensures Valid() && connected == isOpen && State() == stored
    {
      connected := isOpen;
      photos, faces, links := stored.photos, stored.faces, stored.links;
      photoSeq, faceSeq, lastRowId := stored.photoSeq, stored.faceSeq, stored.lastRowId;
    }

    /** execute_query: runs one statement; None and no change without a connection or on a DatabaseError. */
    method ExecuteQuery(query: Statement, fetchOne: bool) returns (reply: Reply)
      requires Valid()
      modifies this
      ensures Valid() && connected == old(connected)
      ensures (State(), reply) == Execute(old(State()), old(connected), query, fetchOne)
    {
      if !connected {
        return NoReply;
      }
      var (t, rows) := Run(State(), query);
      if rows.None? {
        return NoReply;
      }
      RunKeepsWellFormed(State(), query);
      photos, faces, links := t.photos, t.faces, t.links;
      photoSeq, faceSeq, lastRowId := t.photoSeq, t.faceSeq, t.lastRowId;
      if !fetchOne {
        reply := AllRows(rows.value);
      } else if rows.value == [] {
        reply := NoReply;
      } else {
        reply := OneRow(rows.value[0]);
      }
    }

    /**
     * add_face_info: inserts one Faces row and returns its FaceID; None stands
     * for the TypeError raised when there is no connection.
     */
    method AddFaceInfo(faceHash: Encoding, faceLabel: string) returns (faceId: Option<nat>)
      requires Valid()
      modifies this
      ensures Valid() && connected == old(connected)
      ensures connected ==> State() == InsertFaceRow(old(State()), faceHash, faceLabel) && faceId == Some(faceSeq)
      ensures !connected ==> State() == old(State()) && faceId == None
    {
      var _ := ExecuteQuery(InsertFace(faceHash, faceLabel), false);
      var reply := ExecuteQuery(SelectLastInsertRowid, true);
      if reply.OneRow? && reply.row.ScalarTuple? && reply.row.scalar.Some? {
        faceId := Some(reply.row.scalar.value);
      } else {
        faceId := None;
      }
    }

    /** get_max_face_id: the largest FaceID, or None for an empty table or a failed query. */
    method GetMaxFaceId() returns (maxId: Option<nat>)
      requires Valid()
      modifies this
      ensures Valid() && connected == old(connected) && State() == old(State())
      ensures maxId == if connected then MaxFaceId(faces) else None
    {
      var reply := ExecuteQuery(SelectMaxFaceId, true);
      if reply.OneRow? && reply.row.ScalarTuple? {
        maxId := reply.row.scalar;
      } else {
        maxId := None;
      }
    }

    /** link_face_to_photo: appends one PhotoFaceLink row, with no uniqueness check. */
    method LinkFaceToPhoto(photoId: int, faceId: int)
      requires Valid()
      modifies this
      ensures Valid() && connected == old(connected)
      ensures State() == if connected then AppendLink(old(State()), photoId, faceId) else old(State())
    {
      var _ := ExecuteQuery(InsertLink(photoId, faceId), false);
    }

    /** query_photo_info_by_hash: the first row with that FileHash, or None. */
    method QueryPhotoInfoByHash(fileHash: string) returns (photo: Option<PhotoRow>)
      requires Valid()
      modifies this
      ensures Valid() && connected == old(connected) && State() == old(State())
      ensures photo == if connected then FirstByHash(photos, fileHash) else None
    {
      FirstByHashIsFirstFetched(photos, fileHash);
      var reply := ExecuteQuery(SelectPhotoByHash(fileHash), true);
      if reply.OneRow? && reply.row.PhotoTuple? {
        photo := Some(reply.row.photo);
      } else {
        photo := None;
      }
    }

    /** query_all_faces: every Faces row in rowid order, or None without a connection. */
    method QueryAllFaces() returns (rows: Option<seq<FaceRow>>)
      requires Valid()
      modifies this
      ensures Valid() && connected == old(connected) && State() == old(State())
      ensures rows == if connected then Some(faces) else None
    {
      var reply := ExecuteQuery(SelectAllFaces, false);
      if reply.AllRows? {
        assert reply.rows == FaceTuples(faces);
        rows := Some(faces);
      } else {
        rows := None;
      }
    }

    /** query_all_photo_info: every PhotoInfoTable row in rowid order, or None without a connection. */
    method QueryAllPhotoInfo() returns (rows: Option<seq<PhotoRow>>)
      requires Valid()
      modifies this
      ensures Valid() && connected == old(connected) && State() == old(State())
      ensures rows == if connected then Some(photos) else None
    {
      var reply := ExecuteQuery(SelectAllPhotoInfo, false);
      if reply.AllRows? {
        assert reply.rows == PhotoTuples(photos);
        rows := Some(photos);
      } else {
        rows := None;
      }
    }

    /** query_all_photo_info_face: photos joined with their links and faces, or None without a connection. */
    method QueryAllPhotoInfoFace() returns (rows: Option<seq<JoinedRow>>)
      requires Valid()
      modifies this
      ensures Valid() && connected == old(connected) && State() == old(State())
      ensures rows == if connected then Some(JoinPhotos(photos, links, faces)) else None
    {
      var reply := ExecuteQuery(SelectAllPhotoInfoFace, false);
      if reply.AllRows? {
        var joined := JoinPhotos(photos, links, faces);
        assert reply.rows == JoinTuples(joined);
        rows := Some(joined);
      } else {
        rows := None;
      }
    }

    /** add_photo_info: inserts one PhotoInfoTable row. */
    method AddPhotoInfo(info: PhotoInfo)
      requires Valid()
      modifies this
      ensures Valid() && connected == old(connected)
      ensures State() == if connected then InsertPhotoRow(old(State()), info) else old(State())
    {
      var _ := ExecuteQuery(InsertPhotoInfo(info), false);
    }

    /** delete_photo_info: removes the photo row and every link row of that photo; faces stay. */
    method DeletePhotoInfo(photoId: int)
      requires Valid()
      modifies this
      ensures Valid() && connected == old(connected)
      ensures connected ==> State() == old(State()).(photos := WithoutPhoto(old(photos), photoId), links := WithoutPhotoLinks(old(links), photoId))
      ensures !connected ==> State() == old(State())
    {
      var _ := ExecuteQuery(DeletePhotoById(photoId), false);
      var _ := ExecuteQuery(DeleteLinksByPhoto(photoId), false);
    }

    /** update_face_name: relabels the face with that id. */
    method UpdateFaceName(faceId: int, newName: string)
      requires Valid()
      modifies this
      ensures Valid() && connected == old(connected)
      ensures State() == if connected then old(State()).(faces := RenameFace(old(faces), faceId, newName)) else old(State())
    {
      var _ := ExecuteQuery(UpdateFaceLabelById(newName, faceId), false);
    }

    /** update_person_name: relabels every face whose label is `oldName`. */
    method UpdatePersonName(oldName: string, newName: string)
      requires Valid()
      modifies this
      ensures Valid() && connected == old(connected)
      ensures State() == if connected then old(State()).(faces := RenamePerson(old(faces), oldName, newName)) else old(State())
    {
      var _ := ExecuteQuery(UpdateFaceLabelByLabel(newName, oldName), false);
    }

    /** clear_all_photos as written: DELETE FROM Photos, a table that does not exist, so nothing changes. */
    method ClearAllPhotos()
      requires Valid()
      modifies this
      ensures Valid() && connected == old(connected) && State() == old(State())
    {
      var _ := ExecuteQuery(DeleteAllFrom("Photos"), false);
    }

    /** clear_all_photos as evidently intended: empties PhotoInfoTable. */
    method ClearPhotoInfoTable()
      requires Valid()
      modifies this
      ensures Valid() && connected == old(connected)
      ensures connected ==> photos == [] && State() == old(State()).(photos := [])
      ensures !connected ==> State() == old(State())
    {
      var _ := ExecuteQuery(DeleteAllFrom("PhotoInfoTable"), false);
    }
  }

  // ---------------------------------------------------------------------------
  // Properties of the table operations

  /** The id a Faces insert hands out is above every id already in the table, and the old rows stay. */
  lemma InsertFaceIdIsFresh(t: Tables, faceHash: Encoding, faceLabel: string)
    requires WellFormed(t)
    ensures var t' := InsertFaceRow(t, faceHash, faceLabel);
      && WellFormed(t')
      && t'.faces[..|t.faces|] == t.faces
      && |t'.faces| == |t.faces| + 1
      && forall i :: 0 <= i < |t.faces| ==> t.faces[i].faceId < t'.faces[|t.faces|].faceId
  {
    var t' := InsertFaceRow(t, faceHash, faceLabel);
    assert t'.faces[..|t.faces|] == t.faces;
  }

  /** Linking the same pair twice stores two rows. */
  lemma LinkIsNotDeduplicated(t: Tables, photoId: int, faceId: int)
    ensures var t' := AppendLink(AppendLink(t, photoId, faceId), photoId, faceId);
      |t'.links| == |t.links| + 2 && t'.links[|t.links|] == t'.links[|t.links| + 1] == LinkRow(photoId, faceId)
  {
  }

  /** Deleting a photo removes exactly that photo's rows and every link to it, and touches no face. */
  lemma DeletePhotoCascades(t: Tables, photoId: int)
    ensures var t' := Run(Run(t, DeletePhotoById(photoId)).0, DeleteLinksByPhoto(photoId)).0;
      && t'.faces == t.faces
      && (forall p :: p in t'.photos <==> p in t.photos && p.photoId != photoId)
      && (forall l :: l in t'.links <==> l in t.links && l.photoId != photoId)
      && (forall l :: multiset(t'.links)[l] == if l.photoId != photoId then multiset(t.links)[l] else 0)
      && (forall l :: l in t'.links ==> l.photoId != photoId)
  {
  }

  /** Renaming one face changes only that face's label. */
  lemma RenameFaceChangesOneLabel(faces: seq<FaceRow>, faceId: int, newName: string)
    ensures var r := RenameFace(faces, faceId, newName);
      && |r| == |faces|
      && (forall i :: 0 <= i < |r| ==> r[i].faceId == faces[i].faceId && r[i].faceHash == faces[i].faceHash)
      && (forall i :: 0 <= i < |r| ==> r[i].faceLabel == if faces[i].faceId == faceId then newName else faces[i].faceLabel)
  {
  }

  /** Renaming a person relabels every face that had the old label and no other; afterwards none has it unless the new name equals it. */
  lemma {:induction false} RenamePersonRelabelsAll(faces: seq<FaceRow>, oldName: string, newName: string)
    ensures var r := RenamePerson(faces, oldName, newName);
      && |r| == |faces|
      && (forall i :: 0 <= i < |r| ==> r[i].faceId == faces[i].faceId && r[i].faceHash == faces[i].faceHash)
      && (forall i :: 0 <= i < |r| ==> (faces[i].faceLabel == oldName ==> r[i].faceLabel == newName))
      && (forall i :: 0 <= i < |r| ==> (faces[i].faceLabel != oldName ==> r[i].faceLabel == faces[i].faceLabel))
      && (oldName != newName ==> forall i :: 0 <= i < |r| ==> r[i].faceLabel != oldName)
  {
  }

  /** DELETE FROM Photos fails, because create_tables never creates a table of that name, and the tables stay as they were. */
  lemma ClearAllPhotosRemovesNothing(t: Tables)
    ensures Run(t, DeleteAllFrom("Photos")) == (t, None)
    ensures Execute(t, true, DeleteAllFrom("Photos"), false) == (t, NoReply)
  {
    assert "Photos" !in CreatedTables;
  }

  /** A catalog holding one photo still holds it after clear_all_photos. */
  lemma ClearAllPhotosKeepsAPhoto(info: PhotoInfo)
    ensures var t := InsertPhotoRow(EmptyTables, info);
      |Execute(t, true, DeleteAllFrom("Photos"), false).0.photos| == 1
  {
    ClearAllPhotosRemovesNothing(InsertPhotoRow(EmptyTables, info));
  }

  /** Deleting from PhotoInfoTable, the intended target, leaves no photo row and keeps faces and links. */
  lemma ClearPhotoInfoTableEmptiesPhotos(t: Tables)
    ensures var (t', rows) := Run(t, DeleteAllFrom("PhotoInfoTable"));
      rows == Some([]) && t'.photos == [] && t'.faces == t.faces && t'.links == t.links
  {
    assert "PhotoInfoTable" in CreatedTables;
  }

  /** Without a connection every statement returns None and changes nothing. */
  lemma ExecuteWithoutConnection(t: Tables, q: Statement, fetchOne: bool)
    ensures Execute(t, false, q, fetchOne) == (t, NoReply)
  {
  }
}
