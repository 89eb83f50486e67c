# Family photo manager: catalog, import, face identities and album grid

This project models the core of a desktop family-photo manager:

- **The photo catalog** (`DBprocess.py`) keeps three tables in memory as row sequences:
  - PhotoInfoTable;
  - Faces, with its AUTOINCREMENT counter;
  - PhotoFaceLink.

  Every statement the program issues goes through one interpreter, `execute_query`. It returns None when there is no connection or when SQLite raises.
- **The importer** (`photo_importer.py`):
  - walks a folder and picks image files by extension;
  - skips files whose hash is already catalogued;
  - imports the rest through `process_file`, which derives the thumbnail name, the capture time and the GPS guard;
  - counts photos, thumbnails, errors and skips;
  - hands the recorded (path, hash) pairs to the face pass.
- **The face-to-identity pass** (`process_photos.py`):
  - flattens the faces found in the new photos;
  - clusters them together with the stored faces;
  - mints a `未命名<n>` identity for each noise face;
  - resolves every other face through the stored label list, stopping at the first label that does not index it;
  - links each face to its photo when the photo is found by hash.
- **The album grid** (`newGUI.py`):
  - the number of photos per row;
  - the year and month shown while scrolling;
  - the cell arithmetic of the background loader;
  - the two sort buttons. Each one flips a shared direction flag, sorts with Python's stable `list.sort`, and lays the photos out in groups, each under a header of its own.

Modules:

| file | module | models |
|---|---|---|
| text.dfy | Text | decimal rendering, ASCII lower-casing, Python slicing, `os.path.basename`/`join` |
| exif.dfy | Exif | GPS guard and both `extract_capture_info` definitions |
| catalog.dfy | Catalog | tables, statement interpreter, class `PhotoDatabase` |
| face_pass.dfy | FacePass | `process_photos` as spec functions and methods on the database |
| importer.dfy | Importer | `process_file`, `import_from_folder`, class `PhotoImporter` |
| sorting.dfy | Sorting | `list.sort(key=..., reverse=...)` as a stable insertion sort |
| gallery.dfy | Gallery | photos per row, year/month, `LoadPhotosTask`, grid placement, class `PhotoAlbum` |

Each loop of the source is a `while` loop in a method. The method is proved equal to a specification function over prefixes (`Pass`, `Walk`, `Layout`, `Loaded`), and the properties are proved as lemmas about that function.

Oracles stand in for face detection (`detect`), DBSCAN (`cluster`), the file system (`hashOf`, `open`, the `os.walk` listing) and thumbnail existence (`hasThumbnail`).

Points where the program's behaviour is easy to misread:

- A non-noise cluster number indexes the list of stored labels (`existing_labels[label]`). It is not mapped to a cluster's identity. A number outside the list raises, and the handler at process_photos.py:81-82 ends the pass. Negative numbers below -1 index from the end, as Python lists do.
- A cluster made only of new faces gets no identity of its own. Its faces resolve through whatever stored label sits at that index.
- Minted labels are `未命名<n>`.
- The pass is not atomic. Face and link rows written before an abort stay.
- A link is written only when the lookup by the hash's base name finds the photo.
- `face_id_map` is keyed by label text, and the later of two stored faces with the same label wins.
- The month group compares characters 0-3 and 5-6 of the capture time. The comment at newGUI.py:422 calls the date 'YYYY-MM', but EXIF capture times are 'YYYY:MM:DD ...'. Either way, character 4 is not compared.
- `clear_all_photos` deletes from a table named `Photos`, which is never created. See Findings.

## Model

| member | source | states |
|---|---|---|
| Text.NatToText | newGUI.py:123 | the decimal rendering of a natural number is non-empty and all digits, one digit exactly below 10 |
| Text.NatToTextInjective | process_photos.py:62 | different numbers render differently |
| Text.IntToText | newGUI.py:121-123 | an integer's rendering is non-empty and starts with '-' exactly when it is negative |
| Text.LowerIsIdempotent | photo_importer.py:39 | lowering twice is lowering once |
| Text.Slice | newGUI.py:420-423 | a Python slice is the exact subsequence when the bounds are in range, empty when they cross or start past the end, never longer than the text |
| Text.SegmentStartIsLastSeparator | photo_importer.py:139 | the last path segment starts just after the last '/' before that position, with no '/' in between |
| Text.SegmentStartAfter | photo_importer.py:139 | a segment start preceded by '/' (or at 0) with no '/' after it is the one found |
| Text.BasenameIsLastSegment | photo_importer.py:139 | the base name is a suffix of the path with no '/' in it, preceded by '/' or the start |
| Text.BasenameAfterSeparator | photo_importer.py:140 | the base name of a directory prefix ending in '/' plus a name is that name |
| Text.BasenameOfName | process_photos.py:69 | a name without '/' is its own base name |
| Text.BasenameOfJoin | photo_importer.py:38 | the base name of os.path.join(dir, name) is name |
| Text.Basename | photo_importer.py:139 | computes os.path.basename: the text after the last '/', the whole text when it has none |
| Text.Join | photo_importer.py:140 | computes os.path.join: an absolute second part replaces the first; otherwise the two parts with one '/' between them unless the first is empty or already ends in '/' |
| Exif.GpsLocationGuard | photo_importer.py:91-105 | coordinates are produced exactly when GPSInfo is present and latitude, its reference, longitude and its reference are all truthy; then they come from those four values |
| Exif.GpsLocation | photo_importer.py:91-105 | computes the stored GPS location: the four raw GPSInfo values when all are set, otherwise the unknown location |
| Exif.ExtractCaptureInfo | photo_importer.py:107-117 | the accurate flag is 1 exactly when DateTimeOriginal is a tag and 0 exactly when it is not; the date is that tag's value, otherwise the file's creation time |
| Exif.OverrideKeepsDateAndFlag | photo_importer.py:191-195 | the later, overriding definition gives the same date and the same flag as the first one |
| Catalog.MaxFaceId | DBprocess.py:100-103 | SELECT MAX(FaceID) is None exactly for an empty Faces table, otherwise an id present in the table and no smaller than any other |
| Catalog.MaxFaceIdIsLastRow | DBprocess.py:54-58 | with AUTOINCREMENT ids ascending, the maximum is the id of the last row |
| Catalog.PhotosWithHashMembers | DBprocess.py:114 | SELECT ... WHERE FileHash=? yields exactly the photo rows with that hash |
| Catalog.FirstByHashIsFirstFetched | DBprocess.py:113-119 | the row fetchone returns is the first row of that selection, or None when it is empty |
| Catalog.FirstByHashIsFirstMatch | DBprocess.py:113-119 | the lookup is None exactly when no row has the hash; otherwise it is the first row in table order that has it |
| Catalog.FirstByHash | DBprocess.py:113-119 | computes what fetchone returns for SELECT * ... WHERE FileHash=?: the first photo row with that hash, or None |
| Catalog.WithoutPhoto | DBprocess.py:182 | the photo rows left are exactly those whose PhotoID differs |
| Catalog.WithoutPhotoLinks | DBprocess.py:183 | the link rows left are exactly those whose PhotoID differs, each kept as many times as it was stored; rows of the photo are all gone |
| Catalog.RenameFace | DBprocess.py:165-168 | computes the Faces table after UPDATE ... WHERE FaceID=?: that face's label replaced, every other row kept |
| Catalog.RenamePerson | DBprocess.py:195-196 | computes the Faces table after UPDATE ... WHERE FaceLabel=?: every row with the old label relabelled, the rest kept |
| Catalog.JoinedRowsMatch | DBprocess.py:189-190 | every joined row pairs a stored photo, a stored link with that PhotoID and a stored face with that link's FaceID |
| Catalog.JoinLinksMatch | DBprocess.py:190 | for one photo, the join yields only its links, each with a matching face |
| Catalog.JoinFacesMatch | DBprocess.py:190 | for one link, the join yields only the stored faces with its FaceID |
| Catalog.JoinPhotosComplete | DBprocess.py:189-190 | the join is complete: every stored photo, link with its PhotoID and face with the link's FaceID appear together as a joined row |
| Catalog.JoinLinksComplete | DBprocess.py:190 | for one photo, every link with its PhotoID is joined with every stored face with that link's FaceID |
| Catalog.JoinFacesComplete | DBprocess.py:190 | for one link, every stored face with its FaceID is joined |
| Catalog.WithoutPhotoKeepsOrder | DBprocess.py:182 | deleting photo rows keeps PhotoIDs in ascending order |
| Catalog.DeletePhotoKeepsWellFormed | DBprocess.py:182 | deleting photo rows keeps the table invariant (ids positive, ascending, within the counter) |
| Catalog.RelabelKeepsWellFormed | DBprocess.py:167-168 | changing labels while keeping every FaceID keeps the invariant |
| Catalog.RunKeepsWellFormed | DBprocess.py:86-98 | every statement keeps the table invariant |
| Catalog.Execute | DBprocess.py:86-98 | computes execute_query: None and no change without a connection or when the statement fails; otherwise the statement's new tables and fetchone or fetchall of its rows |
| Catalog.PhotoDatabase.constructor | DBprocess.py:6-10 | the connection is present or not, and the tables are what the file holds |
| Catalog.PhotoDatabase.ExecuteQuery | DBprocess.py:86-98 | the new tables and the reply are those of the interpreter: None and no change without a connection or on a DatabaseError, otherwise fetchone or fetchall of the statement's rows |
| Catalog.PhotoDatabase.AddFaceInfo | DBprocess.py:81-84 | with a connection one Faces row is inserted and its new FaceID returned; without one nothing changes, and None stands for the TypeError the source raises when it indexes execute_query's None reply at DBprocess.py:84 |
| Catalog.PhotoDatabase.GetMaxFaceId | DBprocess.py:100-103 | returns the largest FaceID, None for an empty table or no connection, and changes nothing |
| Catalog.PhotoDatabase.LinkFaceToPhoto | DBprocess.py:105-111 | appends one link row with the two ids when connected, otherwise nothing changes |
| Catalog.PhotoDatabase.QueryPhotoInfoByHash | DBprocess.py:113-119 | returns the first photo row with the hash (None without a connection) and changes nothing |
| Catalog.PhotoDatabase.QueryAllFaces | DBprocess.py:201-202 | returns every Faces row in order, or None without a connection |
| Catalog.PhotoDatabase.QueryAllPhotoInfo | DBprocess.py:187-188 | returns every photo row in order, or None without a connection |
| Catalog.PhotoDatabase.QueryAllPhotoInfoFace | DBprocess.py:189-190 | returns the join of photos, links and faces, or None without a connection |
| Catalog.PhotoDatabase.AddPhotoInfo | DBprocess.py:147-155 | inserts one photo row with the next PhotoID when connected, otherwise nothing changes |
| Catalog.PhotoDatabase.DeletePhotoInfo | DBprocess.py:180-185 | removes the photo's rows and its link rows when connected, and changes nothing else |
| Catalog.PhotoDatabase.UpdateFaceName | DBprocess.py:165-170 | relabels the face with that id when connected |
| Catalog.PhotoDatabase.UpdatePersonName | DBprocess.py:195-196 | relabels every face with the old label when connected |
| Catalog.PhotoDatabase.ClearAllPhotos | DBprocess.py:173-178 | as written: the statement fails, the error is swallowed and the tables are unchanged |
| Catalog.PhotoDatabase.ClearPhotoInfoTable | DBprocess.py:173-178 | as intended: with a connection the photo table is emptied and nothing else changes |
| Catalog.InsertFaceIdIsFresh | DBprocess.py:81-84 | an inserted face keeps the earlier rows, adds one row and gets an id above every earlier FaceID, keeping the invariant |
| Catalog.LinkIsNotDeduplicated | DBprocess.py:105-108 | linking the same pair twice stores two identical rows |
| Catalog.DeletePhotoCascades | DBprocess.py:180-183 | after the two DELETEs the photo rows and link rows left are exactly those of other PhotoIDs, every other link row keeps its number of copies, no link names the photo and Faces is untouched |
| Catalog.RenameFaceChangesOneLabel | DBprocess.py:165-168 | only the label of the face with that id changes; ids and encodings stay |
| Catalog.RenamePersonRelabelsAll | DBprocess.py:195-196 | every face with the old label gets the new one, every other label stays, and none keeps the old label unless the names are equal |
| Catalog.ClearAllPhotosRemovesNothing | DBprocess.py:173-178 | DELETE FROM Photos fails because no such table is created, and the tables stay as they were |
| Catalog.ClearAllPhotosKeepsAPhoto | DBprocess.py:33-52 | a catalog holding one photo still holds it after clear_all_photos |
| Catalog.ClearPhotoInfoTableEmptiesPhotos | DBprocess.py:36-37 | deleting from PhotoInfoTable leaves no photo row and keeps faces and links |
| Catalog.ExecuteWithoutConnection | DBprocess.py:87-89 | without a connection every statement returns None and changes nothing |
| FacePass.FacesOfFails | process_photos.py:35-37 | the flattening raises exactly when loading some photo raises |
| FacePass.FacesOfOrigins | process_photos.py:35-47 | every flattened face comes from some source photo's path and hash and from the encodings found in it |
| FacePass.FacesOfCounts | process_photos.py:35-47 | the flattened list holds as many faces as detection found over all photos, and the faces of the first j photos are its first entries |
| FacePass.Resolve | process_photos.py:61-67 | computes what one non-noise label resolves to: a stored FaceID through existing_labels and face_id_map, or the raise of an index out of range |
| FacePass.Step | process_photos.py:61-76 | computes one turn of the assignment loop: mint or reuse an identity, link it to the photo found by hash, or stop at a raising label |
| FacePass.Pass | process_photos.py:6-82 | computes the whole of process_photos on the tables: load stored faces, flatten the new ones, cluster, and run the loop until it ends or raises |
| FacePass.FaceIdMap | process_photos.py:29 | every stored label is a key of face_id_map |
| FacePass.FaceIdMapEntries | process_photos.py:26-29 | each key maps to the FaceID of some stored face with that label |
| FacePass.FaceIdMapLaterWins | process_photos.py:29 | a label maps to the FaceID of its last stored face |
| FacePass.PyIndex | process_photos.py:66 | a Python list index succeeds exactly for -len <= k < len and counts negative k from the end |
| FacePass.PySuffix | process_photos.py:60 | labels[len(existing):] is the labels after the stored ones, empty when there are not that many |
| FacePass.ResolveCases | process_photos.py:61-67 | -1 mints; another label raises exactly when it does not index the stored labels; otherwise it reuses a stored FaceID, for k in range the one mapped to the label of stored face k |
| FacePass.UnnamedLabelInjective | process_photos.py:62 | different counter values give different 未命名 labels |
| FacePass.FirstUnnamedNumber | process_photos.py:32-33 | the counter starts at 1 or above and above every stored FaceID |
| FacePass.LinkIfFound | process_photos.py:69-76 | the photo is looked up by the base name of the hash; one link to its PhotoID is appended when found and none otherwise; nothing else changes |
| FacePass.LoadStoredFaces | process_photos.py:22-29 | the loop over all_faces builds the stored encodings, stored labels and face_id_map |
| FacePass.FlattenFaces | process_photos.py:17-19 | the three lists are the flattened encodings, paths and hashes, or the loop raised exactly when loading some photo raises |
| FacePass.HandleNewFace | process_photos.py:61-76 | one iteration of the assignment loop performs exactly one specification step on the database and the counter |
| FacePass.AssignFaces | process_photos.py:59-76 | the assignment loop leaves the database and the counter as the specification after all paired faces, stopping at the first raising label |
| FacePass.ClusterAndAssign | process_photos.py:53-82 | the try block changes the database and ends as the specification's cluster phase |
| FacePass.ProcessPhotos | process_photos.py:6-82 | process_photos changes the database and ends exactly as the specification pass |
| FacePass.StopPersists | process_photos.py:81-82 | once a label has raised, no later face is handled |
| FacePass.StepGrown | process_photos.py:61-76 | one step only appends Faces rows (ids, labels numbered from the counter) and link rows, and never touches photos |
| FacePass.AssignGrown | process_photos.py:59-76 | the whole loop only appends numbered Faces rows and link rows |
| FacePass.StepCounts | process_photos.py:61-64 | one step stops exactly on a raising label and advances the counter by one exactly on noise |
| FacePass.FirstRaiseIsFirst | process_photos.py:66-67 | the first raising index is raising and every earlier label resolves |
| FacePass.AssignStops | process_photos.py:66-67 | the loop stops at the first label that raises, and only there |
| FacePass.AssignCounts | process_photos.py:61-64 | the counter grows by the number of faces minted |
| FacePass.MintedCountsNoise | process_photos.py:61-64 | faces minted are the noise labels before the stop |
| FacePass.GrownKeepsWellFormed | process_photos.py:63 | appending numbered faces keeps the table invariant |
| FacePass.AssignKeepsWellFormed | process_photos.py:59-76 | the loop keeps the table invariant |
| FacePass.AssignLinksResolve | process_photos.py:69-73 | every link the loop writes names a stored photo and a FaceID present in Faces |
| FacePass.MintWritesARow | process_photos.py:61-64 | a noise label inserts one Faces row labelled 未命名<counter> with the next FaceID, advances the counter, and links that id only when the photo is found |
| FacePass.ReuseWritesOnlyALink | process_photos.py:65-73 | a resolved label leaves Faces and the counter unchanged and at most appends one link |
| FacePass.NoNewFacesNoWrites | process_photos.py:54 | with no new encoding no row is written, and on a connection the pass ends without clustering |
| FacePass.AssignPhaseShape | process_photos.py:59-76 | the assignment phase only appends Faces and link rows, keeping photos and the invariant |
| FacePass.PassShape | process_photos.py:6-82 | the whole pass only appends Faces and link rows, keeping photos and the invariant |
| FacePass.MintedRowsDistinct | process_photos.py:61-64 | faces minted in one pass have pairwise distinct labels and strictly increasing ids |
| FacePass.PassMintsDistinctLabels | process_photos.py:32-33 | the Faces rows a pass adds have pairwise distinct labels and increasing ids |
| FacePass.PassAbortsAtFirstUnresolvable | process_photos.py:81-82 | the pass aborts exactly when some paired label raises, at the first such face, and otherwise finishes |
| FacePass.PassMintsOnePerNoiseLabel | process_photos.py:59-64 | the pass adds exactly one Faces row per noise label among the faces it handled |
| Importer.ImageNameIgnoresCase | photo_importer.py:39 | the extension filter gives the same answer for a name and its lower-cased form |
| Importer.ImageNameHasDot | photo_importer.py:39 | an accepted name contains a '.' |
| Importer.IsImageName | photo_importer.py:39 | computes the extension filter: the lower-cased name ends in one of the eight accepted image suffixes |
| Importer.ThumbnailLength | photo_importer.py:139 | the thumbnail name grows by six characters per '.' |
| Importer.ThumbnailDotsAreLate | photo_importer.py:139 | every '.' of a thumbnail name lies at position 6 or later, after an inserted '_thumb' |
| Importer.ThumbnailNameRoundTrip | photo_importer.py:139 | replacing each '_thumb.' back by '.' restores the base name |
| Importer.ThumbnailNameChanges | photo_importer.py:139 | the thumbnail name equals the base name exactly when it has no '.' |
| Importer.ThumbnailName | photo_importer.py:139 | computes base_name.replace('.', '_thumb.') |
| Importer.ProcessFileAddsOneRow | photo_importer.py:119-171 | process_file returns True exactly when the hash and the image can be read and no stored photo has the hash; it then appends the one described row when connected; otherwise the tables are unchanged |
| Importer.ProcessFileSpec | photo_importer.py:119-171 | computes process_file: raise without a hash, False for a catalogued hash or an unreadable image, otherwise True and the new row when connected |
| Importer.WalkedFilesNext | photo_importer.py:36-37 | the files reached are those of the earlier directories followed by the next directory's |
| Importer.WalkConcat | photo_importer.py:36-54 | walking two lists of files is walking the second from the state after the first |
| Importer.ImportStep | photo_importer.py:38-54 | computes one turn of the inner loop: ignore, count an error, count a skip, or process the file and record it |
| Importer.Walk | photo_importer.py:36-54 | computes the loop over all walked files as successive steps |
| Importer.ErrorsCountUnhashable | photo_importer.py:52-54 | error_count rises by exactly the number of image files whose hash cannot be computed |
| Importer.DisconnectedImportSkipsNothing | photo_importer.py:42-45 | without a connection no file is skipped as already catalogued |
| Importer.CataloguedFileIsSkipped | photo_importer.py:41-45 | on a connection an image file whose hash the catalog held before the import raises skip_count by one and changes nothing else |
| Importer.WalkCountsImages | photo_importer.py:38-54 | photo_count, skip_count and error_count never fall, and together grow by at most the number of image files, exactly that number when every image opens |
| Importer.FacePassReceivesRecordedPairs | photo_importer.py:73 | the face pass receives one source per counted photo, each the recorded path with the hash calculate_file_hash gives for it |
| Importer.ImportCountsAgree | photo_importer.py:47-51 | photo_count, thumbnail_count and the lengths of both recorded lists are equal, and the face pass receives that many pairs |
| Importer.RecordedPairsAreWalkedImages | photo_importer.py:47-51 | each recorded pair is an accepted walked file with the hash calculate_file_hash gives |
| Importer.ImageFiles | photo_importer.py:39 | the filtered files are exactly the walked files with an accepted name |
| Importer.WalkIgnoresOtherFiles | photo_importer.py:39 | files without an accepted extension change no counter, list or table |
| Importer.DisconnectedImportStoresNothing | photo_importer.py:162 | without a connection the walk leaves the tables unchanged |
| Importer.RecordingKeepsRows | photo_importer.py:47-51 | appending a new photo row together with its recorded pair keeps the import invariant |
| Importer.ImportStepKeepsRows | photo_importer.py:38-54 | one file keeps the import invariant: one row per recorded hash, in order, the hashes distinct and new, faces and links untouched |
| Importer.ImportKeepsRows | photo_importer.py:36-54 | the whole walk keeps the import invariant |
| Importer.ImportedHashesAreNew | photo_importer.py:41-45 | the walk adds one photo row per counted photo, with hashes pairwise distinct and absent from the catalog before |
| Importer.PhotoImporter.constructor | photo_importer.py:16-22 | the importer keeps the database and the two storage folders |
| Importer.PhotoImporter.ProcessFile | photo_importer.py:119-171 | the outcome and the new tables are those of the process_file specification |
| Importer.PhotoImporter.ConsiderFile | photo_importer.py:38-54 | one file moves the counters, lists and tables as one walk step |
| Importer.PhotoImporter.ConsiderDirectory | photo_importer.py:37-54 | one directory moves them as the walk over its files |
| Importer.PhotoImporter.ImportFromFolder | photo_importer.py:28-82 | the four counters are those of the walk, and the database ends as the face pass leaves it after the walk, on the recorded pairs |
| Sorting.TextLessIrreflexive | newGUI.py:411 | no capture time sorts before itself |
| Sorting.TextLessTransitive | newGUI.py:411 | string comparison is transitive |
| Sorting.TextLessTotal | newGUI.py:411 | of two different strings one sorts before the other |
| Sorting.KeyLessIsStrictTotalOrder | newGUI.py:411 | the key order is irreflexive, transitive and total |
| Sorting.InsertPermutes | newGUI.py:411 | inserting adds exactly the element |
| Sorting.InsertIsStable | newGUI.py:411 | inserting keeps the order of the elements with each key and puts the new one after them |
| Sorting.InsertKeepsSorted | newGUI.py:411 | inserting into a sorted list keeps it sorted |
| Sorting.SortBySortsAndPermutes | newGUI.py:411 | list.sort returns the same elements with keys ordered in the requested direction |
| Sorting.SortByIsStable | newGUI.py:476 | in both directions the elements sharing a key keep their original relative order |
| Sorting.SortBy | newGUI.py:411 | computes list.sort(key=..., reverse=...) as a stable insertion sort |
| Gallery.PhotosPerRow | newGUI.py:316-319 | at least one photo per row, exactly one below two widths, and otherwise as many 110-pixel slots as fit and no more |
| Gallery.PhotosPerRowIsLargestFit | newGUI.py:319 | any number of slots that fits is at most the count returned |
| Gallery.YearMonthAt | newGUI.py:120-122 | the month lies in 1..12 and counts pos // 100 months from January 2020 |
| Gallery.YearMonthIsUnique | newGUI.py:120-122 | the year and month are the only pair with that month count |
| Gallery.YearMonthIsMonotone | newGUI.py:120-122 | a larger scroll position never shows an earlier month |
| Gallery.SplitAfterDigits | newGUI.py:123 | two digit runs followed by the same non-digit separator split the same way |
| Gallery.CalculateYearMonthIdentifiesMonth | newGUI.py:115-123 | on non-negative positions the texts are equal exactly when pos // 100 is |
| Gallery.CalculateYearMonth | newGUI.py:115-123 | computes the tooltip text: '<year>年<month>月' for the month pos // 100 months after January 2020 |
| Gallery.PlacedAtHasItsSlot | newGUI.py:80-81 | index i goes to row i // ppr and column i % ppr, a column below ppr, and that cell is slot i |
| Gallery.LoadedPlacesByIndex | newGUI.py:76-82 | every loaded entry is some photo at its own index; slots strictly increase; every photo with a thumbnail is placed at its index and the others leave their slots empty |
| Gallery.Loaded | newGUI.py:76-82 | computes the data LoadPhotosTask emits: each photo whose thumbnail exists, at the cell of its index |
| Gallery.LoadPhotosTask.constructor | newGUI.py:62-66 | the task keeps the padding width and the photos per row |
| Gallery.LoadPhotosTask.Run | newGUI.py:68-87 | on None the loop raises and nothing is emitted; otherwise the emitted data are the placements of the photos whose thumbnail exists |
| Gallery.OpenGroupKeepsArranged | newGUI.py:425-434 | a header closes a partly filled row, sits alone on its row, and keeps the grid arranged |
| Gallery.PlaceThumbKeepsArranged | newGUI.py:436-447 | a thumbnail takes the next cell, a full row wraps to column 0, and the grid stays arranged |
| Gallery.LayoutIsArranged | newGUI.py:417-447 | after every photo the column is below ppr, all widgets are in strictly increasing reading order with no shared cell, and rows never go back |
| Gallery.Layout | newGUI.py:417-447 | computes the grid the sort loops build: a header per change of key and a thumbnail per existing thumbnail, wrapping at photos_per_row |
| Gallery.PlaceAddsHeaderOnChange | newGUI.py:425-434 | one photo adds a header exactly when its key differs from the current one, and then makes it current |
| Gallery.LayoutHeadersAreRuns | newGUI.py:486-495 | the header keys are the photos' keys with consecutive repeats collapsed, whether or not thumbnails exist, and the current key is the last photo's |
| Gallery.PlaceShowsExistingThumbnail | newGUI.py:436-443 | one photo adds its picture exactly when its thumbnail exists |
| Gallery.LayoutShowsExistingThumbnails | newGUI.py:497-504 | the thumbnails shown are those of the photos whose thumbnail exists, in sorted order |
| Gallery.FormatMonthComparesYearAndMonth | newGUI.py:420-423 | two capture times fall in the same month group exactly when characters 0-3 and 5-6 agree |
| Gallery.FormatMonth | newGUI.py:420-423 | computes the month header: characters 0-3 of the capture time, 年, characters 5-6, 月 |
| Gallery.PhotoAlbum.constructor | newGUI.py:172-174 | the direction flag starts ascending, the year/month tooltip off, and the grid empty |
| Gallery.PhotoAlbum.AddDatePhoto | newGUI.py:418-447 | one iteration of the date loop performs one grid step and leaves the flags alone |
| Gallery.PhotoAlbum.SortPhotosByDate | newGUI.py:404-448 | the flag flips; with a connection the grid is the layout of all photos sorted by capture time with reverse equal to the new flag, and the tooltip is enabled; the catalog is unchanged |
| Gallery.PhotoAlbum.AddPersonPhoto | newGUI.py:483-508 | one iteration of the person loop performs one grid step and leaves the flags alone |
| Gallery.PhotoAlbum.SortPhotosByPerson | newGUI.py:470-508 | the same shared flag flips; with a connection the grid is the layout of the joined rows sorted by FaceID with reverse equal to it; the tooltip flag and the catalog are unchanged |

## Left out

- DBSCAN, face detection and the float64 encoding bytes are oracles (`cluster`, `detect`) and opaque values. Distances, eps and min_samples are not modelled.
- SQL text, sqlite3 connection setup, config loading and the SWConfig methods are not modelled. The tables are modelled directly, and the statements the program issues are a datatype.
- The file system is an oracle:
  - os.walk is given as the list of directories it visits;
  - calculate_file_hash is a deterministic function of the path;
  - PIL decoding, thumbnailing and shutil.copy2 are one `open` oracle.

  So the second hash at photo_importer.py:51 never raises. The `Raised` outcome of `process_file` is never reached from the walk, because the hash is computed before `process_file` is called.
- The `time.strftime` fallback capture time is an input, as part of what the file yields.
- get_decimal_from_dms (photo_importer.py:84-89) is floating-point arithmetic. GPS coordinates keep the four raw EXIF values.
- Qt widgets, signals, message boxes, the QThreadPool/QRunnable threading, display_loaded_photos, clear_layout's widget deletion and the tooltip timer are not modelled. The grid is a list of placed cells, and thumbnail existence is a predicate.
- Gallery.LoadPhotosTask.constructor: requires photos_per_row >= 1. The source accepts any value, but its only caller passes calculate_photos_per_row(), which is at least 1. The task's own database connection is the `photos` input of `Run`.
- Gallery.PhotoAlbum.SortPhotosByDate: calculate_photos_per_row() is evaluated once per call rather than per photo, because the width does not change during the loop.
- Gallery.PhotoAlbum.SortPhotosByPerson: as for the date sort, the width is read once.
- Sorting.KeyLessIsStrictTotalOrder: text keys are ordered before integer keys. The program never sorts a list that mixes the two.
- Text.Lower: lowers ASCII 'A'-'Z' only. Python's str.lower also lowers non-ASCII letters; the extension filter only looks at ASCII suffixes.
- Text.Basename, Text.Join: follow POSIX os.path and split at '/'. On Windows, ntpath also splits at '\\' and treats drive letters specially; that is not modelled.
- Catalog.JoinPhotos: the join at DBprocess.py:190 has no ORDER BY. The model assumes photo-major order (photos in rowid order, then their links, then the matching faces). After the stable sort at newGUI.py:476 this assumption decides the order within one FaceID group.
- Catalog.PhotoDatabase.constructor: `lastRowId` is set by photo and face inserts only, not by link inserts, and the constructor takes it from the stored tables instead of 0 for a fresh connection. The program reads last_insert_rowid() only right after a Faces insert (DBprocess.py:83-84), where the model agrees.
- Exif.GpsLocation: GPSInfo is keyed by tag name. PIL keys it by integer tag numbers, so in the program `.get('GPSLatitude')` finds nothing and the location stays unknown; the coordinates branch is reached only through the EXIF input.
- Capture times are compared code point by code point, as Python does. No locale or normalisation applies.
- print logging and the import_error/import_finished signals are not modelled. Only the counters that feed them are.

## Findings

| source | as written | input that shows it | evidently intended | confidence | as-written member | corrected member |
|---|---|---|---|---|---|---|
| DBprocess.py:173-178 | `clear_all_photos` runs `DELETE FROM Photos`, but create_tables (DBprocess.py:33-78) never creates a table named Photos; execute_query swallows the error and no row is removed | a catalog holding one photo: after clear_all_photos it still holds that photo | delete every row of PhotoInfoTable | not executed | Catalog.PhotoDatabase.ClearAllPhotos, Catalog.ClearAllPhotosKeepsAPhoto | Catalog.PhotoDatabase.ClearPhotoInfoTable, Catalog.ClearPhotoInfoTableEmptiesPhotos |
