/**
 * The placement arithmetic of the album window (newGUI.py): how many
 * thumbnails fit in a row, the year and month shown while scrolling, the
 * cells LoadPhotosTask computes for each photo, and the grid that
 * sort_photos_by_date and sort_photos_by_person fill with group headers and
 * thumbnails.  Qt widgets become `Cell` values with their grid positions;
 * whether a thumbnail file exists and the scroll area's width are inputs.
 */
module Gallery {
  import opened Text
  import opened Catalog
  import opened Sorting

  /** The width of one thumbnail with its padding, in pixels. */
  const PhotoWidthWithPadding := 110

  /** calculate_photos_per_row: as many thumbnails as fit in the width, but at least one. */
  function PhotosPerRow(width: int): (perRow: int)
    ensures perRow >= 1
    ensures width < 2 * PhotoWidthWithPadding ==> perRow == 1
    ensures width >= PhotoWidthWithPadding ==>
      perRow * PhotoWidthWithPadding <= width < (perRow + 1) * PhotoWidthWithPadding
  {
    var fit := width / PhotoWidthWithPadding;
    if fit > 1 then fit else 1
  }

  /** No larger row of thumbnails fits: PhotosPerRow is the largest count that fits, when any fits. */
  lemma PhotosPerRowIsLargestFit(width: int, n: int)
    requires n >= 1 && n * PhotoWidthWithPadding <= width
    ensures n <= PhotosPerRow(width)
  {
  }

  // ---------------------------------------------------------------------
  // calculateYearMonth
  // ---------------------------------------------------------------------

  datatype YearMonth = YearMonth(year: int, month: int)

  /** The year and month for a scroll position: every 100 scroll units is one month from January 2020. */
  function YearMonthAt(scrollPosition: int): (ym: YearMonth)
    ensures 1 <= ym.month <= 12
    ensures (ym.year - 2020) * 12 + (ym.month - 1) == scrollPosition / 100
  {
    var monthIndex := scrollPosition / 100;
    YearMonth(2020 + monthIndex / 12, monthIndex % 12 + 1)
  }

  /** The year and month are the only ones with a month in 1..12 that count scrollPosition / 100 months from January 2020. */
  lemma YearMonthIsUnique(scrollPosition: int, year: int, month: int)
    requires 1 <= month <= 12
    requires (year - 2020) * 12 + (month - 1) == scrollPosition / 100
    ensures YearMonthAt(scrollPosition) == YearMonth(year, month)
  {
  }

  /** Scrolling further down never shows an earlier month. */
  lemma YearMonthIsMonotone(p: int, q: int)
    requires p <= q
    ensures var a, b := YearMonthAt(p), YearMonthAt(q);
      a.year < b.year || (a.year == b.year && a.month <= b.month)
  {
  }

  /** calculateYearMonth: the tooltip text "<year>年<month>月". */
  function CalculateYearMonth(scrollPosition: int): string
  {
    var ym := YearMonthAt(scrollPosition);
    IntToText(ym.year) + "年" + IntToText(ym.month) + "月"
  }

  predicate AllDigits(s: string)
  {
    forall i :: 0 <= i < |s| ==> '0' <= s[i] <= '9'
  }

  /** Where the shorter digit string ends, the two texts hold the separator and a digit. */
  lemma SeparatorAt(a1: string, a2: string, sep: char, r1: string, r2: string)
    requires |a1| < |a2|
    ensures (a1 + [sep] + r1)[|a1|] == sep && (a2 + [sep] + r2)[|a1|] == a2[|a1|]
  {
  }

  /** Two digit strings each followed by the same non-digit: equal texts split at the same place. */
  lemma SplitAfterDigits(a1: string, a2: string, sep: char, r1: string, r2: string)
    requires AllDigits(a1) && AllDigits(a2) && !('0' <= sep <= '9')
    requires a1 + [sep] + r1 == a2 + [sep] + r2
    ensures a1 == a2 && r1 == r2
  {
    var s1, s2 := a1 + [sep] + r1, a2 + [sep] + r2;
    if |a1| < |a2| {
      SeparatorAt(a1, a2, sep, r1, r2);
      assert false;
    } else if |a2| < |a1| {
      SeparatorAt(a2, a1, sep, r2, r1);
      assert false;
    }
    assert a1 == s1[..|a1|] && a2 == s2[..|a2|];
    assert r1 == s1[|a1| + 1..] && r2 == s2[|a2| + 1..];
  }

  /** For non-negative positions the tooltip tells months apart: equal texts exactly for the same 100-unit band. */
  lemma CalculateYearMonthIdentifiesMonth(p: int, q: int)
    requires p >= 0 && q >= 0
    ensures CalculateYearMonth(p) == CalculateYearMonth(q) <==> p / 100 == q / 100
  {
    var a, b := YearMonthAt(p), YearMonthAt(q);
    if CalculateYearMonth(p) == CalculateYearMonth(q) {
      assert a.year >= 2020 && b.year >= 2020;
      var ay, yb, am, bm := NatToText(a.year), NatToText(b.year), NatToText(a.month), NatToText(b.month);
      assert CalculateYearMonth(p) == ay + ['年'] + (am + "月");
      assert CalculateYearMonth(q) == yb + ['年'] + (bm + "月");
      SplitAfterDigits(ay, yb, '年', am + "月", bm + "月");
      assert am == (am + "月")[..|am|] && bm == (bm + "月")[..|bm|];
      NatToTextInjective(a.year, b.year);
      NatToTextInjective(a.month, b.month);
    }
  }

  // ---------------------------------------------------------------------
  // LoadPhotosTask
  // ---------------------------------------------------------------------

  /** One tuple of LoadPhotosTask's result: thumbnail, file, grid cell, capture date and PhotoID. */
  datatype PhotoData = PhotoData(
    thumbnailPath: string, filePath: string, row: int, col: int, captureDate: string, photoId: nat)

  /** The tuple for the photo at `index`: row index // perRow, column index % perRow. */
  function PlacedAt(photo: PhotoRow, index: nat, perRow: int): PhotoData
    requires perRow >= 1
  {
    PhotoData(photo.info.thumbnailPath, photo.info.filePath, index / perRow, index % perRow,
      photo.info.captureTime, photo.photoId)
  }

  /** The tuples for the photos whose thumbnail exists, each at its own index's cell. */
  function Loaded(photos: seq<PhotoRow>, hasThumbnail: string -> bool, perRow: int): seq<PhotoData>
    requires perRow >= 1
    decreases |photos|
  {
    if photos == [] then []
    else
      var last := photos[|photos| - 1];
      Loaded(photos[..|photos| - 1], hasThumbnail, perRow)
        + (if hasThumbnail(last.info.thumbnailPath) then [PlacedAt(last, |photos| - 1, perRow)] else [])
  }

  /** The index a cell stands for, in reading order. */
  function Slot(d: PhotoData, perRow: int): int
  {
    d.row * perRow + d.col
  }

  /** The tuple d is the one built for the photo at d's own slot, whose thumbnail exists. */
  ghost predicate LoadedFrom(d: PhotoData, photos: seq<PhotoRow>, hasThumbnail: string -> bool, perRow: int)
    requires perRow >= 1
  {
    && 0 <= d.col < perRow
    && 0 <= Slot(d, perRow) < |photos|
    && d == PlacedAt(photos[Slot(d, perRow)], Slot(d, perRow), perRow)
    && hasThumbnail(d.thumbnailPath)
  }

  lemma PlacedAtHasItsSlot(photo: PhotoRow, index: nat, perRow: int)
    requires perRow >= 1
    ensures Slot(PlacedAt(photo, index, perRow), perRow) == index
    ensures 0 <= PlacedAt(photo, index, perRow).col < perRow
  {
  }

  /**
   * Each loaded tuple is the photo at its cell's index, whose thumbnail
   * exists, in a column below perRow; the cells are in strictly increasing
   * reading order (so none is shared), and every photo with a thumbnail has
   * its tuple.  Slots of photos without a thumbnail are left empty.
   */
  lemma {:induction false} LoadedPlacesByIndex(photos: seq<PhotoRow>, hasThumbnail: string -> bool, perRow: int)
    requires perRow >= 1
    ensures forall d :: d in Loaded(photos, hasThumbnail, perRow) ==> LoadedFrom(d, photos, hasThumbnail, perRow)
    ensures forall a, b :: 0 <= a < b < |Loaded(photos, hasThumbnail, perRow)| ==>
      Slot(Loaded(photos, hasThumbnail, perRow)[a], perRow) < Slot(Loaded(photos, hasThumbnail, perRow)[b], perRow)
    ensures forall i :: 0 <= i < |photos| && hasThumbnail(photos[i].info.thumbnailPath) ==>
      PlacedAt(photos[i], i, perRow) in Loaded(photos, hasThumbnail, perRow)
    decreases |photos|
  {
    if photos != [] {
      var n := |photos| - 1;
      var init := photos[..n];
      LoadedPlacesByIndex(init, hasThumbnail, perRow);
      var r0 := Loaded(init, hasThumbnail, perRow);
      var d := PlacedAt(photos[n], n, perRow);
      PlacedAtHasItsSlot(photos[n], n, perRow);
      var r := r0 + (if hasThumbnail(photos[n].info.thumbnailPath) then [d] else []);
      assert r == Loaded(photos, hasThumbnail, perRow);
      forall e | e in r0 ensures LoadedFrom(e, photos, hasThumbnail, perRow) && Slot(e, perRow) < n {
        assert LoadedFrom(e, init, hasThumbnail, perRow);
        assert photos[Slot(e, perRow)] == init[Slot(e, perRow)];
      }
      forall a, b | 0 <= a < b < |r| ensures Slot(r[a], perRow) < Slot(r[b], perRow) {
        assert r[a] == r0[a] && r0[a] in r0;
        if b < |r0| {
          assert r[b] == r0[b];
          assert Slot(r0[a], perRow) < Slot(r0[b], perRow);
        } else {
          assert r[b] == d;
          assert Slot(r0[a], perRow) < n;
        }
      }
      forall i | 0 <= i < n && hasThumbnail(photos[i].info.thumbnailPath)
        ensures PlacedAt(photos[i], i, perRow) in r
      {
        assert photos[i] == init[i];
      }
    }
  }

  /** LoadPhotosTask: the task's own query result and the row width it was given. */
  class LoadPhotosTask {
    const photoWidthWithPadding: int
    const photosPerRow: int

    ghost predicate Valid()
      reads this
    {
      photosPerRow >= 1
    }

    /** Its only caller passes calculate_photos_per_row(), which is at least one. */
    constructor (photoWidthWithPadding: int, photosPerRow: int)
      requires photosPerRow >= 1
      ensures Valid()
      ensures this.photoWidthWithPadding == photoWidthWithPadding && this.photosPerRow == photosPerRow
    {
      this.photoWidthWithPadding := photoWidthWithPadding;
      this.photosPerRow := photosPerRow;
    }

    /**
     * run: `photos` is what query_all_photo_info returned on the task's own
     * connection.  Iterating None raises a TypeError that run catches, so no
     * result is emitted (None here).
     */
    method Run(photos: Option<seq<PhotoRow>>, hasThumbnail: string -> bool) returns (photoData: Option<seq<PhotoData>>)
      requires Valid()
      ensures photoData == if photos.None? then None else Some(Loaded(photos.value, hasThumbnail, photosPerRow))
    {
      if photos.None? {
        return None;
      }
      var all := photos.value;
      var collected := [];
      var index := 0;
      while index < |all|
        invariant 0 <= index <= |all|
        invariant collected == Loaded(all[..index], hasThumbnail, photosPerRow)
      {
        var photo := all[index];
        assert all[..index + 1][..index] == all[..index];
        if hasThumbnail(photo.info.thumbnailPath) {
          var row := index / photosPerRow;
          var col := index % photosPerRow;
          collected := collected + [PhotoData(photo.info.thumbnailPath, photo.info.filePath, row, col,
            photo.info.captureTime, photo.photoId)];
        }
        index := index + 1;
      }
      assert all[..index] == all;
      return Some(collected);
    }
  }

  // ---------------------------------------------------------------------
  // The grouped grid of sort_photos_by_date and sort_photos_by_person
  // ---------------------------------------------------------------------

  /** What a group is keyed on: the formatted month, or the FaceID of the link. */
  datatype GroupKey = MonthKey(month: string) | FaceKey(faceId: int)

  /** One photo as the sorting loops see it: its group, the header text for that group, and the thumbnail. */
  datatype GridEntry = GridEntry(key: GroupKey, caption: string, thumbnailPath: string, filePath: string, photoId: nat)

  /**
   * A widget of photo_layout: a group header at column 0 of its row, one row
   * high and `span` columns wide, or a thumbnail in one cell.
   */
  datatype Cell =
    | Header(key: GroupKey, caption: string, row: nat, span: int)
    | Thumb(thumbnailPath: string, filePath: string, photoId: nat, row: nat, col: nat)

  /** The loop state: the next free cell, the current group, and the widgets placed so far. */
  datatype Grid = Grid(row: nat, col: nat, current: Option<GroupKey>, cells: seq<Cell>)

  /** A new group closes a partly filled row, puts its header on a row of its own and starts the next row. */
  function OpenGroup(g: Grid, e: GridEntry, perRow: int): Grid
  {
    if g.current == Some(e.key) then g
    else
      var row := if g.col != 0 then g.row + 1 else g.row;
      Grid(row + 1, 0, Some(e.key), g.cells + [Header(e.key, e.caption, row, perRow)])
  }

  /** A thumbnail that exists takes the next cell; a full row moves on to column 0 of the next one. */
  function PlaceThumb(g: Grid, e: GridEntry, exists_: bool, perRow: int): Grid
  {
    if !exists_ then g
    else
      var cells := g.cells + [Thumb(e.thumbnailPath, e.filePath, e.photoId, g.row, g.col)];
      if g.col + 1 >= perRow then Grid(g.row + 1, 0, g.current, cells)
      else Grid(g.row, g.col + 1, g.current, cells)
  }

  /** One iteration of either sorting loop. */
  function Place(g: Grid, e: GridEntry, hasThumbnail: string -> bool, perRow: int): Grid
  {
    PlaceThumb(OpenGroup(g, e, perRow), e, hasThumbnail(e.thumbnailPath), perRow)
  }

  /** The grid after the loop has placed `entries` in order, from row 0, column 0 and no group. */
  function Layout(entries: seq<GridEntry>, hasThumbnail: string -> bool, perRow: int): Grid
    decreases |entries|
  {
    if entries == [] then Grid(0, 0, None, [])
    else Place(Layout(entries[..|entries| - 1], hasThumbnail, perRow), entries[|entries| - 1], hasThumbnail, perRow)
  }

  lemma LayoutNext(entries: seq<GridEntry>, i: nat, hasThumbnail: string -> bool, perRow: int)
    requires i < |entries|
    ensures Layout(entries[..i + 1], hasThumbnail, perRow)
         == Place(Layout(entries[..i], hasThumbnail, perRow), entries[i], hasThumbnail, perRow)
  {
    assert entries[..i + 1][..i] == entries[..i];
  }

  /** Cell a comes strictly before cell b in reading order, and they share no grid cell. */
  predicate CellBefore(a: Cell, b: Cell)
  {
    a.row < b.row || (a.row == b.row && a.Thumb? && b.Thumb? && a.col < b.col)
  }

  /** Cell c lies before the next free cell (row, col). */
  predicate BeforeCursor(c: Cell, row: nat, col: nat)
  {
    c.row < row || (c.row == row && c.Thumb? && c.col < col)
  }

  /** The grid invariant of both loops. */
  ghost predicate Arranged(g: Grid, perRow: int)
  {
    && g.col < perRow
    && (forall i :: 0 <= i < |g.cells| ==> BeforeCursor(g.cells[i], g.row, g.col))
    && (forall i :: 0 <= i < |g.cells| && g.cells[i].Thumb? ==> g.cells[i].col < perRow)
    && (forall i, j :: 0 <= i < j < |g.cells| ==> CellBefore(g.cells[i], g.cells[j]))
  }

  lemma OpenGroupKeepsArranged(g: Grid, e: GridEntry, perRow: int)
    requires Arranged(g, perRow)
    ensures Arranged(OpenGroup(g, e, perRow), perRow)
    ensures OpenGroup(g, e, perRow).row >= g.row
  {
    if g.current != Some(e.key) {
      var g' := OpenGroup(g, e, perRow);
      var h := g'.cells[|g.cells|];
      assert forall i :: 0 <= i < |g.cells| ==> g'.cells[i] == g.cells[i];
      assert forall i :: 0 <= i < |g.cells| ==> g.cells[i].row < h.row;
    }
  }

  lemma PlaceThumbKeepsArranged(g: Grid, e: GridEntry, exists_: bool, perRow: int)
    requires Arranged(g, perRow)
    ensures Arranged(PlaceThumb(g, e, exists_, perRow), perRow)
    ensures PlaceThumb(g, e, exists_, perRow).row >= g.row
  {
    if exists_ {
      var g' := PlaceThumb(g, e, exists_, perRow);
      assert forall i :: 0 <= i < |g.cells| ==> g'.cells[i] == g.cells[i];
    }
  }

  /**
   * The grid both loops build is arranged: the next column stays below
   * perRow, every thumbnail sits in a column below perRow, and the widgets
   * are in strictly increasing reading order with each header alone on its
   * row, so no two widgets share a cell and rows never go back.
   */
  lemma {:induction false} LayoutIsArranged(entries: seq<GridEntry>, hasThumbnail: string -> bool, perRow: int)
    requires perRow >= 1
    ensures Arranged(Layout(entries, hasThumbnail, perRow), perRow)
    decreases |entries|
  {
    if entries != [] {
      var e := entries[|entries| - 1];
      var g := Layout(entries[..|entries| - 1], hasThumbnail, perRow);
      LayoutIsArranged(entries[..|entries| - 1], hasThumbnail, perRow);
      OpenGroupKeepsArranged(g, e, perRow);
      PlaceThumbKeepsArranged(OpenGroup(g, e, perRow), e, hasThumbnail(e.thumbnailPath), perRow);
    }
  }

  /** The group keys of a key sequence with consecutive repeats collapsed: one per run. */
  function Runs(keys: seq<GroupKey>): seq<GroupKey>
    decreases |keys|
  {
    if keys == [] then []
    else
      var init, last := keys[..|keys| - 1], keys[|keys| - 1];
      Runs(init) + (if init != [] && init[|init| - 1] == last then [] else [last])
  }

  function Keys(entries: seq<GridEntry>): (keys: seq<GroupKey>)
    ensures |keys| == |entries| && forall i :: 0 <= i < |entries| ==> keys[i] == entries[i].key
  {
    seq(|entries|, i requires 0 <= i < |entries| => entries[i].key)
  }

  /** The keys of the header cells, in order. */
  function HeaderKeys(cells: seq<Cell>): seq<GroupKey>
    decreases |cells|
  {
    if cells == [] then []
    else
      var last := cells[|cells| - 1];
      HeaderKeys(cells[..|cells| - 1]) + (if last.Header? then [last.key] else [])
  }

  lemma HeaderKeysSnoc(cells: seq<Cell>, c: Cell)
    ensures HeaderKeys(cells + [c]) == HeaderKeys(cells) + (if c.Header? then [c.key] else [])
  {
    assert (cells + [c])[..|cells|] == cells;
  }

  /** One iteration adds a header exactly when the key changes, and makes the entry's key current. */
  lemma PlaceAddsHeaderOnChange(g: Grid, e: GridEntry, hasThumbnail: string -> bool, perRow: int)
    ensures HeaderKeys(Place(g, e, hasThumbnail, perRow).cells)
         == HeaderKeys(g.cells) + (if g.current == Some(e.key) then [] else [e.key])
    ensures Place(g, e, hasThumbnail, perRow).current == Some(e.key)
  {
    var g1 := OpenGroup(g, e, perRow);
    if g.current != Some(e.key) {
      HeaderKeysSnoc(g.cells, Header(e.key, e.caption, g1.cells[|g.cells|].row, perRow));
    }
    if hasThumbnail(e.thumbnailPath) {
      HeaderKeysSnoc(g1.cells, Thumb(e.thumbnailPath, e.filePath, e.photoId, g1.row, g1.col));
    }
  }

  lemma RunsNext(entries: seq<GridEntry>)
    requires entries != []
    ensures var n := |entries| - 1;
      Runs(Keys(entries)) == Runs(Keys(entries[..n]))
        + (if n > 0 && entries[n - 1].key == entries[n].key then [] else [entries[n].key])
  {
    assert Keys(entries)[..|entries| - 1] == Keys(entries[..|entries| - 1]);
  }

  /**
   * A header is emitted exactly when an entry's key differs from the one
   * before it: the header keys are the keys with repeats collapsed, whether
   * or not the thumbnails exist, and the current group is the last key.
   */
  lemma {:induction false} LayoutHeadersAreRuns(entries: seq<GridEntry>, hasThumbnail: string -> bool, perRow: int)
    ensures var g := Layout(entries, hasThumbnail, perRow);
      && HeaderKeys(g.cells) == Runs(Keys(entries))
      && g.current == if entries == [] then None else Some(entries[|entries| - 1].key)
    decreases |entries|
  {
    if entries != [] {
      var n := |entries| - 1;
      var init := entries[..n];
      LayoutHeadersAreRuns(init, hasThumbnail, perRow);
      assert Layout(entries, hasThumbnail, perRow) == Place(Layout(init, hasThumbnail, perRow), entries[n], hasThumbnail, perRow);
      PlaceAddsHeaderOnChange(Layout(init, hasThumbnail, perRow), entries[n], hasThumbnail, perRow);
      RunsNext(entries);
      if n > 0 {
        assert init[n - 1] == entries[n - 1];
      }
    }
  }

  /** What a thumbnail widget shows: its thumbnail, the file it opens and the PhotoID. */
  datatype Picture = Picture(thumbnailPath: string, filePath: string, photoId: nat)

  /** The pictures of the thumbnail cells, in order. */
  function Pictures(cells: seq<Cell>): seq<Picture>
    decreases |cells|
  {
    if cells == [] then []
    else
      var last := cells[|cells| - 1];
      Pictures(cells[..|cells| - 1])
        + (if last.Thumb? then [Picture(last.thumbnailPath, last.filePath, last.photoId)] else [])
  }

  /** The pictures of the entries whose thumbnail file exists, in order. */
  function Shown(entries: seq<GridEntry>, hasThumbnail: string -> bool): seq<Picture>
    decreases |entries|
  {
    if entries == [] then []
    else
      var e := entries[|entries| - 1];
      Shown(entries[..|entries| - 1], hasThumbnail)
        + (if hasThumbnail(e.thumbnailPath) then [Picture(e.thumbnailPath, e.filePath, e.photoId)] else [])
  }

  lemma PicturesSnoc(cells: seq<Cell>, c: Cell)
    ensures Pictures(cells + [c]) == Pictures(cells) + (if c.Thumb? then [Picture(c.thumbnailPath, c.filePath, c.photoId)] else [])
  {
    assert (cells + [c])[..|cells|] == cells;
  }

  /** One iteration adds a thumbnail widget exactly when the entry's thumbnail exists. */
  lemma PlaceShowsExistingThumbnail(g: Grid, e: GridEntry, hasThumbnail: string -> bool, perRow: int)
    ensures Pictures(Place(g, e, hasThumbnail, perRow).cells)
         == Pictures(g.cells) + (if hasThumbnail(e.thumbnailPath) then [Picture(e.thumbnailPath, e.filePath, e.photoId)] else [])
  {
    var g1 := OpenGroup(g, e, perRow);
    if g.current != Some(e.key) {
      PicturesSnoc(g.cells, Header(e.key, e.caption, g1.cells[|g.cells|].row, perRow));
    }
    if hasThumbnail(e.thumbnailPath) {
      PicturesSnoc(g1.cells, Thumb(e.thumbnailPath, e.filePath, e.photoId, g1.row, g1.col));
    }
  }

  /** Exactly the entries whose thumbnail exists get a thumbnail widget, in the sorted order. */
  lemma {:induction false} LayoutShowsExistingThumbnails(entries: seq<GridEntry>, hasThumbnail: string -> bool, perRow: int)
    ensures Pictures(Layout(entries, hasThumbnail, perRow).cells) == Shown(entries, hasThumbnail)
    decreases |entries|
  {
    if entries != [] {
      var n := |entries| - 1;
      var init := entries[..n];
      LayoutShowsExistingThumbnails(init, hasThumbnail, perRow);
      assert Layout(entries, hasThumbnail, perRow) == Place(Layout(init, hasThumbnail, perRow), entries[n], hasThumbnail, perRow);
      PlaceShowsExistingThumbnail(Layout(init, hasThumbnail, perRow), entries[n], hasThumbnail, perRow);
    }
  }

  // ---------------------------------------------------------------------
  // The two groupings
  // ---------------------------------------------------------------------

  /** The header text for a capture date: characters 0-3, 年, characters 5-6 of its first seven, 月. */
  function FormatMonth(captureDate: string): string
  {
    var photoMonth := Slice(captureDate, 0, 7);
    Slice(photoMonth, 0, 4) + "年" + Slice(photoMonth, 5, 7) + "月"
  }

  /**
   * On dates of at least seven characters two dates fall in the same month
   * group exactly when characters 0-3 and 5-6 agree; character 4 (the '-'
   * of YYYY-MM) is not compared.
   */
  lemma FormatMonthComparesYearAndMonth(d1: string, d2: string)
    requires |d1| >= 7 && |d2| >= 7
    ensures FormatMonth(d1) == FormatMonth(d2) <==> d1[..4] == d2[..4] && d1[5..7] == d2[5..7]
  {
    var f1, f2 := FormatMonth(d1), FormatMonth(d2);
    assert f1 == d1[..4] + "年" + d1[5..7] + "月";
    assert f2 == d2[..4] + "年" + d2[5..7] + "月";
    if f1 == f2 {
      assert d1[..4] == f1[..4] && d2[..4] == f2[..4];
      assert d1[5..7] == f1[5..7] && d2[5..7] == f2[5..7];
    }
  }

  /** sort_photos_by_date sorts on CaptureTime (column 4) as text. */
  function CaptureKey(photo: PhotoRow): SortKey
  {
    TextKey(photo.info.captureTime)
  }

  /** The photo as the date loop sees it: grouped and labelled by its formatted month. */
  function DateEntry(photo: PhotoRow): GridEntry
  {
    var month := FormatMonth(photo.info.captureTime);
    GridEntry(MonthKey(month), month, photo.info.thumbnailPath, photo.info.filePath, photo.photoId)
  }

  function DateEntries(photos: seq<PhotoRow>): (entries: seq<GridEntry>)
    ensures |entries| == |photos| && forall i :: 0 <= i < |photos| ==> entries[i] == DateEntry(photos[i])
  {
    seq(|photos|, i requires 0 <= i < |photos| => DateEntry(photos[i]))
  }

  /** sort_photos_by_person sorts on PhotoFaceLink.FaceID (column 14). */
  function FaceIdKey(row: JoinedRow): SortKey
  {
    IdKey(row.link.faceId)
  }

  /** The joined row as the person loop sees it: grouped by FaceID, labelled with FaceLabel (column 17). */
  function PersonEntry(row: JoinedRow): GridEntry
  {
    GridEntry(FaceKey(row.link.faceId), row.face.faceLabel,
      row.photo.info.thumbnailPath, row.photo.info.filePath, row.photo.photoId)
  }

  function PersonEntries(rows: seq<JoinedRow>): (entries: seq<GridEntry>)
    ensures |entries| == |rows| && forall i :: 0 <= i < |rows| ==> entries[i] == PersonEntry(rows[i])
  {
    seq(|rows|, i requires 0 <= i < |rows| => PersonEntry(rows[i]))
  }

  /** The main window's album state and the grid it shows. */
  class PhotoAlbum {
    const db: PhotoDatabase
    /** Shared by both sort buttons; each press flips it and sorts with reverse equal to the new value. */
    var isDateSortAscending: bool
    /** Whether the scroll tooltip shows the year and month. */
    var showYearMonthInfo: bool
    /** The widgets of photo_layout with their grid positions. */
    var photoLayout: seq<Cell>

    constructor (db: PhotoDatabase)
      ensures this.db == db
      ensures isDateSortAscending && !showYearMonthInfo && photoLayout == []
    {
      this.db := db;
      isDateSortAscending := true;
      showYearMonthInfo := false;
      photoLayout := [];
    }

    /**
     * One pass of the loop in sort_photos_by_date: a header when the month
     * changes, then the thumbnail if its file exists.
     */
    method AddDatePhoto(photo: PhotoRow, hasThumbnail: string -> bool, perRow: int,
                        row: nat, col: nat, currentMonth: Option<GroupKey>)
      returns (row': nat, col': nat, currentMonth': Option<GroupKey>)
      modifies this
      ensures isDateSortAscending == old(isDateSortAscending) && showYearMonthInfo == old(showYearMonthInfo)
      ensures Grid(row', col', currentMonth', photoLayout)
           == Place(Grid(row, col, currentMonth, old(photoLayout)), DateEntry(photo), hasThumbnail, perRow)
    {
      row', col', currentMonth' := row, col, currentMonth;
      var formattedMonth := FormatMonth(photo.info.captureTime);
      if currentMonth' != Some(MonthKey(formattedMonth)) {
        if col' != 0 {
          row' := row' + 1;
          col' := 0;
        }
        photoLayout := photoLayout + [Header(MonthKey(formattedMonth), formattedMonth, row', perRow)];
        row' := row' + 1;
        currentMonth' := Some(MonthKey(formattedMonth));
        col' := 0;
      }
      if hasThumbnail(photo.info.thumbnailPath) {
        photoLayout := photoLayout + [Thumb(photo.info.thumbnailPath, photo.info.filePath, photo.photoId, row', col')];
        col' := col' + 1;
        if col' >= perRow {
          row' := row' + 1;
          col' := 0;
        }
      }
    }

    /**
     * sort_photos_by_date.  Without a connection the query returns None and
     * None.sort raises: the flag has already flipped and nothing else changes.
     * calculate_photos_per_row() is evaluated once, as the width does not
     * change during the call.
     */
    method SortPhotosByDate(width: int, hasThumbnail: string -> bool)
      requires db.Valid()
      modifies this, db
      ensures db.Valid() && db.connected == old(db.connected) && db.State() == old(db.State())
      ensures isDateSortAscending == !old(isDateSortAscending)
      ensures db.connected ==>
        && photoLayout == Layout(DateEntries(SortBy(db.photos, CaptureKey, isDateSortAscending)),
                                 hasThumbnail, PhotosPerRow(width)).cells
        && showYearMonthInfo
      ensures !db.connected ==> photoLayout == old(photoLayout) && showYearMonthInfo == old(showYearMonthInfo)
    {
      isDateSortAscending := !isDateSortAscending;
      var photos := db.QueryAllPhotoInfo();
      if photos.None? {
        return;
      }
      var sorted := SortBy(photos.value, CaptureKey, isDateSortAscending);
      ghost var entries := DateEntries(sorted);
      var perRow := PhotosPerRow(width);
      photoLayout := [];
      var currentMonth: Option<GroupKey> := None;
      var row: nat, col: nat := 0, 0;
      var index := 0;
      while index < |sorted|
        modifies this
        invariant isDateSortAscending == !old(isDateSortAscending) && showYearMonthInfo == old(showYearMonthInfo)
        invariant 0 <= index <= |sorted|
        invariant Grid(row, col, currentMonth, photoLayout) == Layout(entries[..index], hasThumbnail, perRow)
      {
        LayoutNext(entries, index, hasThumbnail, perRow);
        assert entries[index] == DateEntry(sorted[index]);
        row, col, currentMonth := AddDatePhoto(sorted[index], hasThumbnail, perRow, row, col, currentMonth);
        index := index + 1;
      }
      assert entries[..index] == entries;
      showYearMonthInfo := true;
    }

    /**
     * One pass of the loop in sort_photos_by_person: a header when the
     * FaceID changes, then the thumbnail if its file exists.
     */
    method AddPersonPhoto(photo: JoinedRow, hasThumbnail: string -> bool, perRow: int,
                          row: nat, col: nat, currentFaceId: Option<GroupKey>)
      returns (row': nat, col': nat, currentFaceId': Option<GroupKey>)
      modifies this
      ensures isDateSortAscending == old(isDateSortAscending) && showYearMonthInfo == old(showYearMonthInfo)
      ensures Grid(row', col', currentFaceId', photoLayout)
           == Place(Grid(row, col, currentFaceId, old(photoLayout)), PersonEntry(photo), hasThumbnail, perRow)
    {
      row', col', currentFaceId' := row, col, currentFaceId;
      var captureFaceId := photo.link.faceId;
      if currentFaceId' != Some(FaceKey(captureFaceId)) {
        currentFaceId' := Some(FaceKey(captureFaceId));
        if col' != 0 {
          row' := row' + 1;
          col' := 0;
        }
        photoLayout := photoLayout + [Header(FaceKey(captureFaceId), photo.face.faceLabel, row', perRow)];
        row' := row' + 1;
        col' := 0;
      }
      if hasThumbnail(photo.photo.info.thumbnailPath) {
        photoLayout := photoLayout + [Thumb(photo.photo.info.thumbnailPath, photo.photo.info.filePath, photo.photo.photoId, row', col')];
        col' := col' + 1;
        if col' >= perRow {
          row' := row' + 1;
          col' := 0;
        }
      }
    }

    /**
     * sort_photos_by_person: the same grid over the photo-link-face join,
     * grouped by FaceID; it leaves the tooltip setting alone.
     */
    method SortPhotosByPerson(width: int, hasThumbnail: string -> bool)
      requires db.Valid()
      modifies this, db
      ensures db.Valid() && db.connected == old(db.connected) && db.State() == old(db.State())
      ensures isDateSortAscending == !old(isDateSortAscending)
      ensures showYearMonthInfo == old(showYearMonthInfo)
      ensures db.connected ==>
        photoLayout == Layout(PersonEntries(SortBy(JoinPhotos(db.photos, db.links, db.faces), FaceIdKey, isDateSortAscending)),
                              hasThumbnail, PhotosPerRow(width)).cells
      ensures !db.connected ==> photoLayout == old(photoLayout)
    {
      isDateSortAscending := !isDateSortAscending;
      var photos := db.QueryAllPhotoInfoFace();
      if photos.None? {
        return;
      }
      assert photos.value == JoinPhotos(db.photos, db.links, db.faces);
      var sorted := SortBy(photos.value, FaceIdKey, isDateSortAscending);
      ghost var entries := PersonEntries(sorted);
      var perRow := PhotosPerRow(width);
      photoLayout := [];
      var row: nat, col: nat := 0, 0;
      var currentFaceId: Option<GroupKey> := None;
      var index := 0;
      while index < |sorted|
        modifies this
        invariant isDateSortAscending == !old(isDateSortAscending) && showYearMonthInfo == old(showYearMonthInfo)
        invariant 0 <= index <= |sorted|
        invariant Grid(row, col, currentFaceId, photoLayout) == Layout(entries[..index], hasThumbnail, perRow)
      {
        LayoutNext(entries, index, hasThumbnail, perRow);
        assert entries[index] == PersonEntry(sorted[index]);
        row, col, currentFaceId := AddPersonPhoto(sorted[index], hasThumbnail, perRow, row, col, currentFaceId);
        index := index + 1;
      }
      assert entries[..index] == entries;
    }
  }
}
