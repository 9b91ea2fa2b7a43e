/** Detector geometry: named rectangular regions of a full EXCAM frame, cut
    out with Python slice semantics, and the imaging area derived from the
    prescan and overscan regions. */
module Geometry {
  import opened Base

  /** One region of the frame: its size and its upper-left corner (r0c0). */
  datatype Section = Section(rows: int, cols: int, r0: int, c0: int)

  /** The geometry of one observation type as read from the metadata file. */
  datatype Metadata = Metadata(frameRows: int, frameCols: int, geom: map<string, Section>)

  datatype GeometryError =
    | MissingKey(key: string)  // KeyError from the geom dictionary
    | CornersInvalid           // ReadMetadataException: the section is empty

  /** Python's normalisation of one slice bound against a length n (step 1):
      negative bounds count from the end, and both ends clip to [0, n]. */
  function Bound(i: int, n: nat): nat {
    if i < 0 then (if i + n < 0 then 0 else i + n)
    else if i > n then n
    else i
  }

  /** The half-open index range [lo, hi) selected by a slice. */
  datatype Span = Span(lo: nat, hi: nat) {
    function Len(): nat
      requires lo <= hi
    {
      hi - lo
    }

    predicate Contains(k: int) {
      lo <= k < hi
    }
  }

  /** The indices that x[start:stop] selects from a sequence of length n. */
  function PySlice(start: int, stop: int, n: nat): (s: Span)
    ensures s.lo <= s.hi <= n
    ensures 0 <= start <= stop <= n ==> s == Span(start, stop)
    ensures 0 <= stop <= start ==> s.Len() == 0
    ensures forall k :: s.Contains(k) <==>
      && 0 <= k < n
      && k >= (if start < 0 then n + start else start)
      && k < (if stop < 0 then n + stop else stop)
  {
    var lo := Bound(start, n);
    var hi := Bound(stop, n);
    if hi < lo then Span(lo, lo) else Span(lo, hi)
  }

  /** frame[r0:r1, c0:c1] for a frame of h rows and w columns. */
  function Slice2<T>(frame: seq<seq<T>>, r0: int, r1: int, c0: int, c1: int, h: nat, w: nat)
    : (s: seq<seq<T>>)
    requires IsRect(frame, h, w)
    ensures var rs := PySlice(r0, r1, h); var cs := PySlice(c0, c1, w);
      && IsRect(s, rs.Len(), cs.Len())
      && forall i, j :: 0 <= i < rs.Len() && 0 <= j < cs.Len() ==> s[i][j] == frame[rs.lo + i][cs.lo + j]
  {
    var rs := PySlice(r0, r1, h);
    var cs := PySlice(c0, c1, w);
    seq(rs.Len(), i requires 0 <= i < rs.Len() => frame[rs.lo + i][cs.lo..cs.hi])
  }

  /** _unpack_geom: rows, cols and r0c0 of a named region. */
  function UnpackGeom(meta: Metadata, key: string): (r: Result<Section, GeometryError>)
    ensures r.Ok? <==> key in meta.geom
    ensures r.Ok? ==> r.value == meta.geom[key]
    ensures r.Err? ==> r.error == MissingKey(key)
  {
    if key in meta.geom then Ok(meta.geom[key]) else Err(MissingKey(key))
  }

  /** The row and column spans a section selects from an h-by-w frame. */
  function RowSpan(sec: Section, h: nat): Span {
    PySlice(sec.r0, sec.r0 + sec.rows, h)
  }

  function ColSpan(sec: Section, w: nat): Span {
    PySlice(sec.c0, sec.c0 + sec.cols, w)
  }

  /** slice_section: cut a named region out of the frame, raising when the
      cut is empty. */
  function SliceSection<T>(meta: Metadata, frame: seq<seq<T>>, key: string, h: nat, w: nat)
    : (r: Result<seq<seq<T>>, GeometryError>)
    requires IsRect(frame, h, w)
    ensures key !in meta.geom ==> r == Err(MissingKey(key))
    ensures key in meta.geom ==>
      var sec := meta.geom[key];
      var rs := RowSpan(sec, h);
      var cs := ColSpan(sec, w);
      && (r == Err(CornersInvalid) <==> rs.Len() == 0 || cs.Len() == 0)
      && (r.Ok? <==> rs.Len() > 0 && cs.Len() > 0)
      && (r.Ok? ==> IsRect(r.value, rs.Len(), cs.Len())
                    && forall i, j :: 0 <= i < rs.Len() && 0 <= j < cs.Len() ==>
                         r.value[i][j] == frame[rs.lo + i][cs.lo + j])
  {
    var sec :- UnpackGeom(meta, key);
    var section := Slice2(frame, sec.r0, sec.r0 + sec.rows, sec.c0, sec.c0 + sec.cols, h, w);
    var size := RowSpan(sec, h).Len() * ColSpan(sec, w).Len();
    EmptyProduct(RowSpan(sec, h).Len(), ColSpan(sec, w).Len());
    if size == 0 then Err(CornersInvalid) else Ok(section)
  }

  /** A section's size is zero exactly when one of its sides is. */
  lemma EmptyProduct(a: nat, b: nat)
    ensures a * b == 0 <==> a == 0 || b == 0
  {
    if a > 0 && b > 0 {
      assert a * b >= b;
    }
  }

  /** A non-empty section lying inside the frame is cut out exactly:
      rows r0 .. r0+rows-1 and columns c0 .. c0+cols-1, no error. */
  lemma SectionInsideFrame<T>(meta: Metadata, frame: seq<seq<T>>, key: string, h: nat, w: nat)
    requires IsRect(frame, h, w) && key in meta.geom
    requires var sec := meta.geom[key];
      0 <= sec.r0 && 0 < sec.rows && sec.r0 + sec.rows <= h &&
      0 <= sec.c0 && 0 < sec.cols && sec.c0 + sec.cols <= w
    ensures var sec := meta.geom[key];
      var r := SliceSection(meta, frame, key, h, w);
      && r.Ok?
      && IsRect(r.value, sec.rows, sec.cols)
      && forall i, j :: 0 <= i < sec.rows && 0 <= j < sec.cols ==> r.value[i][j] == frame[sec.r0 + i][sec.c0 + j]
  {
  }

  /** _imaging_area_geom: the imaging area is the frame less the parallel
      overscan rows and less the prescan and serial-overscan columns; its
      row origin moves up so that it ends on the image's last row. */
  function ImagingAreaGeom(meta: Metadata): (r: Result<Section, GeometryError>)
    ensures r.Ok? <==> "prescan" in meta.geom && "serial_overscan" in meta.geom
                        && "parallel_overscan" in meta.geom && "image" in meta.geom
    ensures r.Ok? ==>
      var image := meta.geom["image"];
      && r.value.rows == meta.frameRows - meta.geom["parallel_overscan"].rows
      && r.value.cols == meta.frameCols - meta.geom["prescan"].cols - meta.geom["serial_overscan"].cols
      && r.value.r0 + r.value.rows == image.r0 + image.rows
      && r.value.c0 == image.c0
  {
    var pre :- UnpackGeom(meta, "prescan");
    var serial :- UnpackGeom(meta, "serial_overscan");
    var parallel :- UnpackGeom(meta, "parallel_overscan");
    var image :- UnpackGeom(meta, "image");
    var rowsIm := meta.frameRows - parallel.rows;
    var colsIm := meta.frameCols - pre.cols - serial.cols;
    Ok(Section(rowsIm, colsIm, image.r0 - (rowsIm - image.rows), image.c0))
  }

  /** imaging_slice: the imaging area cut out of the frame (no emptiness check). */
  function ImagingSlice<T>(meta: Metadata, frame: seq<seq<T>>, h: nat, w: nat)
    : (r: Result<seq<seq<T>>, GeometryError>)
    requires IsRect(frame, h, w)
    ensures r.Ok? <==> ImagingAreaGeom(meta).Ok?
    ensures r.Ok? ==>
      var area := ImagingAreaGeom(meta).value;
      var rs := RowSpan(area, h);
      var cs := ColSpan(area, w);
      && IsRect(r.value, rs.Len(), cs.Len())
      && forall i, j :: 0 <= i < rs.Len() && 0 <= j < cs.Len() ==> r.value[i][j] == frame[rs.lo + i][cs.lo + j]
  {
    var area :- ImagingAreaGeom(meta);
    Ok(Slice2(frame, area.r0, area.r0 + area.rows, area.c0, area.c0 + area.cols, h, w))
  }

  /** The SCI geometry (1200 x 2200 frame). */
  const SciMetadata: Metadata := Metadata(1200, 2200, map[
    "image" := Section(1024, 1024, 13, 1088),
    "prescan" := Section(1200, 1088, 0, 0),
    "prescan_reliable" := Section(1200, 200, 0, 800),
    "parallel_overscan" := Section(163, 1056, 1037, 1088),
    "serial_overscan" := Section(1200, 56, 0, 2144)
  ])

  /** For the SCI geometry the imaging area is the 1037 x 1056 window whose
      upper-left corner is (0, 1088). */
  lemma SciImagingArea()
    ensures ImagingAreaGeom(SciMetadata) == Ok(Section(1037, 1056, 0, 1088))
  {
  }

  /** The SCI imaging slice is that window of the frame. */
  lemma SciImagingSlice<T>(frame: seq<seq<T>>)
    requires IsRect(frame, 1200, 2200)
    ensures var r := ImagingSlice(SciMetadata, frame, 1200, 2200);
      && r.Ok?
      && IsRect(r.value, 1037, 1056)
      && forall i, j :: 0 <= i < 1037 && 0 <= j < 1056 ==> r.value[i][j] == frame[i][1088 + j]
  {
    SciImagingArea();
    InRangeSlice(frame, 0, 1037, 1088, 2144, 1200, 2200);
  }

  /** With in-range bounds, frame[r0:r1, c0:c1] is exactly that window. */
  lemma InRangeSlice<T>(frame: seq<seq<T>>, r0: nat, r1: nat, c0: nat, c1: nat, h: nat, w: nat)
    requires IsRect(frame, h, w) && r0 <= r1 <= h && c0 <= c1 <= w
    ensures var s := Slice2(frame, r0, r1, c0, c1, h, w);
      && IsRect(s, r1 - r0, c1 - c0)
      && forall i, j :: 0 <= i < r1 - r0 && 0 <= j < c1 - c0 ==> s[i][j] == frame[r0 + i][c0 + j]
  {
    assert PySlice(r0, r1, h) == Span(r0, r1);
    assert PySlice(c0, c1, w) == Span(c0, c1);
  }
}
