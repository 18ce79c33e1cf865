/** Video frames as row-major pixel grids, and numpy's two-dimensional slicing of them. */
module Frames {
  /** One BGR pixel. */
  datatype Pixel = Pixel(b: int, g: int, r: int)

  /** A frame of `|rows|` rows of `width` pixels each (a `(height, width, 3)` array). */
  datatype Frame = Frame(width: nat, rows: seq<seq<Pixel>>)

  /** Every row has the frame's width. */
  predicate WellFormed(f: Frame)
  {
    forall i :: 0 <= i < |f.rows| ==> |f.rows[i]| == f.width
  }

  function Height(f: Frame): nat { |f.rows| }

  /** Colour channels per pixel. */
  const Channels: nat := 3

  /** numpy's `.size`: the number of elements of the `(height, width, 3)` array. */
  function Size(f: Frame): nat
  {
    Height(f) * f.width * Channels
  }

  /** A frame has no elements exactly when it has no rows or no columns. */
  lemma SizeZeroIff(f: Frame)
    ensures Size(f) == 0 <==> Height(f) == 0 || f.width == 0
  {
    if Height(f) > 0 && f.width > 0 {
      assert Height(f) * f.width > 0;
    }
  }

  /** Python's normalisation of one bound of a slice with step 1 over `n` elements. */
  function ClipIndex(i: int, n: nat): (r: nat)
    ensures r <= n
    ensures 0 <= i <= n ==> r == i
    ensures i < 0 && -i <= n ==> r == n + i
    ensures i + n < 0 ==> r == 0
    ensures n < i ==> r == n
  {
    if i < 0 then (if i + n < 0 then 0 else i + n) else if i >= n then n else i
  }

  /** The number of elements `s[start:stop]` keeps out of `n`. */
  function SliceLength(start: int, stop: int, n: nat): nat
  {
    var lo, hi := ClipIndex(start, n), ClipIndex(stop, n);
    if hi <= lo then 0 else hi - lo
  }

  /** Python's `s[start:stop]`: negative bounds count from the end, out-of-range bounds are cut, a crossed range is empty. */
  function Slice<T>(s: seq<T>, start: int, stop: int): (r: seq<T>)
    ensures |r| == SliceLength(start, stop, |s|)
    ensures 0 <= start <= stop <= |s| ==> r == s[start..stop]
  {
    var lo, hi := ClipIndex(start, |s|), ClipIndex(stop, |s|);
    if hi <= lo then [] else s[lo..hi]
  }

  /** `frame[top:bottom, left:right]`. */
  function Crop(f: Frame, top: int, bottom: int, left: int, right: int): (r: Frame)
    requires WellFormed(f)
    ensures WellFormed(r)
    ensures Height(r) == SliceLength(top, bottom, Height(f))
    ensures r.width == SliceLength(left, right, f.width)
  {
    var rows := Slice(f.rows, top, bottom);
    Frame(SliceLength(left, right, f.width), seq(|rows|, i requires 0 <= i < |rows| => Slice(rows[i], left, right)))
  }

  /** A crop whose bounds lie inside the frame has `bottom - top` rows and `right - left` columns, and
      holds the frame's pixels from row `top` and column `left` on. */
  lemma CropWithin(f: Frame, top: int, bottom: int, left: int, right: int)
    requires WellFormed(f)
    requires 0 <= top <= bottom <= Height(f) && 0 <= left <= right <= f.width
    ensures Height(Crop(f, top, bottom, left, right)) == bottom - top
    ensures Crop(f, top, bottom, left, right).width == right - left
    ensures forall i, j :: 0 <= i < bottom - top && 0 <= j < right - left ==>
              Crop(f, top, bottom, left, right).rows[i][j] == f.rows[top + i][left + j]
  {
    var r := Crop(f, top, bottom, left, right);
    forall i, j | 0 <= i < bottom - top && 0 <= j < right - left
      ensures r.rows[i][j] == f.rows[top + i][left + j]
    {
      assert Slice(f.rows, top, bottom)[i] == f.rows[top + i];
      assert r.rows[i] == Slice(f.rows[top + i], left, right);
    }
  }

  /** Slicing a well-formed frame over its whole extent gives the frame back. */
  lemma CropWhole(f: Frame)
    requires WellFormed(f)
    ensures Crop(f, 0, Height(f), 0, f.width) == f
  {
    var r := Crop(f, 0, Height(f), 0, f.width);
    assert |r.rows| == |f.rows|;
    forall i | 0 <= i < |f.rows|
      ensures r.rows[i] == f.rows[i]
    {
      assert f.rows[..][i] == f.rows[i];
      assert f.rows[i][0..f.width] == f.rows[i];
    }
  }
}
