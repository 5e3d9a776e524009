/**
 * The image side of the extractor: loading, grayscale conversion, cropping and
 * Tesseract. Loading, conversion and recognition are supplied from outside; the
 * crop is NumPy slicing and is modelled exactly.
 */
module Vision {
  import opened Wrappers
  import opened Text

  /** A raster of pixel values, row by row. */
  datatype Image = Image(rows: seq<seq<nat>>)

  /** The Tesseract page-segmentation modes in use: `--psm 6` (a block of text) and `--psm 7` (one line). */
  datatype Psm = Block | Line

  /** A rectangle: left edge, top edge, width and height in pixels. */
  datatype Region = Region(x: nat, y: nat, w: nat, h: nat)

  /**
   * What the extractor needs from the world: `cv2.imread` (None when the file
   * cannot be decoded), `cv2.cvtColor(..., COLOR_BGR2GRAY)`, and
   * `pytesseract.image_to_string` with a page-segmentation mode.
   */
  datatype Engine = Engine(
    imread: string -> Option<Image>,
    toGray: Image -> Image,
    recognize: (Image, Psm) -> string)

  function Min(a: int, b: int): int {
    if a <= b then a else b
  }

  /** Python's `a[lo:hi]` for non-negative bounds: past-the-end bounds are clamped, a reversed range is empty. */
  function Slice<T>(a: seq<T>, lo: nat, hi: nat): (r: seq<T>)
    ensures |r| <= hi - lo || |r| == 0
    ensures lo >= |a| || hi <= lo ==> r == []
    ensures lo < hi <= |a| ==> |r| == hi - lo
    ensures lo < hi && lo < |a| ==> |r| == Min(hi, |a|) - lo
    ensures forall k :: 0 <= k < |r| ==> lo + k < |a| && r[k] == a[lo + k]
  {
    if lo < hi && lo < |a| then a[lo..Min(hi, |a|)] else []
  }

  /** `image[y:y + h, x:x + w]`. */
  function Crop(img: Image, r: Region): (c: Image)
    ensures |c.rows| <= r.h
    ensures forall k :: 0 <= k < |c.rows| ==> |c.rows[k]| <= r.w
    ensures forall k, j :: 0 <= k < |c.rows| && 0 <= j < |c.rows[k]| ==>
      r.y + k < |img.rows| && r.x + j < |img.rows[r.y + k]| && c.rows[k][j] == img.rows[r.y + k][r.x + j]
    ensures r.y + r.h <= |img.rows| ==> |c.rows| == r.h
    ensures 0 < r.h && r.y < |img.rows| ==> |c.rows| == Min(r.y + r.h, |img.rows|) - r.y
    ensures forall k :: 0 <= k < |c.rows| ==>
      && r.y + k < |img.rows|
      && (0 < r.w && r.x < |img.rows[r.y + k]| ==> |c.rows[k]| == Min(r.x + r.w, |img.rows[r.y + k]|) - r.x)
  {
    var band := Slice(img.rows, r.y, r.y + r.h);
    Image(seq(|band|, k requires 0 <= k < |band| => Slice(band[k], r.x, r.x + r.w)))
  }

  /** `ocr_region`: crop, recognise, and trim surrounding whitespace. */
  function OcrText(eng: Engine, img: Image, r: Region, mode: Psm): string {
    Strip(eng.recognize(Crop(img, r), mode))
  }

  /** Recognised text never starts or ends with whitespace, so trimming it again changes nothing. */
  lemma OcrTextTrimmed(eng: Engine, img: Image, r: Region, mode: Psm)
    ensures var t := OcrText(eng, img, r, mode);
      && (t == [] || (!IsSpace(t[0]) && !IsSpace(t[|t| - 1])))
      && Strip(t) == t
  {
    StripIdempotent(eng.recognize(Crop(img, r), mode));
  }

  /** The message of the `FileNotFoundError` raised for an unreadable image. */
  function NotFound(path: string): string {
    "Image not found at " + path
  }
}
