/** Client-side checks on an uploaded image: the validation decision on a
    file's MIME type and byte size, and the target dimensions of the
    downscale. Loading, drawing and encoding are browser work outside the
    model. */
module ImageUtils {
  import opened Types

  const MaxFileSize: nat := 10 * 1024 * 1024
  const MaxDimension: nat := 1920
  const ImagePrefix: string := "image/"
  const AllowedTypes: seq<string> := ["image/jpeg", "image/jpg", "image/png"]

  const InvalidTypeMessage: string := "Please select a valid image file (PNG or JPG)"
  const TooLargeMessage: string := "File size must be less than 10MB"
  const UnsupportedTypeMessage: string := "Only PNG and JPG files are supported"

  /** `validateImageFile(file)`: `None` when the file is acceptable, else
      the message to show. The three checks run in source order. */
  function ValidateImageFile(mimeType: string, size: nat): (r: Option<string>)
    ensures r.None? <==> mimeType in AllowedTypes && size <= MaxFileSize
    ensures !(ImagePrefix <= mimeType) ==> r == Some(InvalidTypeMessage)
    ensures ImagePrefix <= mimeType && size > MaxFileSize ==> r == Some(TooLargeMessage)
    ensures ImagePrefix <= mimeType && size <= MaxFileSize && mimeType !in AllowedTypes ==>
              r == Some(UnsupportedTypeMessage)
  {
    if !(ImagePrefix <= mimeType) then Some(InvalidTypeMessage)
    else if size > MaxFileSize then Some(TooLargeMessage)
    else if mimeType !in AllowedTypes then Some(UnsupportedTypeMessage)
    else None
  }

  /** The scale factor `Math.min(MAX / width, MAX / height)`. A zero side
      divides to Infinity in the source and so is never the minimum; the
      factor is only computed when some side exceeds the maximum, so the
      other side is then positive. */
  function Ratio(width: nat, height: nat): (ratio: real)
    requires width > MaxDimension || height > MaxDimension
    ensures 0.0 < ratio < 1.0
  {
    if width == 0 then MaxDimension as real / height as real
    else if height == 0 then MaxDimension as real / width as real
    else RealMin(MaxDimension as real / width as real, MaxDimension as real / height as real)
  }

  function RealMin(a: real, b: real): real {
    if a <= b then a else b
  }

  /** The target size computed in `downscaleImage`, with exact arithmetic:
      unchanged within the bound, otherwise both sides scaled by `Ratio`
      and floored. */
  function ScaledDimensions(width: nat, height: nat): (d: (nat, nat))
    ensures width <= MaxDimension && height <= MaxDimension ==> d == (width, height)
    ensures d.0 <= width && d.1 <= height
    ensures d.0 <= MaxDimension && d.1 <= MaxDimension
    ensures width > MaxDimension || height > MaxDimension ==>
              if width >= height then d.0 == MaxDimension else d.1 == MaxDimension
  {
    if width > MaxDimension || height > MaxDimension then
      var longer := if width >= height then width else height;
      var ratio := Ratio(width, height);
      RatioOverLongerSide(width, height);
      ScaleSide(width, longer);
      ScaleSide(height, longer);
      assert Scale(width, ratio) == (width as real * (MaxDimension as real / longer as real)).Floor;
      assert Scale(height, ratio) == (height as real * (MaxDimension as real / longer as real)).Floor;
      (Scale(width, ratio), Scale(height, ratio))
    else
      (width, height)
  }

  /** `Math.floor(side * ratio)`. */
  function Scale(side: nat, ratio: real): int {
    (side as real * ratio).Floor
  }

  /** The minimum of the two quotients is the one over the longer side. */
  lemma RatioOverLongerSide(width: nat, height: nat)
    requires width > MaxDimension || height > MaxDimension
    ensures Ratio(width, height) == MaxDimension as real / (if width >= height then width else height) as real
  {
    if width > 0 && height > 0 {
      var m := MaxDimension as real;
      if width >= height {
        DivideByLarger(m, width as real, height as real);
      } else {
        DivideByLarger(m, height as real, width as real);
      }
    }
  }

  lemma DivideByLarger(m: real, big: real, small: real)
    requires m > 0.0 && big >= small > 0.0
    ensures m / big <= m / small
  {
    var a := m / big;
    var b := m / small;
    assert a * big == m && b * small == m;
    assert a > 0.0;
    assert a * small <= a * big;
    assert (b - a) * small >= 0.0;
  }

  /** Flooring `side * (MAX / longer)` stays within the side and within the
      bound, and the longer side lands exactly on the bound. */
  lemma ScaleSide(side: nat, longer: nat)
    requires MaxDimension < longer && side <= longer
    ensures 0 <= (side as real * (MaxDimension as real / longer as real)).Floor <= side
    ensures (side as real * (MaxDimension as real / longer as real)).Floor <= MaxDimension
    ensures side == longer ==> (side as real * (MaxDimension as real / longer as real)).Floor == MaxDimension
  {
    var q := MaxDimension as real / longer as real;
    var x := side as real * q;
    assert 0.0 < q < 1.0;
    assert q * longer as real == MaxDimension as real;
    assert 0.0 <= x <= side as real;
    assert x <= q * longer as real;
  }

  /** Downscaling keeps the aspect ratio up to the flooring of the shorter
      side: the cross products of old and new sizes differ by less than the
      longer side. */
  lemma ScalingKeepsAspect(width: nat, height: nat)
    ensures var d := ScaledDimensions(width, height);
            var diff := d.0 * height - d.1 * width;
            if width >= height then 0 <= diff < width || width == 0 else -(height as int) < diff <= 0
  {
    var d := ScaledDimensions(width, height);
    if width > MaxDimension || height > MaxDimension {
      RatioOverLongerSide(width, height);
      var ratio := Ratio(width, height);
      assert d == (Scale(width, ratio), Scale(height, ratio));
      if width >= height {
        FloorOfScaled(height, width);
        DivisionRemainder(MaxDimension * height, width);
        assert d.0 == MaxDimension;
        assert d.1 == (MaxDimension * height) / width;
      } else {
        FloorOfScaled(width, height);
        DivisionRemainder(MaxDimension * width, height);
        assert d.1 == MaxDimension;
        assert d.0 == (MaxDimension * width) / height;
      }
    }
  }

  lemma DivisionRemainder(n: nat, d: nat)
    requires d > 0
    ensures 0 <= n - (n / d) * d < d
  {
  }

  /** With exact arithmetic, flooring `side * (MAX / longer)` is integer
      division of `side * MAX` by `longer`. */
  lemma FloorOfScaled(side: nat, longer: nat)
    requires longer > 0
    ensures Scale(side, MaxDimension as real / longer as real) == (MaxDimension * side) / longer
  {
    var n := MaxDimension * side;
    var q := n / longer;
    var r := n % longer;
    var lr := longer as real;
    assert n == q * longer + r && 0 <= r < longer;
    assert side as real * (MaxDimension as real / lr) == n as real / lr;
    CastProduct(q, longer);
    SplitQuotient(q as real, r as real, lr);
    assert n as real == q as real * lr + r as real;
  }

  /** `(q * l + r) / l == q + r / l` with `0 <= r / l < 1` for `0 <= r < l`. */
  lemma SplitQuotient(q: real, r: real, l: real)
    requires 0.0 <= r < l
    ensures (q * l + r) / l == q + r / l
    ensures 0.0 <= r / l < 1.0
  {
  }

  lemma CastProduct(a: int, b: int)
    ensures (a * b) as real == a as real * b as real
  {
  }

  /** Exactly 10 MiB is still accepted: the size test is a strict `>`. */
  lemma ExactLimitAccepted()
    ensures ValidateImageFile("image/png", 10485760).None?
    ensures ValidateImageFile("image/jpeg", 10485761) == Some(TooLargeMessage)
  {
  }

  /** An oversized GIF is refused for its size, not its type; a small GIF
      for its type; a non-image for its type, whatever its size. */
  lemma CheckOrder()
    ensures ValidateImageFile("image/gif", MaxFileSize + 1) == Some(TooLargeMessage)
    ensures ValidateImageFile("image/gif", 100) == Some(UnsupportedTypeMessage)
    ensures ValidateImageFile("text/plain", MaxFileSize + 1) == Some(InvalidTypeMessage)
  {
    assert "text/plain"[0] != ImagePrefix[0];
    assert "image/gif" !in AllowedTypes by {
      assert "image/gif"[6] != "image/jpeg"[6];
      assert "image/gif"[6] != "image/jpg"[6];
      assert "image/gif"[6] != "image/png"[6];
    }
  }
}
