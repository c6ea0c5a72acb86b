/**
 * The vertical-stitch layout of the download handler of UrlImageStitcher:
 * every preview image is scaled to the chosen output width and the images are
 * stacked top to bottom on one canvas.
 *
 * Arithmetic is over `real`; the browser's floating-point rounding and its
 * integer conversion of `canvas.height` are not modelled.
 */
module StitchLayout {
  import opened Wrappers

  /** The natural (intrinsic) pixel size of a decoded preview image. */
  datatype NaturalSize = NaturalSize(width: real, height: real)

  /** One `drawImage(img, x, y, w, h)` call: which preview image, and where it goes. */
  datatype DrawCall = DrawCall(image: nat, x: real, y: real, width: real, height: real)

  /** The composed canvas: its size and the draw calls issued on it, in order. */
  datatype Canvas = Canvas(width: real, height: real, draws: seq<DrawCall>)

  /** Why the handler returned before drawing anything. */
  datatype DownloadError = NoPreviewImages

  /** Every image has a positive natural width, so scaling by `W / width` is defined. */
  predicate Measurable(sizes: seq<NaturalSize>)
  {
    forall i :: 0 <= i < |sizes| ==> sizes[i].width > 0.0
  }

  /** Every image has a non-negative natural height, as decoded images do. */
  predicate NonNegativeHeights(sizes: seq<NaturalSize>)
  {
    forall i :: 0 <= i < |sizes| ==> sizes[i].height >= 0.0
  }

  /** The height of one image once it is scaled to `imageWidth`: `(W / w) * h`. */
  function ScaledHeight(imageWidth: real, size: NaturalSize): (h: real)
    requires size.width > 0.0
    ensures h * size.width == size.height * imageWidth
    ensures imageWidth >= 0.0 && size.height >= 0.0 ==> h >= 0.0
  {
    var scale := imageWidth / size.width;
    assert scale * size.width == imageWidth;
    assert imageWidth >= 0.0 ==> scale >= 0.0;
    scale * size.height
  }

  /** The canvas height: the `reduce` that adds the scaled heights from left to right,
      starting at 0. */
  function CanvasHeight(imageWidth: real, sizes: seq<NaturalSize>): (h: real)
    requires Measurable(sizes)
    ensures imageWidth >= 0.0 && NonNegativeHeights(sizes) ==> h >= 0.0
    decreases |sizes|
  {
    if sizes == [] then 0.0
    else
      var n := |sizes| - 1;
      CanvasHeight(imageWidth, sizes[..n]) + ScaledHeight(imageWidth, sizes[n])
  }

  /** The draw call the handler issues for image `i`: at x = 0, at the sum of the
      scaled heights of the images before it, at width W and the scaled height. */
  function Row(imageWidth: real, sizes: seq<NaturalSize>, i: nat): DrawCall
    requires Measurable(sizes) && i < |sizes|
  {
    DrawCall(i, 0.0, CanvasHeight(imageWidth, sizes[..i]), imageWidth, ScaledHeight(imageWidth, sizes[i]))
  }

  /** The vertical coordinate at which a draw call's rectangle ends. */
  function Bottom(d: DrawCall): real
  {
    d.y + d.height
  }

  /** The download handler from the empty-preview guard to the end of the draw loop.
      `imageWidth` is the chosen output width and `sizes` the natural sizes of the
      preview images in display order. */
  method HandleDownload(imageWidth: real, sizes: seq<NaturalSize>) returns (r: Result<Canvas, DownloadError>)
    requires Measurable(sizes)
    ensures r.Failure? <==> sizes == []
    ensures r.Success? ==> r.value.width == imageWidth
    ensures r.Success? ==> r.value.height == CanvasHeight(imageWidth, sizes)
    ensures r.Success? ==> |r.value.draws| == |sizes|
    ensures r.Success? ==> forall i :: 0 <= i < |sizes| ==> r.value.draws[i] == Row(imageWidth, sizes, i)
    ensures r.Success? ==> Bottom(r.value.draws[|sizes| - 1]) == r.value.height
  {
    if |sizes| == 0 {
      return Failure(NoPreviewImages);
    }
    var canvasWidth := imageWidth;
    var canvasHeight := CanvasHeight(imageWidth, sizes);
    var draws: seq<DrawCall> := [];
    var yOffset := 0.0;
    for i := 0 to |sizes|
      invariant |draws| == i
      invariant yOffset == CanvasHeight(imageWidth, sizes[..i])
      invariant forall k :: 0 <= k < i ==> draws[k] == Row(imageWidth, sizes, k)
    {
      var scale := imageWidth / sizes[i].width;
      var drawHeight := sizes[i].height * scale;
      assert drawHeight == ScaledHeight(imageWidth, sizes[i]);
      draws := draws + [DrawCall(i, 0.0, yOffset, imageWidth, drawHeight)];
      assert sizes[..i + 1][..i] == sizes[..i];
      yOffset := yOffset + drawHeight;
    }
    assert sizes[..|sizes|] == sizes;
    RowsFillCanvas(imageWidth, sizes);
    return Success(Canvas(canvasWidth, canvasHeight, draws));
  }

  /** Row i ends exactly where row i + 1 starts: no gap and no overlap. */
  lemma RowsAbut(imageWidth: real, sizes: seq<NaturalSize>, i: nat)
    requires Measurable(sizes) && i + 1 < |sizes|
    ensures Bottom(Row(imageWidth, sizes, i)) == Row(imageWidth, sizes, i + 1).y
  {
    assert sizes[..i + 1][..i] == sizes[..i];
  }

  /** The stack exactly fills the canvas: the last row ends at the canvas height. */
  lemma RowsFillCanvas(imageWidth: real, sizes: seq<NaturalSize>)
    requires Measurable(sizes) && sizes != []
    ensures Bottom(Row(imageWidth, sizes, |sizes| - 1)) == CanvasHeight(imageWidth, sizes)
  {
  }

  /** Every row is drawn at x = 0 and width W, and keeps its image's aspect ratio:
      drawHeight / drawWidth == height / width, stated without division. */
  lemma RowKeepsAspectRatio(imageWidth: real, sizes: seq<NaturalSize>, i: nat)
    requires Measurable(sizes) && i < |sizes|
    ensures Row(imageWidth, sizes, i).image == i
    ensures Row(imageWidth, sizes, i).x == 0.0 && Row(imageWidth, sizes, i).width == imageWidth
    ensures Row(imageWidth, sizes, i).height * sizes[i].width == sizes[i].height * imageWidth
  {
  }

  /** The reduce is additive: the height of a concatenation of two image lists is the
      sum of their heights. */
  lemma {:induction false} CanvasHeightAppend(imageWidth: real, a: seq<NaturalSize>, b: seq<NaturalSize>)
    requires Measurable(a) && Measurable(b)
    ensures Measurable(a + b)
    ensures CanvasHeight(imageWidth, a + b) == CanvasHeight(imageWidth, a) + CanvasHeight(imageWidth, b)
    decreases |b|
  {
    if b == [] {
      assert a + b == a;
    } else {
      var n := |b| - 1;
      CanvasHeightAppend(imageWidth, a, b[..n]);
      assert (a + b)[..|a + b| - 1] == a + b[..n];
    }
  }

  /** With a non-negative width and non-negative heights, the offsets only grow:
      a longer prefix is at least as tall. */
  lemma {:induction false} PrefixHeightMonotone(imageWidth: real, sizes: seq<NaturalSize>, i: nat, j: nat)
    requires Measurable(sizes) && NonNegativeHeights(sizes) && imageWidth >= 0.0
    requires i <= j <= |sizes|
    ensures CanvasHeight(imageWidth, sizes[..i]) <= CanvasHeight(imageWidth, sizes[..j])
    decreases j - i
  {
    if i < j {
      PrefixHeightMonotone(imageWidth, sizes, i, j - 1);
      assert sizes[..j][..j - 1] == sizes[..j - 1];
      assert sizes[..j][j - 1] == sizes[j - 1];
    }
  }

  /** With a non-negative width and non-negative heights, an earlier row ends at or
      above where any later row starts: rows never overlap and keep preview order. */
  lemma RowsDoNotOverlap(imageWidth: real, sizes: seq<NaturalSize>, i: nat, j: nat)
    requires Measurable(sizes) && NonNegativeHeights(sizes) && imageWidth >= 0.0
    requires i < j < |sizes|
    ensures Bottom(Row(imageWidth, sizes, i)) <= Row(imageWidth, sizes, j).y
  {
    assert sizes[..i + 1][..i] == sizes[..i];
    PrefixHeightMonotone(imageWidth, sizes, i + 1, j);
  }
}
