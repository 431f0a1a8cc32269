/** The quantiser of colorbynumber/simplify_image.py: nearest-palette
    recolouring, the index arithmetic after clustering, and the branching of
    `simplify_image`. Clustering, denoising and the colour reassignment are
    foreign or random and enter as function parameters. */
module SimplifyImage {
  import opened Pixels

  /** Summed squared per-channel difference, `((a - b)**2).sum(axis=-1)`. */
  function SqDist(a: Rgb, b: Rgb): int
  {
    (a.r - b.r) * (a.r - b.r) + (a.g - b.g) * (a.g - b.g) + (a.b - b.b) * (a.b - b.b)
  }

  lemma SqDistZero(a: Rgb, b: Rgb)
    ensures SqDist(a, b) >= 0
    ensures SqDist(a, b) == 0 <==> a == b
  {
    var dr, dg, db := a.r - b.r, a.g - b.g, a.b - b.b;
    assert dr * dr >= 0 && dg * dg >= 0 && db * db >= 0;
    if SqDist(a, b) == 0 {
      assert dr * dr == 0 && dg * dg == 0 && db * db == 0;
    }
  }

  /** Position of the first minimum of a non-empty sequence, NumPy's `argmin`. */
  function FirstArgmin(d: seq<int>): (k: nat)
    requires |d| > 0
    ensures k < |d|
    ensures forall j :: 0 <= j < |d| ==> d[k] <= d[j]
    ensures forall j :: 0 <= j < k ==> d[k] < d[j]
  {
    if |d| == 1 then 0
    else
      var k := FirstArgmin(d[..|d| - 1]);
      if d[|d| - 1] < d[k] then |d| - 1 else k
  }

  /** Distances from one pixel to every palette entry, one slice of `norm_diff`. */
  function Distances(p: Rgb, palette: seq<Rgb>): (d: seq<int>)
    ensures |d| == |palette|
  {
    seq(|palette|, j requires 0 <= j < |palette| => SqDist(p, palette[j]))
  }

  /** 0-based palette position chosen for pixel `p`. */
  function ClosestIndex(p: Rgb, palette: seq<Rgb>): nat
    requires |palette| > 0
  {
    FirstArgmin(Distances(p, palette))
  }

  /** `k` is the lowest palette position at minimal distance from `p`. */
  ghost predicate IsFirstNearest(p: Rgb, palette: seq<Rgb>, k: int)
  {
    && 0 <= k < |palette|
    && (forall j :: 0 <= j < |palette| ==> SqDist(p, palette[k]) <= SqDist(p, palette[j]))
    && (forall j :: 0 <= j < k ==> SqDist(p, palette[k]) < SqDist(p, palette[j]))
  }

  lemma ClosestIndexIsFirstNearest(p: Rgb, palette: seq<Rgb>)
    requires |palette| > 0
    ensures IsFirstNearest(p, palette, ClosestIndex(p, palette))
  {
    var d := Distances(p, palette);
    var k := FirstArgmin(d);
    forall j | 0 <= j < |palette|
      ensures SqDist(p, palette[k]) <= SqDist(p, palette[j])
      ensures j < k ==> SqDist(p, palette[k]) < SqDist(p, palette[j])
    {
      assert d[j] == SqDist(p, palette[j]) && d[k] == SqDist(p, palette[k]);
    }
  }

  /** Only one position is the first nearest entry. */
  lemma FirstNearestUnique(p: Rgb, palette: seq<Rgb>, k1: int, k2: int)
    requires IsFirstNearest(p, palette, k1) && IsFirstNearest(p, palette, k2)
    ensures k1 == k2
  {
    assert SqDist(p, palette[k1]) == SqDist(p, palette[k2]);
  }

  /** A pixel equal to some palette entry gets that colour back, at distance 0,
      at a position no later than that entry's. */
  lemma {:induction false} ExactMatchChosen(p: Rgb, palette: seq<Rgb>, j: nat)
    requires j < |palette| && palette[j] == p
    ensures var k := ClosestIndex(p, palette);
      palette[k] == p && SqDist(p, palette[k]) == 0 && k <= j
  {
    var k := ClosestIndex(p, palette);
    ClosestIndexIsFirstNearest(p, palette);
    SqDistZero(p, palette[j]);
    SqDistZero(p, palette[k]);
    assert SqDist(p, palette[k]) <= SqDist(p, palette[j]);
  }

  /** The colour chosen for a pixel is its own choice again. */
  lemma {:induction false} ClosestIndexFixedPoint(p: Rgb, palette: seq<Rgb>)
    requires |palette| > 0
    ensures ClosestIndex(palette[ClosestIndex(p, palette)], palette) == ClosestIndex(p, palette)
  {
    var k := ClosestIndex(p, palette);
    var q := palette[k];
    var k' := ClosestIndex(q, palette);
    ClosestIndexIsFirstNearest(p, palette);
    ExactMatchChosen(q, palette, k);
    assert palette[k'] == q && k' <= k;
  }

  /** The 1-based index map and the recoloured image of one quantiser call. */
  datatype Quantized = Quantized(image: Image, indices: seq<seq<int>>)

  /** Every index names a palette entry (1-based) and every pixel is that entry:
      the simplified image and the index map agree. */
  ghost predicate Agrees(image: Image, indices: seq<seq<int>>, palette: seq<Rgb>)
  {
    && SameShape(image, indices)
    && forall i, j :: 0 <= i < |indices| && 0 <= j < |indices[i]| ==>
         1 <= indices[i][j] <= |palette| && image[i][j] == palette[indices[i][j] - 1]
  }

  /** `_choose_closest_colors`: recolour every pixel with its nearest palette
      entry and report the entry's 1-based position. */
  function ChooseClosestColors(image: Image, palette: seq<Rgb>): (r: Result<Quantized>)
    ensures r.Failure? <==> |palette| == 0
    ensures r.Success? ==> SameShape(r.value.image, image) && Agrees(r.value.image, r.value.indices, palette)
    ensures r.Success? ==> forall i, j :: 0 <= i < |image| && 0 <= j < |image[i]| ==>
              IsFirstNearest(image[i][j], palette, r.value.indices[i][j] - 1)
  {
    if |palette| == 0 then Failure(EmptyPalette)
    else
      var indices := seq(|image|, i requires 0 <= i < |image| =>
        seq(|image[i]|, j requires 0 <= j < |image[i]| => ClosestIndex(image[i][j], palette) + 1));
      var simplified := seq(|image|, i requires 0 <= i < |image| =>
        seq(|image[i]|, j requires 0 <= j < |image[i]| => palette[indices[i][j] - 1]));
      forall i, j | 0 <= i < |image| && 0 <= j < |image[i]|
        ensures IsFirstNearest(image[i][j], palette, indices[i][j] - 1)
      {
        ClosestIndexIsFirstNearest(image[i][j], palette);
      }
      Success(Quantized(simplified, indices))
  }

  /** Re-quantising a quantised image changes neither the image nor the index
      map, which is what the second quantiser call after denoising relies on
      when the denoiser leaves the image alone. */
  lemma {:induction false} RequantizeIdempotent(image: Image, palette: seq<Rgb>)
    requires |palette| > 0
    ensures ChooseClosestColors(ChooseClosestColors(image, palette).value.image, palette)
         == ChooseClosestColors(image, palette)
  {
    var q := ChooseClosestColors(image, palette).value;
    var q2 := ChooseClosestColors(q.image, palette).value;
    forall i, j | 0 <= i < |image| && 0 <= j < |image[i]|
      ensures q2.indices[i][j] == q.indices[i][j] && q2.image[i][j] == q.image[i][j]
    {
      ClosestIndexFixedPoint(image[i][j], palette);
    }
    forall i | 0 <= i < |image|
      ensures q2.indices[i] == q.indices[i] && q2.image[i] == q.image[i]
    {
    }
    assert q2.indices == q.indices && q2.image == q.image;
  }

  /** Every pixel that already is a palette colour keeps its colour. */
  lemma {:induction false} PaletteImageUnchanged(image: Image, palette: seq<Rgb>)
    requires |palette| > 0
    requires forall i, j :: 0 <= i < |image| && 0 <= j < |image[i]| ==> image[i][j] in palette
    ensures ChooseClosestColors(image, palette).value.image == image
  {
    var q := ChooseClosestColors(image, palette).value;
    forall i, j | 0 <= i < |image| && 0 <= j < |image[i]|
      ensures q.image[i][j] == image[i][j]
    {
      var k :| 0 <= k < |palette| && palette[k] == image[i][j];
      ExactMatchChosen(image[i][j], palette, k);
    }
    forall i | 0 <= i < |image|
      ensures q.image[i] == image[i]
    {
    }
  }

  /** What `cv.kmeans` hands back: a cluster label per pixel (already in the
      image's shape) and the cluster centres (already cast to uint8). */
  datatype Clustering = Clustering(labels: seq<seq<nat>>, centers: seq<Rgb>)

  /** The result triple of `simplify_image`: simplified image, 1-based index
      map and palette. */
  datatype Simplified = Simplified(image: Image, indices: seq<seq<int>>, palette: seq<Rgb>)

  /** `palette[indices - 1]`, the fancy indexing that rebuilds an image from an
      index map. */
  function Lookup(palette: seq<Rgb>, indices: seq<seq<int>>): (image: Image)
    requires forall i, j :: 0 <= i < |indices| && 0 <= j < |indices[i]| ==> 1 <= indices[i][j] <= |palette|
    ensures Agrees(image, indices, palette)
  {
    seq(|indices|, i requires 0 <= i < |indices| =>
      seq(|indices[i]|, j requires 0 <= j < |indices[i]| => palette[indices[i][j] - 1]))
  }

  /** The arithmetic of `_kmeans_simplify_image` after clustering: the image is
      rebuilt from the centres, the labels shifted to 1-based indices and the
      centres become the palette. Labels that do not fit the image or name no
      centre are the NumPy indexing/reshape errors. */
  function KMeansSimplifyImage(image: Image, c: Clustering): (r: Result<Simplified>)
    ensures r.Success? <==>
      SameShape(c.labels, image) &&
      forall i, j :: 0 <= i < |c.labels| && 0 <= j < |c.labels[i]| ==> c.labels[i][j] < |c.centers|
    ensures r.Success? ==>
      && r.value.palette == c.centers
      && SameShape(r.value.image, image)
      && Agrees(r.value.image, r.value.indices, r.value.palette)
      && forall i, j :: 0 <= i < |image| && 0 <= j < |image[i]| ==> r.value.indices[i][j] - 1 == c.labels[i][j]
  {
    if !SameShape(c.labels, image) then Failure(ShapeMismatch)
    else if exists i, j :: 0 <= i < |c.labels| && 0 <= j < |c.labels[i]| && c.labels[i][j] >= |c.centers| then
      Failure(LabelOutOfRange)
    else
      var indices := seq(|c.labels|, i requires 0 <= i < |c.labels| =>
        seq(|c.labels[i]|, j requires 0 <= j < |c.labels[i]| => c.labels[i][j] + 1));
      Success(Simplified(Lookup(c.centers, indices), indices, c.centers))
  }

  /** The value of `config["denoise_order"]`; any other string selects neither. */
  datatype DenoiseOrder = BeforeSimplify | AfterSimplify | OtherOrder

  /** The configuration keys `simplify_image` branches on. */
  datatype SimplifyConfig = SimplifyConfig(denoise: bool, denoiseOrder: DenoiseOrder, applyKmeans: bool)

  /** The image `simplify_image` clusters or quantises: denoised first when the
      configuration asks for denoising before simplifying. */
  function Prepared(image: Image, config: SimplifyConfig, denoiser: Image -> Image): Image
  {
    if config.denoise && config.denoiseOrder == BeforeSimplify then denoiser(image) else image
  }

  /** A quantiser result completed with the palette it was computed against. */
  function WithPalette(q: Result<Quantized>, palette: seq<Rgb>): Result<Simplified>
  {
    match q
    case Success(v) => Success(Simplified(v.image, v.indices, palette))
    case Failure(e) => Failure(e)
  }

  /** Whether the configuration asks for denoising after simplifying. */
  predicate DenoisesAfter(config: SimplifyConfig)
  {
    config.denoise && config.denoiseOrder == AfterSimplify
  }

  /** The "after_simplify" step: the simplified image is denoised and quantised
      again against the same palette; a failure passes through. */
  function Requantized(s: Result<Simplified>, denoiser: Image -> Image): Result<Simplified>
  {
    match s
    case Success(v) => WithPalette(ChooseClosestColors(denoiser(v.image), v.palette), v.palette)
    case Failure(e) => Failure(e)
  }

  /** The palette of the `apply_kmeans` path: each cluster centre recoloured, in order. */
  function Recolored(centers: seq<Rgb>, recolor: Rgb -> Rgb): (palette: seq<Rgb>)
    ensures |palette| == |centers|
  {
    seq(|centers|, i requires 0 <= i < |centers| => recolor(centers[i]))
  }

  /** `simplify_image`. `denoiser` stands for `_denoise_image` with the
      configured filter and strength, `kmeans` for `cv.kmeans` with the cluster
      count, and `recolor` for the colour mapping that the random shuffle and
      `assign_colors` produce. `colorList` is None when no palette is given. */
  method Simplify(image: Image, colorList: Option<seq<Rgb>>, numColors: int, config: SimplifyConfig,
                  denoiser: Image -> Image, kmeans: (Image, int) -> Clustering, recolor: Rgb -> Rgb)
    returns (r: Result<Simplified>)
    // On every path, the image and index map returned agree with the palette returned.
    ensures r.Success? ==> Agrees(r.value.image, r.value.indices, r.value.palette)
    // Plain palette matching: the quantiser's answer for the (possibly denoised)
    // image, with the caller's palette.
    ensures colorList.Some? && !config.applyKmeans && !DenoisesAfter(config) ==>
      r == WithPalette(ChooseClosestColors(Prepared(image, config, denoiser), colorList.value), colorList.value)
    // Denoising afterwards: the quantised image is denoised and quantised again.
    ensures colorList.Some? && !config.applyKmeans && DenoisesAfter(config) ==>
      r == Requantized(WithPalette(ChooseClosestColors(image, colorList.value), colorList.value), denoiser)
    // No palette: the clustering of the (possibly denoised) image, re-quantised
    // after denoising when asked.
    ensures colorList.None? && !DenoisesAfter(config) ==>
      r == KMeansSimplifyImage(Prepared(image, config, denoiser), kmeans(Prepared(image, config, denoiser), numColors))
    ensures colorList.None? && DenoisesAfter(config) ==>
      r == Requantized(KMeansSimplifyImage(image, kmeans(image, numColors)), denoiser)
    // Clustering against a given palette: the cluster indices are kept and the
    // image is rebuilt from the recoloured centres; after denoising, that image
    // is denoised and quantised again against the recoloured centres.
    ensures colorList.Some? && config.applyKmeans ==>
      var k := KMeansSimplifyImage(Prepared(image, config, denoiser), kmeans(Prepared(image, config, denoiser), |colorList.value|));
      && (k.Failure? ==> r == Failure(k.error))
      && (k.Success? && !DenoisesAfter(config) ==>
            && r.Success?
            && r.value.indices == k.value.indices
            && r.value.palette == Recolored(k.value.palette, recolor)
            && r.value.image == Lookup(r.value.palette, k.value.indices))
      && (k.Success? && DenoisesAfter(config) ==>
            var palette := Recolored(k.value.palette, recolor);
            r == WithPalette(ChooseClosestColors(denoiser(Lookup(palette, k.value.indices)), palette), palette))
    // A given palette without clustering is always the palette returned.
    ensures colorList.Some? && !config.applyKmeans && r.Success? ==> r.value.palette == colorList.value
    ensures colorList.Some? && !config.applyKmeans && colorList.value == [] ==> r.Failure?
    // Without a palette, the centres found in the (possibly denoised) image are the palette.
    ensures colorList.None? && r.Success? ==>
      r.value.palette == kmeans(Prepared(image, config, denoiser), numColors).centers
    // Clustering against a given palette: the palette is the recoloured centres, in order.
    ensures colorList.Some? && config.applyKmeans && r.Success? ==>
      var cs := kmeans(Prepared(image, config, denoiser), |colorList.value|).centers;
      |r.value.palette| == |cs| && forall i :: 0 <= i < |cs| ==> r.value.palette[i] == recolor(cs[i])
    // Denoising after simplifying: the result is re-quantised, so whatever the
    // denoiser did, quantising the output again reproduces it exactly.
    ensures config.denoise && config.denoiseOrder == AfterSimplify && r.Success? ==>
      ChooseClosestColors(r.value.image, r.value.palette) == Success(Quantized(r.value.image, r.value.indices))
  {
    var img := image;
    if config.denoise && config.denoiseOrder == BeforeSimplify {
      img := denoiser(img);
    }

    var simplified: Image;
    var indices: seq<seq<int>>;
    var palette: seq<Rgb>;
    if colorList.None? {
      var k := KMeansSimplifyImage(img, kmeans(img, numColors));
      if k.Failure? {
        return Failure(k.error);
      }
      simplified, indices, palette := k.value.image, k.value.indices, k.value.palette;
    } else if config.applyKmeans {
      var k := KMeansSimplifyImage(img, kmeans(img, |colorList.value|));
      if k.Failure? {
        return Failure(k.error);
      }
      var kmeansColors := k.value.palette;
      img, indices := k.value.image, k.value.indices;
      palette := Recolored(kmeansColors, recolor);
      simplified := Lookup(palette, indices);
    } else {
      var q := ChooseClosestColors(img, colorList.value);
      if q.Failure? {
        return Failure(q.error);
      }
      simplified, indices := q.value.image, q.value.indices;
      palette := colorList.value;
    }

    if DenoisesAfter(config) {
      simplified := denoiser(simplified);
      var q := ChooseClosestColors(simplified, palette);
      if q.Failure? {
        return Failure(q.error);
      }
      RequantizeIdempotent(simplified, palette);
      simplified, indices := q.value.image, q.value.indices;
    }
    return Success(Simplified(simplified, indices, palette));
  }
}
