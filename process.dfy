/** Model of `process_images` (src/image_processing/process.py).
    The imgaug augmenters and the PIL/numpy conversions are foreign code:
    the model records the arguments each augmenter receives, and a
    `Library` value stands for what the foreign code does with them. */
module Process {

  /** The eleven integer knobs `process_images` takes besides the images. */
  datatype Params = Params(
    resizeHeight: int,
    resizeWidth: int,
    rotationAngle: int,
    brightness: int,
    contrast: int,
    saturation: int,
    noise: int,
    shift: int,
    tilt: int,
    stretch: int,
    cropSize: int)

  /** The ranges the sidebar widgets (src/ui/sidebar.py) allow for each knob. */
  predicate SidebarRanges(p: Params)
  {
    && 1 <= p.resizeHeight <= 10000
    && 1 <= p.resizeWidth <= 10000
    && 0 <= p.rotationAngle <= 360
    && 0 <= p.brightness <= 100
    && 0 <= p.contrast <= 100
    && 0 <= p.saturation <= 100
    && 0 <= p.noise <= 100
    && 0 <= p.shift <= 100
    && 0 <= p.tilt <= 100
    && 0 <= p.stretch <= 100
    && 1 <= p.cropSize <= 10000
  }

  /** A closed interval of exact rationals (Python floats, without rounding). */
  datatype Interval = Interval(lo: real, hi: real)

  /** One imgaug augmenter together with the arguments it is built with. */
  datatype Stage =
    | Resize(height: int, width: int)
    | Rotate(degrees: int)
    | MultiplyBrightness(mul: real)
    | LinearContrast(alpha: real)
    | AddToHueAndSaturation(value: int)
    | AdditiveGaussianNoise(scaleLo: int, scaleHi: int)
    | TranslatePercent(xFraction: real, yFraction: real)
    | Shear(degrees: int)
    | Scale(xRange: Interval, yRange: Interval)
    | CropPercent(lo: real, hi: real)

  /** `level / 50.0`, the factor given to MultiplyBrightness and to
      LinearContrast. */
  function LevelFactor(level: int): (f: real)
    ensures f == 1.0 <==> level == 50
    ensures f == 0.0 <==> level == 0
    ensures 0 <= level <= 100 ==> 0.0 <= f <= 2.0
    ensures level == 100 ==> f == 2.0
  {
    level as real / 50.0
  }

  /** `(saturation - 50) * 2`, the offset given to AddToHueAndSaturation. */
  function HueSaturationOffset(saturation: int): (offset: int)
    ensures offset == 0 <==> saturation == 50
    ensures 0 <= saturation <= 100 ==> -100 <= offset <= 100
    ensures offset % 2 == 0
  {
    (saturation - 50) * 2
  }

  /** `noise * 255`, the upper end of the noise scale range `(0, noise * 255)`.
      It is not divided by 100: every level from 2 on exceeds the 8-bit range. */
  function NoiseScaleMax(noise: int): (hi: int)
    ensures hi == 0 <==> noise == 0
    ensures 0 <= noise <= 100 ==> 0 <= hi <= 25500
    ensures noise == 100 ==> hi == 25500
    ensures noise >= 2 ==> hi > 255
  {
    noise * 255
  }

  /** `shift / 100`, the translation fraction used for both axes. */
  function ShiftFraction(shift: int): (f: real)
    ensures f == 0.0 <==> shift == 0
    ensures 0 <= shift <= 100 ==> 0.0 <= f <= 1.0
  {
    shift as real / 100.0
  }

  /** `(1 - stretch / 100, 1 + stretch / 100)`, the scale range of one axis. */
  function ScaleInterval(stretch: int): (r: Interval)
    ensures r.lo + r.hi == 2.0
    ensures r.hi - r.lo == stretch as real / 50.0
    ensures r.lo == r.hi <==> stretch == 0
    ensures 0 <= stretch <= 100 ==> 0.0 <= r.lo <= 1.0 <= r.hi <= 2.0
    ensures stretch == 100 ==> r == Interval(0.0, 2.0)
  {
    Interval(1.0 - stretch as real / 100.0, 1.0 + stretch as real / 100.0)
  }

  /** `(0, crop_size / 100)`, the crop percent range. */
  function CropInterval(cropSize: int): (r: Interval)
    ensures r.lo == 0.0
    ensures r.hi >= 1.0 <==> cropSize >= 100
    ensures 1 <= cropSize <= 10000 ==> 0.0 < r.hi <= 100.0
  {
    Interval(0.0, cropSize as real / 100.0)
  }

  /** The ten augmenters of the `iaa.Sequential` built for each image.
      `new_size` is `(resize_height, resize_width)`, and Resize takes its
      height from `new_size[1]` and its width from `new_size[0]`. */
  function Pipeline(p: Params): (stages: seq<Stage>)
    ensures |stages| == 10
    ensures stages[0].Resize? && stages[1].Rotate? && stages[2].MultiplyBrightness?
    ensures stages[3].LinearContrast? && stages[4].AddToHueAndSaturation?
    ensures stages[5].AdditiveGaussianNoise? && stages[6].TranslatePercent?
    ensures stages[7].Shear? && stages[8].Scale? && stages[9].CropPercent?
    ensures stages[2].mul == stages[3].alpha <==> p.brightness == p.contrast
    ensures stages[5].scaleLo == 0 && stages[6].xFraction == stages[6].yFraction && stages[8].xRange == stages[8].yRange
  {
    var newSize := (p.resizeHeight, p.resizeWidth);
    var crop := CropInterval(p.cropSize);
    [ Resize(newSize.1, newSize.0),
      Rotate(p.rotationAngle),
      MultiplyBrightness(LevelFactor(p.brightness)),
      LinearContrast(LevelFactor(p.contrast)),
      AddToHueAndSaturation(HueSaturationOffset(p.saturation)),
      AdditiveGaussianNoise(0, NoiseScaleMax(p.noise)),
      TranslatePercent(ShiftFraction(p.shift), ShiftFraction(p.shift)),
      Shear(p.tilt),
      Scale(ScaleInterval(p.stretch), ScaleInterval(p.stretch)),
      CropPercent(crop.lo, crop.hi) ]
  }

  /** Resize receives the two dimensions swapped: its height is
      `resize_width` and its width is `resize_height`. */
  lemma ResizeDimensionsSwapped(p: Params)
    ensures Pipeline(p)[0] == Resize(p.resizeWidth, p.resizeHeight)
    ensures Pipeline(p)[0].height == p.resizeHeight <==> p.resizeHeight == p.resizeWidth
  {
  }

  /** The magnitudes of the colour and geometry stages leave an image alone
      (factor 1, offset 0, no noise, no translation, no shear, scale exactly 1,
      no rotation) exactly when the knobs are at their neutral settings. */
  predicate NeutralMagnitudes(stages: seq<Stage>)
    requires |stages| == 10
  {
    && stages[1] == Rotate(0)
    && stages[2] == MultiplyBrightness(1.0)
    && stages[3] == LinearContrast(1.0)
    && stages[4] == AddToHueAndSaturation(0)
    && stages[5] == AdditiveGaussianNoise(0, 0)
    && stages[6] == TranslatePercent(0.0, 0.0)
    && stages[7] == Shear(0)
    && stages[8] == Scale(Interval(1.0, 1.0), Interval(1.0, 1.0))
  }

  lemma NeutralKnobs(p: Params)
    ensures NeutralMagnitudes(Pipeline(p))
            <==> p.rotationAngle == 0 && p.brightness == 50 && p.contrast == 50
                 && p.saturation == 50 && p.noise == 0 && p.shift == 0
                 && p.tilt == 0 && p.stretch == 0
  {
    var s := Pipeline(p);
    if NeutralMagnitudes(s) {
      assert s[8].xRange == Interval(1.0, 1.0);
    }
  }

  /** For every setting the sidebar allows, each augmenter receives its
      arguments in a fixed range: Resize dimensions in [1, 10000], a rotation
      in [0, 360] degrees, a shear in [0, 100] degrees, brightness and
      contrast factors in [0, 2], a
      hue/saturation offset in [-100, 100], a noise scale range (0, hi) with
      hi in [0, 25500], translation fractions in [0, 1], scale ranges within
      [0, 2] that contain 1, and a crop range (0, hi] with hi in (0, 100]. */
  lemma PipelineArgumentsInRange(p: Params)
    requires SidebarRanges(p)
    ensures var s := Pipeline(p);
            && 1 <= s[0].height <= 10000 && 1 <= s[0].width <= 10000
            && 0 <= s[1].degrees <= 360
            && 0.0 <= s[2].mul <= 2.0
            && 0.0 <= s[3].alpha <= 2.0
            && -100 <= s[4].value <= 100
            && s[5].scaleLo == 0 && 0 <= s[5].scaleHi <= 25500
            && 0.0 <= s[6].xFraction <= 1.0 && 0.0 <= s[6].yFraction <= 1.0
            && 0 <= s[7].degrees <= 100
            && 0.0 <= s[8].xRange.lo <= 1.0 <= s[8].xRange.hi <= 2.0
            && 0.0 <= s[8].yRange.lo <= 1.0 <= s[8].yRange.hi <= 2.0
            && s[9].lo == 0.0 && 0.0 < s[9].hi <= 100.0
  {
  }

  /** The sidebar's default crop size 512 asks for a crop fraction of up to
      5.12, more than 1. */
  lemma DefaultCropFraction()
    ensures CropInterval(512).hi == 5.12
  {
  }

  /** A PIL image reduced to what the model needs: its mode tag and an
      uninterpreted pixel payload. */
  datatype Image<D> = Image(mode: string, pixels: D)

  /** The foreign code the loop calls. `dropAlpha` is the pixel effect of
      `img.convert('RGB')` on an RGBA image; `augment(stages, draw, img)` is
      `Image.fromarray(aug(image=np.array(img)))` for the Sequential of
      `stages`, where `draw` numbers the call and stands for the state of
      imgaug's global random generator. */
  datatype Library<!D> = Library(dropAlpha: D -> D, augment: (seq<Stage>, nat, Image<D>) -> Image<D>)

  /** Lines 42-43: an RGBA image is converted to RGB, any other passes as is. */
  function ToRgbIfRgba<D>(img: Image<D>, lib: Library<D>): (r: Image<D>)
    ensures r.mode != "RGBA"
    ensures img.mode == "RGBA" ==> r == Image("RGB", lib.dropAlpha(img.pixels))
    ensures img.mode != "RGBA" ==> r == img
  {
    if img.mode == "RGBA" then Image("RGB", lib.dropAlpha(img.pixels)) else img
  }

  /** What one iteration of the loop produces for the image at position `k`. */
  function ProcessOne<D>(img: Image<D>, p: Params, lib: Library<D>, k: nat): Image<D>
  {
    lib.augment(Pipeline(p), k, ToRgbIfRgba(img, lib))
  }

  /** The list `process_images` returns, written as a sequence: the k-th
      entry is the k-th input run through the pipeline. */
  function ProcessAll<D>(images: seq<Image<D>>, p: Params, lib: Library<D>): seq<Image<D>>
  {
    seq(|images|, k requires 0 <= k < |images| => ProcessOne(images[k], p, lib, k))
  }

  /** The loop of `process_images`: one output per input, in input order, the
      k-th output being the pipeline applied to the k-th input after its RGBA
      conversion. */
  method ProcessImages<D>(images: seq<Image<D>>, p: Params, lib: Library<D>)
    returns (processed: seq<Image<D>>)
    ensures |processed| == |images|
    ensures forall k :: 0 <= k < |images| ==> processed[k] == ProcessOne(images[k], p, lib, k)
  {
    processed := [];
    for k := 0 to |images|
      invariant |processed| == k
      invariant forall j :: 0 <= j < k ==> processed[j] == ProcessOne(images[j], p, lib, j)
    {
      var img := images[k];
      if img.mode == "RGBA" {
        img := Image("RGB", lib.dropAlpha(img.pixels));
      }
      var aug := Pipeline(p);
      var out := lib.augment(aug, k, img);
      processed := processed + [out];
    }
  }
}
