# Image augmentation batch: a verified model

This project models the self-contained logic of a Streamlit application that
augments a folder of images with `imgaug`:

- `load_images` (src/image_processing/load.py) lists a folder and keeps the
  entries with a case-sensitive image suffix (`.jpg`, `.jpeg`, `.png`, `.bmp`,
  `.gif`). It opens each kept entry and returns the images and the names,
  paired index for index. Module `Load`, file `load.dfy`.
- `process_images` (src/image_processing/process.py) does three things:
  - It turns the integer knobs of the sidebar into the arguments of ten
    augmenters: Resize, Rotate, MultiplyBrightness, LinearContrast,
    AddToHueAndSaturation, AdditiveGaussianNoise, three `iaa.Affine` stages
    (translation on both axes, shear, scale) and Crop.
  - It converts RGBA images to RGB.
  - It runs the ten-stage sequence on each image and appends the result to
    the output list, in order.

  Module `Process`, file `process.dfy`.
- `render_main` (src/ui/main.py) covers four things in module `Render`, file
  `render.dfy`:
  - the lower-cased "folder has images" check;
  - the grid arithmetic (`num_cols`, `num_rows`, `row_idx`, `col_idx`);
  - the placement loop;
  - the `transformed_` save names and the save loop. It also covers the
    branch structure of lines 41-97 for a newly entered folder path.

The definitions these rest on are `Load.EndsWith` and `Load.HasImageExtension`
(the suffix test of load.py:10), `Process.ProcessOne` (one iteration of the
loop at process.py:41-67) and `Render.FolderHasImages` (the check at
main.py:45-48).

The augmenters are foreign code. The model records the exact arguments each
augmenter is built with. It treats what the augmenters do to pixels as an
uninterpreted function `Library.augment`, and does the same for the pixel
effect of `convert('RGB')` (`Library.dropAlpha`). Python's float divisions
(`brightness / 50.0`, `shift / 100`, `stretch / 100`, `crop_size / 100`) are
exact rationals (`real`), so their values can be read off directly. The
`math.ceil` in `num_rows` is modelled as the ceiling of an exact rational.
`NumRowsIsIntegerCeiling` relates it to the integer formula.
The sidebar ranges (src/ui/sidebar.py:32-64) appear as the hypotheses of the
bound properties. `Process.SidebarRanges` collects them, and
`Process.PipelineArgumentsInRange` bounds the arguments of all ten augmenters under them.

The model keeps these quirks of the code:

- The noise scale range is `(0, noise * 255)`. It is not divided by 100, so
  every level from 2 upwards exceeds the 8-bit range.
- Resize gets its height from `resize_width` and its width from
  `resize_height`.
- The scale of each axis is a range `(1 - stretch / 100, 1 + stretch / 100)`
  for imgaug to sample from.
- The crop is `Crop(percent=(0, crop_size / 100))`. With the sidebar's range
  of 1 to 10000 (default 512), its upper end exceeds 1 from crop_size 101
  on (5.12 at the default). The code does not say how imgaug reads the
  fraction, and the model makes no claim about it.

The folder test in tests/test_image_prep/test_load.py expects empty lists for
an invalid path. `load_images` does not guarantee this: `os.listdir` raises.
The model takes the listing as an input and makes no claim about invalid paths.

## Model

| member | source | states |
|---|---|---|
| `Load.ImageFiles` | src/image_processing/load.py:7-11 | Every kept name has an image suffix. A name is kept exactly when it is in the listing and has one of the five suffixes. The result is no longer than the listing, and an empty listing gives an empty result. |
| `Load.ImageFilesIsSubsequence` | src/image_processing/load.py:6-11 | The kept names are a subsequence of the listing: same relative order, nothing added. |
| `Load.ImageFilesAppend` | src/image_processing/load.py:7-11 | Filtering a concatenation of listings gives the concatenation of the filtered parts, so listing order is kept. |
| `Load.ImageFilesIdempotent` | src/image_processing/load.py:7-11 | Filtering the kept names again changes nothing. |
| `Load.ImageFilesMultiplicity` | src/image_processing/load.py:7-11 | A name with an image suffix is kept as often as it occurs in the listing. Any other name is never kept. |
| `Load.UpperCaseExtensionDropped` | src/image_processing/load.py:10 | The suffix test is case-sensitive: `a.JPG` has no image suffix and is dropped, while `b.jpg` beside it is kept. |
| `Load.LoadImages` | src/image_processing/load.py:5-13 | The names returned are the filtered listing. The images and the names have equal length, and image k is opened from name k. An empty listing gives two empty lists. |
| `Process.LevelFactor` | src/image_processing/process.py:50-51 | The brightness and contrast factor `level / 50.0` is 1 exactly at level 50 and 0 exactly at level 0. It lies in [0, 2] for levels in [0, 100] and is 2 at level 100. |
| `Process.HueSaturationOffset` | src/image_processing/process.py:52 | The offset `(saturation - 50) * 2` is 0 exactly at 50, lies in [-100, 100] for saturation in [0, 100], and is always even. |
| `Process.PipelineArgumentsInRange` | src/image_processing/process.py:45-62 | For every knob setting the sidebar allows: Resize gets height and width in [1, 10000]; the rotation lies in [0, 360] and the shear in [0, 100] degrees; the brightness and contrast factors lie in [0, 2]; the hue/saturation offset lies in [-100, 100]; the noise scale range is (0, hi) with hi in [0, 25500]; both translation fractions lie in [0, 1]; both scale ranges lie within [0, 2] and contain 1; the crop range starts at 0 and its upper end lies in (0, 100]. |
| `Process.NoiseScaleMax` | src/image_processing/process.py:53 | The upper end `noise * 255` is 0 exactly when noise is 0 and lies in [0, 25500] for noise in [0, 100]. It is 25500 at 100 and exceeds 255 from noise 2 on. |
| `Process.ShiftFraction` | src/image_processing/process.py:54 | The translation fraction `shift / 100` is 0 exactly at shift 0 and lies in [0, 1] for shift in [0, 100]. |
| `Process.ScaleInterval` | src/image_processing/process.py:56-61 | The scale range `[1 - stretch/100, 1 + stretch/100]` is symmetric about 1 and has width stretch/50. It is a single point exactly when stretch is 0, and for stretch in [0, 100] it lies within [0, 2] and contains 1. At the widest stretch, 100, it is exactly [0, 2]. |
| `Process.CropInterval` | src/image_processing/process.py:62 | The crop percent range starts at 0. Its upper end is at least 1 exactly when crop_size is at least 100. For crop_size in [1, 10000] the upper end lies in (0, 100]. |
| `Process.DefaultCropFraction` | src/image_processing/process.py:62 | At the sidebar default crop_size 512, the crop range reaches 5.12. |
| `Process.Pipeline` | src/image_processing/process.py:45-63 | There are exactly ten stages, in the order Resize, Rotate, brightness, contrast, hue/saturation, noise, translation, shear, scale, crop. The noise range starts at 0. Both axes get the same translation fraction and the same scale range. The brightness and contrast factors are equal exactly when the two levels are. |
| `Process.ResizeDimensionsSwapped` | src/image_processing/process.py:45-48 | Resize receives height = resize_width and width = resize_height. Its height equals resize_height only when the two are equal. |
| `Process.NeutralKnobs` | src/image_processing/process.py:49-61 | Rotation, colour, noise and geometry stages all get identity magnitudes exactly when the knobs are: rotation 0, brightness, contrast and saturation 50, noise, shift, tilt and stretch 0. |
| `Process.ToRgbIfRgba` | src/image_processing/process.py:42-43 | The result is never in RGBA mode. An RGBA image becomes an RGB image of the converted pixels. An image in any other mode passes unchanged. |
| `Process.ProcessImages` | src/image_processing/process.py:40-68 | The output has the length of the input. Output k is the ten-stage pipeline, as call number k, applied to input k after its RGBA conversion. |
| `Render.LowerKeepsImageExtension` | src/ui/main.py:45-48 | A name with an image suffix still has it after lower-casing. |
| `Render.LoadedNamesPassFolderCheck` | src/ui/main.py:45-48 | If the loader keeps any name of a listing, the lower-cased folder check passes for that listing. |
| `Render.FolderCheckPassesButNothingLoads` | src/ui/main.py:45-48 | The converse fails: the listing `["A.PNG"]` passes the check, yet the loader keeps nothing from it. |
| `Render.NumCols` | src/ui/main.py:76 | `min(3, n)` is at most 3 and at most n. It is 0 exactly when there are no images and 3 exactly when there are at least 3. |
| `Render.Ceil` | src/ui/main.py:77 | `math.ceil(x)` is the integer c with c - 1 < x <= c. |
| `Render.NumRows` | src/ui/main.py:77 | num_rows is 0 without images and never divides by zero. num_rows·num_cols is at least n, and (num_rows - 1)·num_cols is below n. |
| `Render.NumRowsIsIntegerCeiling` | src/ui/main.py:77 | For n >= 1 the float ceiling equals the integer ceiling `(n + num_cols - 1) // num_cols`. |
| `Render.Cell` | src/ui/main.py:80-81 | The column is below num_cols, and row·num_cols + column gives back the image index. |
| `Render.CellInjective` | src/ui/main.py:79-81 | Distinct image indices get distinct (row, column) cells. |
| `Render.CellOfIndex` | src/ui/main.py:80-81 | Every cell is the cell of its own row-major index. |
| `Render.CellInBounds` | src/ui/main.py:78-82 | For every index below n, `rows[row_idx][col_idx]` is in range: row below num_rows, column below num_cols. |
| `Render.NoEmptyRow` | src/ui/main.py:76-78 | The first cell of every row holds an image, so no row is created empty. |
| `Render.PlaceImages` | src/ui/main.py:76-84 | The grid has num_rows rows of num_cols columns. Each cell shows the image of its row-major index, numbered index + 1, when that index is below n, and nothing otherwise. |
| `Render.EveryImageShownOnce` | src/ui/main.py:79-84 | Each image is shown in the cell `Cell` gives it, and that cell shows exactly that one image. |
| `Render.SaveName` | src/ui/main.py:95 | The saved name starts with `transformed_`, and the original name can be read back after that prefix. |
| `Render.SaveNameInjective` | src/ui/main.py:92-96 | Different original names give different saved names. |
| `Render.SaveNameKeepsImageExtension` | src/ui/main.py:92-96 | The saved name has an image suffix exactly when the original name has one. |
| `Render.SaveImages` | src/ui/main.py:92-97 | One save per processed image, in order. Image k is saved in the output directory under `transformed_` + name k. |
| `Render.ShowProcessed` | src/ui/main.py:60-97 | Given equally many images and names: the grid has `NumRows` rows of `NumCols` cells. The cell at row-major index k holds exactly image k, processed as call k, with caption number k+1, and every cell past the last image is empty; so image k is shown in the cell `Cell` gives it. Image k is saved as `transformed_` + name k when saving is on. Nothing is saved otherwise. |
| `Render.FreshFolderAsWritten` | src/ui/main.py:38-58 | As written, for a new folder path, `images` is left unassigned exactly when the path is not a directory or the check finds no image. Otherwise it holds what `load_images` returns. |
| `Render.MissingFolderLeavesImagesUnassigned` | src/ui/main.py:41-44 | A new folder path that is not a directory reaches line 60 with `images` unassigned. |
| `Render.ImagelessFolderLeavesImagesUnassigned` | src/ui/main.py:45-51 | A directory listing only `notes.txt` also reaches line 60 with `images` unassigned. |
| `Render.ShowAndSave` | src/ui/main.py:41-97 | Corrected flow. A path that is not a directory, a folder that fails the check, and a folder that passes but loads nothing each end with their own outcome. Otherwise the images are shown: the grid has `NumRows` rows of `NumCols` cells, the cell at row-major index k holds exactly image k processed from loaded file k, cells past the last image are empty. When saving is requested and allowed, image k is saved as `transformed_` + its file name. Every saved name has an image suffix. |

## Left out

- The pixel effects of the augmenters are left out. That covers resampling, rotation fill, colour arithmetic, clamping, Gaussian sampling, affine warps and cropping. It also covers `np.array` and `Image.fromarray`, which are folded into the uninterpreted `Library.augment`.
- imgaug's random sampling within the given ranges is left out. The call number passed to `augment` stands for the state of imgaug's global random generator.
- Floating-point rounding of the divisions is left out; the model uses exact rationals.
- `img.convert('RGB')` is modelled only as the mode tag changing and an uninterpreted pixel function.
- `Process.ProcessImages` builds the same `Pipeline(p)` value in every iteration. That the source builds a new `iaa.Sequential` object per image is not modelled.
- Filesystem calls are left out: `os.listdir`, `Image.open`, `os.path.isdir`, `os.path.exists`, `os.makedirs`, `os.access`, `os.path.join` and `img.save`. The listing is an input, opening a file is the function parameter `open`, and a save is recorded as a `SaveCall` of directory, file name and image. Exceptions these calls raise are not modelled.
- Streamlit is left out: the widgets, the error and success messages, the caption text and `width=300`, and `st.columns` beyond the placement of each image in its cell.
- The `st.session_state` cache is left out: lines 38-39 and the branch at lines 56-58 for an unchanged folder path. `Render.ShowAndSave` covers only a newly entered folder path.
- `Render.ShowAndSave` collapses the three `output_path` tests and the save button into the input `saveRequested`. It takes `os.access(output_path, os.W_OK)` as the input `writable`, and does not model directory creation.
- The `else` branch at src/ui/main.py:107-110 cannot be reached, because it sits inside `if images:`. It has no counterpart in the model.
- `Render.Lower`: lower-cases the ASCII letters A-Z only, not the rest of Unicode that Python's `str.lower` handles.
- `Process.ProcessImages`: takes `Library.augment` and `Library.dropAlpha` always to return. Its ensures, and the `Shown` outcome of `Render.ShowAndSave`, describe only runs in which no foreign call raises. In the source, the first exception from imgaug or PIL inside the loop at src/image_processing/process.py:41-67 aborts the whole batch, and nothing is returned, shown or saved. One such input within the accepted suffixes: a `.gif` opens in palette mode `P`, which line 42 does not convert, so it reaches the colour augmenters as it is.
- `Render.ShowAndSave`: the `Shown` outcome assumes that opening, processing and saving every image returns. A raised exception, which ends the source's run before anything is shown, has no outcome in the model.
- `Process.ProcessImages`: no range requirement on the knobs, since the Python function checks none. Whether imgaug accepts out-of-range arguments is foreign behaviour.

## Findings

| source | as written | input that shows it | evidently intended | confidence | as-written member | corrected member |
|---|---|---|---|---|---|---|
| src/ui/main.py:41-60 | For a newly entered folder path, the "not a directory" branch (41-44) and the "no images" branch (45-51) show an error and fall through to `if images:` at line 60. `images` was never assigned in that run, so Python raises `UnboundLocalError`. | A new folder path that does not exist, or a directory whose listing is only `notes.txt` | The run ends after the error message, as it does for an empty path at lines 34-36 | high; not executed | `Render.FreshFolderAsWritten`, exhibited by `Render.MissingFolderLeavesImagesUnassigned` and `Render.ImagelessFolderLeavesImagesUnassigned` | `Render.ShowAndSave`, which ends with `NotADirectory` or `NoImagesInFolder` on those inputs |
