# Passport-photo crop geometry

A Dafny model of the computational part of `photo-crop.py`, a command-line tool
that crops a portrait to passport proportions (35 mm x 45 mm) around a face found
by a landmark detector, and rescales the image's DPI for the cropped size.

The model (module `PhotoCrop`, file `photo_crop.dfy`) covers:

- **Face selection**: the first detected face is used; an empty detection list
  is the one error the crop code raises itself (`NoFaceDetected`).
- **Landmark geometry**: the nose-bridge anchor (the point at index `n / 2`),
  the chin bottom (largest chin y), the eye top (smallest y over the left-eye
  points followed by the right-eye points) and the face height between them.
- **Crop rectangle**: a nominal rectangle of height `face height * magnitude`
  and width `height * 35/45`, centred horizontally on the anchor and vertically
  on the anchor shifted down by `(bias - 1) * face height / 2`; each edge then
  clamped on its own to the image (top and left to at least 0, bottom and right
  to at most the height and width), without re-centring.
- **Pixel box**: each clamped edge converted to an integer by truncation toward
  zero, as Python's `int()` does.
- **DPI rescale**: per axis, `new / original * dpi`.

Landmarks are a `map<string, seq<Point>>` with integer points, the form the
detector yields. The arithmetic is over `real`. The image's width and height
are parameters, and so is the DPI.

The crop computation has no error handling of its own beyond the empty detection list.
A missing landmark feature (Python `KeyError`), an empty nose bridge
(`IndexError`), an empty chin list, or both eye lists empty (`ValueError` from `max`/`min`) and a
zero original dimension in the DPI rescale (`ZeroDivisionError`) all crash it.
These appear as preconditions: `HasCropLandmarks` for the landmarks, and
non-zero original dimensions for `NewDpi`.

Two behaviours of the code are kept as they are:
- The code does not check that the face height is positive or that the clamped
  rectangle has positive area. The face height here may be zero or negative.
  Non-emptiness is stated only under explicit preconditions: `CropNonEmpty`
  says when the rectangle is non-empty, and `CropBoxOrdered` says when the
  box's edges are in order.
- The pixel conversion is `int()`, which truncates toward zero. `Trunc` models
  it: it is the floor for non-negative edges and the ceiling for negative ones.

## Model

| member | source | states |
|---|---|---|
| `PhotoCrop.FirstFace` | photo-crop.py:23-27 | an error exactly when no face was detected; otherwise the first face |
| `PhotoCrop.FirstFaceIgnoresLaterFaces` | photo-crop.py:26-27 | with at least one face, appending further faces, or replacing all faces after the first, leaves the selection unchanged |
| `PhotoCrop.MiddleIndex` | photo-crop.py:31 | the index `n / 2` is valid for a non-empty list; it has as many points after it as before for odd n, and one more point before it than after it for even n |
| `PhotoCrop.NoseBridgeCenter` | photo-crop.py:29-32 | the anchor is a nose-bridge point, exactly the one at the middle index |
| `PhotoCrop.MaxY` | photo-crop.py:44 | the result is at least every point's y and equals some point's y |
| `PhotoCrop.MinY` | photo-crop.py:45 | the result is at most every point's y and equals some point's y |
| `PhotoCrop.HasCropLandmarks` | photo-crop.py:30-45 | exactly the landmarks the code reads without crashing: all four features present, nose bridge and chin non-empty, and at least one of the two eyes non-empty |
| `PhotoCrop.Eyes` | photo-crop.py:45 | the eye points are the left-eye points followed by the right-eye points: length is the sum, each left-eye point at its own index, each right-eye point shifted by the left eye's length |
| `PhotoCrop.ChinBottom` | photo-crop.py:40-44 | the chin bottom is at least every chin point's y and equals one of them |
| `PhotoCrop.EyeTop` | photo-crop.py:41-45 | the eye top is at most every y over the left-eye then right-eye points, and equals one of them |
| `PhotoCrop.EyeTopOfBothEyes` | photo-crop.py:45 | with both eyes non-empty, the eye top is the smaller of the two eyes' minimum y |
| `PhotoCrop.FaceHeight` | photo-crop.py:44-47 | the face height is the largest chin-y minus eye-y over all chin/eye pairs, and is attained by one such pair |
| `PhotoCrop.CropHeight` | photo-crop.py:56 | the crop height is non-negative for non-negative face height and magnitude, positive when both are positive, and zero when either is zero |
| `PhotoCrop.CropWidth` | photo-crop.py:50-57 | 45 times the crop width is 35 times the crop height; for a non-negative height the width lies between 0 and the height |
| `PhotoCrop.BiasAdjustment` | photo-crop.py:60 | zero for bias 1; for a positive face height, positive exactly when bias > 1 and negative exactly when bias < 1; twice the shift is the extra height `bias * h - h` |
| `PhotoCrop.DefaultBiasShift` | photo-crop.py:34-60 | with the default scaling (2.5, 1.1) the shift is 0.05 of the face height and the crop height 2.5 times it |
| `PhotoCrop.NominalRect` | photo-crop.py:50-64 | the unclamped rectangle has height `face height * magnitude`, width that times 35/45, horizontal centre at the anchor x, and vertical centre at the anchor y plus the bias shift |
| `PhotoCrop.Clamp` | photo-crop.py:61-64 | the result is within the image borders (left, top >= 0; right <= width; bottom <= height); each edge is on the inner side of its unclamped value, and is either that value or the image border; a rectangle already within the borders is unchanged |
| `PhotoCrop.CropRect` | photo-crop.py:36-64 | the crop rectangle is within the image borders (top, left >= 0; bottom <= height; right <= width), and each edge is on the inner side of the nominal rectangle's |
| `PhotoCrop.UnclampedCropIsNominal` | photo-crop.py:50-64 | when no clamp fires, the crop height is `face height * magnitude`, width/height is 35/45, and the crop is centred on the (biased) anchor |
| `PhotoCrop.AnchorInsideCrop` | photo-crop.py:56-64 | with non-negative face height and magnitude, an anchor x inside the image lies between left and right, and an anchor y plus bias inside the image lies between top and bottom |
| `PhotoCrop.CropNonEmpty` | photo-crop.py:56-64 | for a non-empty image, positive face height and magnitude, and the anchor inside the image, left < right and top < bottom |
| `PhotoCrop.Trunc` | photo-crop.py:67 | truncation toward zero: for x >= 0 the result is the greatest integer <= x; for x < 0, the least integer >= x |
| `PhotoCrop.TruncMonotone` | photo-crop.py:67 | truncation keeps the order of its arguments |
| `PhotoCrop.CropBox` | photo-crop.py:61-67 | the integer box is within the image borders (left, top >= 0; right <= width; bottom <= height); its left and top are the floors of the real edges and do not exceed them; its right and bottom are the real edges truncated toward zero |
| `PhotoCrop.CropBoxOrdered` | photo-crop.py:67 | a crop rectangle with edges in order gives a box with edges in order |
| `PhotoCrop.UnclampedExample` | photo-crop.py:34-67 | a face of height 80 anchored at (100, 150) in a 400 x 400 image gives the rectangle (200/9, 54, 1600/9, 254) and the box (22, 54, 177, 254) |
| `PhotoCrop.ClampedExample` | photo-crop.py:34-67 | the same face anchored at (20, 10) has its top and left clamped to 0: rectangle (0, 0, 880/9, 114), box (0, 0, 97, 114) |
| `PhotoCrop.NewDpi` | photo-crop.py:71-78 | per axis, new DPI times original size equals original DPI times new size; an unchanged size gives back the original DPI |
| `PhotoCrop.NewDpiKeepsPrintSize` | photo-crop.py:75-76 | DPI over pixels is the same before and after, per axis, and so the print size in inches (pixels over DPI) is unchanged |
| `PhotoCrop.NewDpiComposes` | photo-crop.py:71-78 | rescaling via an intermediate size gives the same DPI as rescaling directly |

## Left out

- Command-line parsing, `main`, console messages and saving to the fixed output file (photo-crop.py:80-103): I/O and orchestration.
- The check that the landmark-model package is installed, and the exit with status 1 (photo-crop.py:6-11): environment plumbing.
- Opening the image and reading its size and DPI, with the default of (72, 72) (photo-crop.py:13-17, 62, 64), and the image library's crop (photo-crop.py:66-68): foreign calls into the image library. Width, height and DPI are parameters; the model stops at the integer box handed to the crop.
- Loading the image and running the landmark detector (photo-crop.py:20-21): an opaque machine-learning library. Its output is the input `seq<Landmarks>` of `FirstFace`.
- IEEE-754 floating point: `35/45`, the divisions and the DPI ratio are exact reals here, so rounding is not modelled.
- The size of the cropped image, which feeds the DPI rescale in `main`, comes from the image library; it is not derived from the box here.
