# ColorByNumber core, modelled in Dafny

ColorByNumber turns a photograph into a colour-by-number page. It does this in four steps:

1. It quantises the image to a small palette: nearest palette colour by summed squared channel difference, or k-means clustering.
2. It labels the 4-connected single-colour regions ("islands") with a worklist flood fill.
3. It draws the outline page: a white canvas, every island pixel in the border colour, and each island's colour number at the island's centroid.
4. The web front end parses `#rrggbb` colours (the six-digit hexadecimal notation of section 5.2 of CSS Color Module Level 4). It also assembles the run's configuration from the defaults and the form.

The model has five modules, one file each:

- `Pixels` (`pixels.dfy`): shared values. These are RGB triples with unbounded integer channels, positions, images as row-major sequences of rows, islands and error outcomes.
- `SimplifyImage` (`simplify_image.dfy`):
  - the nearest-palette quantiser, as pure functions with first-minimum `argmin` semantics;
  - the index arithmetic after clustering;
  - the branching of `simplify_image` as a method. Clustering, denoising and the random colour reassignment are function parameters.
- `GenIslands` (`gen_islands.dfy`):
  - `_is_same_color` and `_get_neighbors` as methods;
  - `get_islands` as a method with the same nested worklist loops over sets. Python's arbitrary `set.pop()` is `:|`.
  - Ghost `owner`/`slot` maps record which island holds each pixel, and at which position. The proof rests on the invariants they support: same colour, 4-connected, disjoint, maximal, covering.
- `NumberedIslands` (`numbered_islands.dfy`):
  - `_get_centroid` as an accumulating loop;
  - the colour→number loop;
  - canvas painting, in place on an `array2`;
  - text drawing, recorded as a list of `putText` calls (number, swapped origin, font constants).
- `Callbacks` (`callbacks.dfy`):
  - `_hex_to_rgb`, with Python's slice clamping and `lstrip`;
  - the palette truncation `color_list[:num_colors]`, with negative counts;
  - the config copy-and-override of `get_color_by_number`, as sequential map updates;
  - the `None` guard of `change_font_on_image`.

Errors that the program raises as exceptions are `Failure` results in the model:

- argmin over an empty palette;
- reading pixel (0, 0) of an empty image;
- a k-means label that names no centre, or labels that cannot be reshaped to the image;
- `int(..., 16)` on an empty or non-hex slice.

## Model

| member | source | states |
|---|---|---|
| `SimplifyImage.SqDistZero` | colorbynumber/simplify_image.py:27 | The summed squared channel difference is never negative, and is zero exactly when the two colours are equal. |
| `SimplifyImage.FirstArgmin` | colorbynumber/simplify_image.py:28 | `argmin` returns a position holding the minimum, strictly below every earlier entry: ties go to the first. |
| `SimplifyImage.ClosestIndexIsFirstNearest` | colorbynumber/simplify_image.py:27-28 | The chosen palette position minimises the distance to the pixel over the whole palette, and it is the lowest such position. |
| `SimplifyImage.FirstNearestUnique` | colorbynumber/simplify_image.py:28 | The "first nearest" position is unique, so the tie-break fully determines the choice. |
| `SimplifyImage.ExactMatchChosen` | colorbynumber/simplify_image.py:27-29 | A pixel equal to a palette colour gets that colour back, at distance 0, at a position no later than that entry's. |
| `SimplifyImage.ClosestIndexFixedPoint` | colorbynumber/simplify_image.py:27-29 | Quantising a chosen palette colour chooses the same position again. |
| `SimplifyImage.ChooseClosestColors` | colorbynumber/simplify_image.py:8-34 | It fails exactly on an empty palette. Otherwise the output has the input's shape, every index lies in 1..len(palette), each output pixel is `palette[index-1]`, and each index is the first nearest entry for its input pixel. |
| `SimplifyImage.RequantizeIdempotent` | colorbynumber/simplify_image.py:157-161 | Quantising an already quantised image reproduces the same image and the same index map. |
| `SimplifyImage.PaletteImageUnchanged` | colorbynumber/simplify_image.py:27-29 | An image made only of palette colours is left unchanged by quantisation. |
| `SimplifyImage.Lookup` | colorbynumber/simplify_image.py:135 | `palette[indices - 1]` rebuilds an image that agrees with the index map and the palette. |
| `SimplifyImage.KMeansSimplifyImage` | colorbynumber/simplify_image.py:48-56 | It succeeds exactly when the labels have the image's shape and all name a centre. Then the centres are the palette, the indices are the labels plus one, and image, indices and palette agree. |
| `SimplifyImage.Simplify` | colorbynumber/simplify_image.py:78-163 | Details below the table. |
| `GenIslands.IsSameColor` | colorbynumber/gen_islands.py:2-14 | True exactly when all three channels are equal. |
| `GenIslands.NeighborsExactly` | colorbynumber/gen_islands.py:26-36 | A position is a neighbour exactly when it is in the grid and one step up, down, left or right. In-grid adjacency is symmetric. |
| `GenIslands.NeighborsBounded` | colorbynumber/gen_islands.py:26-36 | At most four neighbours, never the pixel itself, all in the grid. |
| `GenIslands.GetNeighbors` | colorbynumber/gen_islands.py:17-36 | For an in-grid pixel, the result is exactly its in-grid 4-neighbours. Any result holds only adjacent positions. |
| `GenIslands.ClosedSetCoversGrid` | colorbynumber/gen_islands.py:56-57 | A set that holds (0, 0) and is closed under in-grid neighbours holds every pixel: the grid is 4-connected. |
| `GenIslands.AllPixelsCard` | colorbynumber/gen_islands.py:57 | A rows × cols grid has rows × cols pixels, which bounds the loop and the island count. |
| `GenIslands.OwnedDisjoint` | colorbynumber/gen_islands.py:60-63 | When every pixel has a single recorded owner island and slot, no pixel occurs twice, within or across islands. |
| `GenIslands.StartIsland` | colorbynumber/gen_islands.py:58-65 | Seeding a fresh island from an unvisited pending pixel turns the between-seeds invariant into the growing invariant. |
| `GenIslands.SkipVisited` | colorbynumber/gen_islands.py:69-70 | Dropping a visited pixel from the frontier keeps the growing invariant. |
| `GenIslands.Absorb` | colorbynumber/gen_islands.py:71-74 | Appending a same-coloured unvisited frontier pixel keeps the growing invariant, with its neighbours added to the frontier. |
| `GenIslands.Defer` | colorbynumber/gen_islands.py:75-76 | Pushing a differently coloured frontier pixel as a future seed keeps the growing invariant. |
| `GenIslands.FinishIsland` | colorbynumber/gen_islands.py:82-84 | Once the frontier is empty, appending the island, tagged with its seed colour's name, restores the between-seeds invariant. |
| `GenIslands.Finish` | colorbynumber/gen_islands.py:57-87 | With no seeds left, the islands are a partition: well formed, in the grid, disjoint, maximal and covering. |
| `GenIslands.GrowIsland` | colorbynumber/gen_islands.py:66-81 | The inner loop runs until the frontier is empty, keeps the growing invariant and only adds to the visited set. |
| `GenIslands.GetIslands` | colorbynumber/gen_islands.py:38-87 | Details below the table. |
| `NumberedIslands.GetCentroid` | colorbynumber/numbered_islands.py:4-18 | On a non-empty list it returns the floor of the mean row and the floor of the mean column. |
| `NumberedIslands.CentroidInBox` | colorbynumber/numbered_islands.py:13-18 | Each centroid coordinate lies between the least and greatest value of that coordinate. |
| `NumberedIslands.CentroidInGrid` | colorbynumber/numbered_islands.py:13-18 | The centroid of in-grid positions is in the grid. |
| `NumberedIslands.NumberColors` | colorbynumber/numbered_islands.py:62-64 | Every island's colour gets a number in 1..len(islands). That number is 1 + the position of the colour's last island, and no later island has that colour. |
| `NumberedIslands.NumberNext` | colorbynumber/numbered_islands.py:63-64 | Numbering one more island keeps all three facts, one island further. |
| `NumberedIslands.AddTextToImage` | colorbynumber/numbered_islands.py:21-46 | The text is drawn at (column, row): the swapped position. Font scale is 1, colour black, thickness 2. |
| `NumberedIslands.PaintIsland` | colorbynumber/numbered_islands.py:67-68 | Every position of the island holds the border colour afterwards; every other cell keeps its value. |
| `NumberedIslands.PaintNext` | colorbynumber/numbered_islands.py:66-68 | Painting island k onto a canvas painted with the islands before it gives the canvas painted with the first k + 1 islands. |
| `NumberedIslands.DrawIslands` | colorbynumber/numbered_islands.py:66-76 | Starting from white, a cell ends in the border colour exactly when some island holds it. There is one text per island, in order: its colour's number at its centroid. |
| `NumberedIslands.CreateNumberedIslands` | colorbynumber/numbered_islands.py:49-78 | Details below the table. |
| `NumberedIslands.TextInsideCanvas` | colorbynumber/numbered_islands.py:36 | The text origin of an island with in-grid pixels lies inside the canvas, column as x and row as y. |
| `Callbacks.LStripHash` | gradio_server/callbacks.py:7 | The result is a suffix of the input that does not start with '#'. Everything stripped was '#': every leading '#' goes. |
| `Callbacks.LStripHashPrefix` | gradio_server/callbacks.py:7 | Any number of leading '#'s is removed from a string that does not itself start with '#'. |
| `Callbacks.HexToRgb` | gradio_server/callbacks.py:6-8 | A parsed colour has three channels in 0..255. Any failure is the invalid-hex error. |
| `Callbacks.HexToRgbSucceeds` | gradio_server/callbacks.py:8 | Parsing succeeds exactly when at least five characters remain after the '#'s and the first six (or five) of them are hex digits. |
| `Callbacks.HexToRgbRoundTrip` | gradio_server/callbacks.py:6-8 | Any number of '#'s followed by the two-digit hex forms of r, g, b (each in 0..255) parses back to (r, g, b). |
| `Callbacks.HexToRgbCaseInsensitive` | gradio_server/callbacks.py:8 | Upper-casing the input does not change the result. |
| `Callbacks.HexToRgbIgnoresTail` | gradio_server/callbacks.py:8 | When six characters remain after the '#'s, appending anything changes nothing. |
| `Callbacks.PyPrefix` | gradio_server/callbacks.py:19 | `seq[:n]` is the prefix of length min(n, len) for n ≥ 0, and len + n (at least 0) for negative n. |
| `Callbacks.ConvertColors` | gradio_server/callbacks.py:20 | It succeeds exactly when every colour parses. Then it holds the parsed colours, same length and order. |
| `Callbacks.OverrideSettings` | gradio_server/callbacks.py:23-33 | The copied defaults hold the ten form values assigned before `font_color`. The key set is the defaults plus the twelve form keys. The untouched keys keep their defaults. |
| `Callbacks.UpdateConfig` | gradio_server/callbacks.py:23-35 | It succeeds exactly when the font colour parses. Then the twelve form keys hold the form's values, the font colour parsed, and every other default key keeps its default. |
| `Callbacks.GetColorByNumber` | gradio_server/callbacks.py:10-48 | Details below the table. |
| `Callbacks.ChangeFontOnImage` | gradio_server/callbacks.py:61-76 | Without an image the result is "nothing", and the font colour is not even parsed. With one, it fails exactly when the colour does not parse, and otherwise redraws with the parsed colour. |

`SimplifyImage.Simplify` promises the following. "Denoised first" means the input image after a "before_simplify" denoise.

- On every path, the returned image, indices and palette agree.
- With a given palette and no k-means, the result is the quantiser's answer for the image denoised first, with the caller's palette. Any `denoise_order` other than "after_simplify" falls under this case.
- With a given palette, no k-means and an "after_simplify" denoise, the quantised image is denoised and quantised again, and that second answer is the result.
- A given palette without k-means is the palette returned, and an empty one fails.
- With no palette, the result is exactly the clustering of the image denoised first. After an "after_simplify" denoise, the clustered image is denoised and quantised again against the cluster centres.
- With a given palette and k-means, a clustering failure is the result. Otherwise:
  - the palette is the recoloured cluster centres, in order;
  - the cluster indices are kept, and the image is rebuilt from the new palette;
  - after an "after_simplify" denoise, that rebuilt image is denoised and quantised again against the new palette.
- After an "after_simplify" denoise, quantising the result again reproduces it, whatever the denoiser did.

`GenIslands.GetIslands` fails exactly on an image without rows or columns. Otherwise the islands partition the image:

- each island is non-empty;
- each island is of its seed's colour and tagged with that colour's name;
- each pixel of an island is 4-adjacent to an earlier one;
- the islands lie in the grid and are pairwise disjoint;
- each island is maximal;
- together they cover the grid;
- there are at most rows × cols of them.

`NumberedIslands.CreateNumberedIslands` returns a fresh rows × cols canvas. A cell holds the border colour exactly when some island holds it, and white otherwise. Every island's colour is numbered 1 + the position of its last island, so every number lies in 1..len(islands). There is one text per island, its colour's number at its centroid.

`Callbacks.GetColorByNumber` succeeds exactly when the first `num_colors` picker colours and the font colour all parse. On success:

- the palette request is automatic with `number_of_colors`, or else the converted pickers in order;
- the configuration is the one `UpdateConfig` describes.

## Left out

- The `ColorByNumber` construction and everything after it (gradio_server/callbacks.py:37-59, colorbynumber/main.py): main.py calls functions and signatures that the other files do not have. The model returns the request the constructor would receive: image path, palette choice and configuration.
- `cv.kmeans` (colorbynumber/simplify_image.py:40-45) is a foreign float32 clustering with random restarts. Its labels, already in the image's shape, and its centres, already cast to uint8, are inputs to `SimplifyImage.KMeansSimplifyImage` and the result of a function parameter in `SimplifyImage.Simplify`.
- `_denoise_image` (colorbynumber/simplify_image.py:58-76) is OpenCV filtering, modelled as a total Image→Image parameter. An unknown `denoise_type`, which raises in the program, is not modelled.
- The `apply_kmeans` colour reassignment (colorbynumber/simplify_image.py:117-127) uses `random.shuffle` and `assign_colors`, from a file this model does not include. It becomes a parameter mapping each cluster centre to a colour. The `color_areas` loop only feeds `assign_colors`, so it is not modelled.
- SimplifyImage.Simplify takes `denoise`, `denoise_order` and `apply_kmeans` as values instead of reading them from the configuration. The default configuration (colorbynumber/config.py:1-11) lacks five keys that simplify_image.py reads: `apply_kmeans`, `debug`, `denoise_order`, `denoise_type` and `blur_size`. Since `denoise` defaults to true, the program called with the default configuration raises `KeyError` on `denoise_order` (colorbynumber/simplify_image.py:94) before doing anything else; the model does not represent that failure.
- Debug output (`print`, `show_image`) in simplify_image.py and gen_islands.py is I/O with no effect on results.
- NumPy dtypes: channels are unbounded integers. The uint8 arithmetic that can wrap when the palette is itself uint8 (the re-quantisation after k-means) is not modelled, nor is dtype promotion. Values are immutable, so "the input array is not modified" holds by construction.
- GenIslands.GetIslands names an island's colour with a function parameter standing for `color_list[current_color]`. A missing key or an unhashable NumPy pixel in that lookup is not modelled.
- NumberedIslands.CreateNumberedIslands requires every island to be non-empty and inside the canvas, as `get_islands` produces them. Out-of-range positions (an `IndexError`) and negative ones (NumPy wrap-around) are not modelled.
- NumberedIslands.GetCentroid requires a non-empty list. The program divides by zero on an empty one.
- `cv2.putText` glyph pixels (colorbynumber/numbered_islands.py:37-46) are recorded as draw commands only. The canvas property therefore describes the border painting alone. Glyphs of earlier numbers that later borders overwrite are not modelled.
- Callbacks.HexToRgb accepts only hexadecimal digits in each slice. Python's `int(..., 16)` also accepts surrounding whitespace and a leading sign, for example " f" or "+f", which the model reports as invalid.
- Colour-picker values are strings. A picker holding no value, which reaches `lstrip` as `None` in the program, is not modelled.
- The configuration's string keys are an enumeration of the same names. Form numbers are reals, and the Gradio value types are not modelled.
- Callbacks.ChangeFontOnImage takes `add_numbers_to_image`, which colorbynumber/numbered_islands.py does not define, as a parameter. The `data` dictionary lookups it is given, and their `KeyError`s, are not modelled.
- gradio_server/app.py, gradio_server/doc.py and colorbynumber/utils.py are UI wiring, Markdown text and plotting, with no behaviour to verify.
