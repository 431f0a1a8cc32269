/** Values shared by the whole pipeline: RGB triples, pixel positions, images as
    row-major grids, islands, and the error outcomes of the operations. */
module Pixels {

  /** One RGB pixel. Channels are mathematical integers; in the program they are
      the entries of a NumPy array's last axis. */
  datatype Rgb = Rgb(r: int, g: int, b: int) {

    /** Channel `i` of the pixel (0 red, 1 green, 2 blue), as indexing `color[i]`. */
    function Channel(i: nat): int
      requires i < 3
    {
      if i == 0 then r else if i == 1 then g else b
    }
  }

  /** The value every channel of a fresh canvas holds (`np.ones(...) * 255`). */
  const White := Rgb(255, 255, 255)

  /** A pixel position as (row, column). */
  type Pos = (int, int)

  /** An image: a sequence of rows of pixels. */
  type Image = seq<seq<Rgb>>

  /** Number of columns of a grid (0 for a grid without rows). */
  function Cols<T>(g: seq<seq<T>>): nat
  {
    if |g| == 0 then 0 else |g[0]|
  }

  /** A NumPy array is rectangular: every row has the same length. */
  predicate Rectangular<T>(g: seq<seq<T>>)
  {
    forall i :: 0 <= i < |g| ==> |g[i]| == Cols(g)
  }

  /** `p` addresses a cell of a `rows` x `cols` grid. */
  predicate InGrid(p: Pos, rows: int, cols: int)
  {
    0 <= p.0 < rows && 0 <= p.1 < cols
  }

  /** Two grids have the same shape, row by row. */
  predicate SameShape<S, T>(a: seq<seq<S>>, b: seq<seq<T>>)
  {
    |a| == |b| && forall i :: 0 <= i < |a| ==> |a[i]| == |b[i]|
  }

  /** An island: the colour name it is tagged with and its pixels in discovery order. */
  datatype Island<L> = Island(name: L, pixels: seq<Pos>)

  /** The ways the modelled operations fail (Python exceptions in the program). */
  datatype Error =
    | EmptyPalette      // argmin over an empty palette axis
    | EmptyImage        // reading pixel (0, 0) of an image without pixels
    | LabelOutOfRange   // a cluster label that indexes no cluster centre
    | ShapeMismatch     // cluster labels that cannot be reshaped to the image
    | InvalidHex        // int(..., 16) on an empty or non-hexadecimal slice

  datatype Result<T> = Success(value: T) | Failure(error: Error)

  datatype Option<T> = None | Some(value: T)
}
