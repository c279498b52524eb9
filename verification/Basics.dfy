/** What several modules share: optional values, results, bytes, products and quotients. */
module Basics {

  datatype Option<T> = None | Some(value: T)

  datatype Result<T, E> = Ok(value: T) | Err(error: E)

  newtype byte = x: int | 0 <= x < 256

  function Fill<T>(n: nat, x: T): (s: seq<T>)
    ensures |s| == n
  {
    seq(n, _ => x)
  }

  lemma MulLe(a: int, b: int, d: nat)
    requires a <= b
    ensures a * d <= b * d
  {}

  lemma MulStep(n: int, d: int)
    ensures n * d == d + (n - 1) * d
  {}

  /** The only quotient between two multiples. */
  lemma DivIs(a: nat, d: nat, q: int)
    requires d > 0 && q * d <= a < (q + 1) * d
    ensures a / d == q
  {
    var r := a / d;
    assert r * d <= a < (r + 1) * d;
    if r < q { MulLe(r + 1, q, d); }
    if q < r { MulLe(q + 1, r, d); }
  }

  /** `triton.cdiv`: the number of blocks of `b` that cover `a`. */
  function Cdiv(a: nat, b: nat): nat
    requires b > 0
  {
    (a + b - 1) / b
  }

  /** A quotient is within the rounded-up count. */
  lemma InCount(a: nat, n: nat, b: nat)
    requires b > 0 && a < n
    ensures a / b < Cdiv(n, b) && (a / b) * b <= a < (a / b + 1) * b
  {
    var q, c := a / b, Cdiv(n, b);
    assert q * b <= a < (q + 1) * b;
    assert c * b <= n + b - 1 < (c + 1) * b;
    assert (q + 1) * b == q * b + b;
    if c <= q { MulLe(c + 1, q + 1, b); }
  }

  // ---- a matrix in a flat buffer, row after row --------------------------------------------------

  function Area(rows: nat, width: nat): nat {
    rows * width
  }

  /** The address of a cell. */
  function Address(rows: nat, width: nat, row: nat, col: nat): (k: nat)
    requires row < rows && col < width
    ensures k < Area(rows, width)
  {
    MulLe(row + 1, rows, width);
    assert (row + 1) * width == row * width + width;
    row * width + col
  }

  /** Different cells have different addresses. */
  lemma CellApart(rows: nat, width: nat, row: nat, col: nat, r: nat, c: nat)
    requires row < rows && col < width && r < rows && c < width
    requires Address(rows, width, r, c) == Address(rows, width, row, col)
    ensures r == row && c == col
  {
    MulStep(row + 1, width);
    MulStep(r + 1, width);
    if r < row { MulLe(r + 1, row, width); }
    if row < r { MulLe(row + 1, r, width); }
  }

  lemma CellsApart(rows: nat, width: nat, row: nat, col: nat)
    requires row < rows && col < width
    ensures forall r, c :: 0 <= r < rows && 0 <= c < width && Address(rows, width, r, c) == Address(rows, width, row, col) ==>
              r == row && c == col
  {
    forall r, c | 0 <= r < rows && 0 <= c < width && Address(rows, width, r, c) == Address(rows, width, row, col)
      ensures r == row && c == col
    {
      CellApart(rows, width, row, col, r, c);
    }
  }

  lemma Associates<T>(a: seq<T>, b: seq<T>, c: seq<T>)
    ensures a + b + c == a + (b + c)
  {}
}
