/** Small vocabulary shared by every component. */
module Common {

  datatype Option<+T> = None | Some(value: T)

  /** One octet of binary data. */
  type Byte = b: int | 0 <= b < 256

  type UInt16 = v: int | 0 <= v < 65536

  /** A function of the application, called back with a result. */
  type Callback = nat

  const BT_STATUS_SUCCESS := 0

  /** Identifies a GATT connection while it lasts. */
  type ConnId = int

  function AsSeq<T>(x: Option<T>): seq<T> { if x.None? then [] else [x.value] }

  /** Takes the elements of a sequence into a record, one by one and in order. */
  function Fold<W, O>(f: (W, O) -> W, w: W, xs: seq<O>): W
    decreases |xs|
  {
    if xs == [] then w else Fold(f, f(w, xs[0]), xs[1..])
  }

  lemma FoldOne<W, O>(f: (W, O) -> W, w: W, x: O)
    ensures Fold(f, w, [x]) == f(w, x)
  {
  }

  lemma FoldTwo<W, O>(f: (W, O) -> W, w: W, x: O, y: O)
    ensures Fold(f, w, [x, y]) == f(f(w, x), y)
  {
    assert [x, y][1..] == [y];
    FoldOne(f, f(w, x), y);
  }
}
