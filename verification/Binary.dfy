/** Bytes, and facts about slices that hold for any element type. */
module Binary {

  type Byte = b: int | 0 <= b < 256
  type Bytes = seq<Byte>

  lemma SubSlice<T>(data: seq<T>, from: nat, to: nat, i: nat, j: nat)
    requires from <= to <= |data| && i <= j <= to - from
    ensures data[from..to][i..j] == data[from + i..from + j]
  {
    forall k | 0 <= k < j - i ensures data[from..to][i..j][k] == data[from + i..from + j][k] {
      assert data[from..to][i + k] == data[from + (i + k)];
    }
  }

  /** What is left of a concatenation behind its first part. */
  lemma DropFirst<T>(a: seq<T>, b: seq<T>)
    ensures (a + b)[..|a|] == a && (a + b)[|a|..] == b && a <= a + b
  {
  }

  lemma PrefixRest<T>(a: seq<T>, b: seq<T>)
    requires a <= b
    ensures b == a + b[|a|..]
  {
  }
}
