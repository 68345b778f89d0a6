/** Base 128 varints as antigravity-manager/cli/proto_utils.py writes and reads them (Protocol Buffers encoding,
    "Base 128 Varints"). */
module Varint {
  import Lists
  import opened Binary
  import opened Options

  /** Seven bits a byte, least significant first; the high bit says that more follow. */
  function Encode(n: nat): (r: Bytes)
    ensures r != []
  {
    if n < 128 then [n] else [n % 128 + 128] + Encode(n / 128)
  }

  datatype Decoded = Decoded(value: nat, length: nat)

  /** The varint at the front of s, and how many bytes it takes. */
  function Decode(s: Bytes): (r: Option<Decoded>)
    ensures r.Some? ==> 0 < r.value.length <= |s|
  {
    if s == [] then None
    else if s[0] < 128 then Some(Decoded(s[0], 1))
    else Prepend(s[0] - 128, Decode(s[1..]))
  }

  function Prepend(digit: nat, rest: Option<Decoded>): Option<Decoded> {
    if rest.None? then None else Some(Decoded(digit + 128 * rest.value.value, rest.value.length + 1))
  }

  /** encode_varint: negative numbers are refused */
  method EncodeVarint(value: int) returns (r: Option<Bytes>)
    ensures r == if value < 0 then None else Some(Encode(value))
  {
    if value < 0 {
      return None;
    }
    var buf: Bytes := [];
    var val: nat := value;
    while val >= 128
      invariant Encode(value) == buf + Encode(val)
    {
      var low: Byte := val % 128 + 128;
      Lists.Reassociate(buf, [low], Encode(val / 128));
      buf := buf + [low];
      val := val / 128;
    }
    r := Some(buf + [val]);
  }

  /** read_varint: the bits are or-ed in above those read so far, which is adding, since those are smaller than
      `weight`, the value of the next shift. */
  method ReadVarint(data: Bytes, offset: nat) returns (r: Option<Decoded>)
    ensures r == if offset <= |data| && Decode(data[offset..]).Some?
                 then Some(Decoded(Decode(data[offset..]).value.value, offset + Decode(data[offset..]).value.length))
                 else None
  {
    if offset > |data| {
      return None;
    }
    var result, weight, pos := 0, 1, offset;
    while pos < |data|
      invariant offset <= pos <= |data| && 0 <= result < weight
      invariant Decode(data[offset..]) == Above(Decode(data[pos..]), result, weight, pos - offset)
      decreases |data| - pos
    {
      var byte: nat := data[pos];
      assert data[pos..][0] == byte && data[pos..][1..] == data[pos + 1..];
      if byte < 128 {
        LastDigit(byte, result, weight, pos - offset);
      } else {
        NextDigit(byte - 128, Decode(data[pos + 1..]), result, weight, pos - offset);
      }
      result := result + byte % 128 * weight;
      pos := pos + 1;
      if byte < 128 {
        return Some(Decoded(result, pos));
      }
      weight := weight * 128;
    }
    r := None;
  }

  /** A varint read behind `skipped` bytes that already contributed `low`. */
  function Above(r: Option<Decoded>, low: nat, weight: nat, skipped: nat): Option<Decoded> {
    if r.None? then None else Some(Decoded(low + weight * r.value.value, skipped + r.value.length))
  }

  lemma LastDigit(digit: nat, low: nat, weight: nat, skipped: nat)
    requires digit < 128
    ensures Above(Some(Decoded(digit, 1)), low, weight, skipped)
            == Some(Decoded(low + digit % 128 * weight, skipped + 1))
  {
  }

  lemma NextDigit(digit: nat, rest: Option<Decoded>, low: nat, weight: nat, skipped: nat)
    requires digit < 128 && low < weight
    ensures (digit + 128) % 128 == digit
    ensures low + digit * weight < weight * 128
    ensures Above(Prepend(digit, rest), low, weight, skipped)
            == Above(rest, low + digit * weight, weight * 128, skipped + 1)
  {
    DigitFits(digit, weight);
    if rest.Some? {
      Distribute(weight, digit, rest.value.value);
    }
  }

  lemma DigitFits(digit: nat, weight: nat)
    requires digit < 128
    ensures digit * weight <= 127 * weight
  {
  }

  lemma Distribute(weight: nat, digit: nat, v: nat)
    ensures weight * (digit + 128 * v) == digit * weight + weight * 128 * v
  {
  }

  // ---------- Round trip ----------

  /** Reading undoes writing, whatever follows. */
  lemma {:induction false} RoundTrip(n: nat, suffix: Bytes)
    ensures Decode(Encode(n) + suffix) == Some(Decoded(n, |Encode(n)|))
  {
    var s := Encode(n) + suffix;
    if n >= 128 {
      RoundTrip(n / 128, suffix);
      assert s[1..] == Encode(n / 128) + suffix;
    }
  }

  /** No encoding is the beginning of another one. */
  lemma PrefixFree(a: nat, b: nat)
    requires Encode(a) <= Encode(b)
    ensures a == b
  {
    RoundTrip(a, Encode(b)[|Encode(a)|..]);
    PrefixRest(Encode(a), Encode(b));
    RoundTrip(b, []);
    assert Encode(b) + [] == Encode(b);
  }

  /** A cut-off encoding is reported as incomplete. */
  lemma {:induction false} TruncatedIsIncomplete(n: nat, k: nat)
    requires k < |Encode(n)|
    ensures Decode(Encode(n)[..k]) == None
  {
    if k > 0 {
      TruncatedIsIncomplete(n / 128, k - 1);
      assert Encode(n)[..k][1..] == Encode(n / 128)[..k - 1];
    }
  }

  /** Among all byte strings that read as n, the encoding is the only one of minimal length. */
  lemma {:induction false} Canonical(s: Bytes, n: nat)
    requires Decode(s) == Some(Decoded(n, |s|))
    ensures |Encode(n)| <= |s| && (|s| == |Encode(n)| ==> s == Encode(n))
    decreases |s|
  {
    if s[0] >= 128 {
      var v := Decode(s[1..]).value.value;
      Canonical(s[1..], v);
      assert n == s[0] - 128 + 128 * v;
      assert s == [s[0]] + s[1..];
      if n >= 128 {
        assert n / 128 == v && n % 128 == s[0] - 128;
      }
    }
  }
}
