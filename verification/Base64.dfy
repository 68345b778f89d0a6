/** The base64 encoding of section 4 of RFC 4648, on ASCII codes. */
module Base64 {
  import Lists
  import opened Binary
  import opened Options

  const PAD: Byte := 61   // '='

  function Digit(i: nat): Byte
    requires i < 64
  {
    if i < 26 then 65 + i
    else if i < 52 then 97 + (i - 26)
    else if i < 62 then 48 + (i - 52)
    else if i == 62 then 43 else 47
  }

  /** The value of a digit, 64 for anything else. */
  function Value(c: Byte): nat {
    if 65 <= c <= 90 then c - 65
    else if 97 <= c <= 122 then c - 97 + 26
    else if 48 <= c <= 57 then c - 48 + 52
    else if c == 43 then 62
    else if c == 47 then 63
    else 64
  }

  lemma DigitHasValue(i: nat)
    requires i < 64
    ensures Value(Digit(i)) == i && Digit(i) != PAD
  {
  }

  function Group(b0: Byte, b1: Byte, b2: Byte): Bytes {
    [Digit(b0 / 4), Digit(b0 % 4 * 16 + b1 / 16), Digit(b1 % 16 * 4 + b2 / 64), Digit(b2 % 64)]
  }

  function Encode(b: Bytes): Bytes {
    if b == [] then []
    else if |b| == 1 then [Digit(b[0] / 4), Digit(b[0] % 4 * 16), PAD, PAD]
    else if |b| == 2 then [Digit(b[0] / 4), Digit(b[0] % 4 * 16 + b[1] / 16), Digit(b[1] % 16 * 4), PAD]
    else Group(b[0], b[1], b[2]) + Encode(b[3..])
  }

  function First(v0: nat, v1: nat): int { v0 * 4 + v1 / 16 }

  function Second(v1: nat, v2: nat): int { v1 % 16 * 16 + v2 / 4 }

  function Third(v2: nat, v3: nat): int { v2 % 4 * 64 + v3 }

  /** A reference decoder: four digits make three bytes, padding ends the text. */
  function Decode(s: Bytes): Option<Bytes> {
    if s == [] then Some([])
    else if |s| < 4 || Value(s[0]) == 64 || Value(s[1]) == 64 then None
    else
      var v0, v1 := Value(s[0]), Value(s[1]);
      if s[2] == PAD && s[3] == PAD then (if |s| == 4 then Some([First(v0, v1)]) else None)
      else if Value(s[2]) == 64 then None
      else
        var v2 := Value(s[2]);
        if s[3] == PAD then (if |s| == 4 then Some([First(v0, v1), Second(v1, v2)]) else None)
        else if Value(s[3]) == 64 then None
        else
          var rest := Decode(s[4..]);
          if rest.None? then None
          else Some([First(v0, v1), Second(v1, v2), Third(v2, Value(s[3]))] + rest.value)
  }

  /** Four digits give back the three bytes they were cut from. */
  lemma GroupValues(b0: Byte, b1: Byte, b2: Byte)
    ensures var g := Group(b0, b1, b2);
            && g[2] != PAD && g[3] != PAD && (forall i | 0 <= i < 4 :: Value(g[i]) < 64)
            && First(Value(g[0]), Value(g[1])) == b0
            && Second(Value(g[1]), Value(g[2])) == b1
            && Third(Value(g[2]), Value(g[3])) == b2
  {
    DigitHasValue(b0 / 4);
    DigitHasValue(b0 % 4 * 16 + b1 / 16);
    DigitHasValue(b1 % 16 * 4 + b2 / 64);
    DigitHasValue(b2 % 64);
  }

  lemma OneByte(b0: Byte)
    ensures Decode([Digit(b0 / 4), Digit(b0 % 4 * 16), PAD, PAD]) == Some([b0])
  {
    DigitHasValue(b0 / 4);
    DigitHasValue(b0 % 4 * 16);
  }

  lemma TwoBytes(b0: Byte, b1: Byte)
    ensures Decode([Digit(b0 / 4), Digit(b0 % 4 * 16 + b1 / 16), Digit(b1 % 16 * 4), PAD]) == Some([b0, b1])
  {
    GroupValues(b0, b1, 0);
    assert Digit(b1 % 16 * 4 + 0 / 64) == Digit(b1 % 16 * 4);
  }

  lemma GroupDecodes(b0: Byte, b1: Byte, b2: Byte, rest: Bytes)
    ensures Decode(Group(b0, b1, b2) + rest)
            == if Decode(rest).None? then None else Some([b0, b1, b2] + Decode(rest).value)
  {
    var s := Group(b0, b1, b2) + rest;
    GroupValues(b0, b1, b2);
    DropFirst(Group(b0, b1, b2), rest);
    assert s[0] == Group(b0, b1, b2)[0] && s[1] == Group(b0, b1, b2)[1];
    assert s[2] == Group(b0, b1, b2)[2] && s[3] == Group(b0, b1, b2)[3];
  }

  /** Decoding undoes encoding, for every byte string. */
  lemma {:induction false} RoundTrip(b: Bytes)
    ensures Decode(Encode(b)) == Some(b)
  {
    if |b| == 1 {
      OneByte(b[0]);
      assert b == [b[0]];
    } else if |b| == 2 {
      TwoBytes(b[0], b[1]);
      assert b == [b[0], b[1]];
    } else if |b| > 2 {
      RoundTrip(b[3..]);
      GroupDecodes(b[0], b[1], b[2], Encode(b[3..]));
      assert b == [b[0], b[1], b[2]] + b[3..];
    }
  }

  /** The digits are those of table 1 of RFC 4648. */
  lemma Alphabet(i: nat)
    requires i < 26
    ensures Digit(i) == 'A' as int + i && Digit(26 + i) == 'a' as int + i
    ensures i < 10 ==> Digit(52 + i) == '0' as int + i
    ensures Digit(62) == '+' as int && Digit(63) == '/' as int
  {
  }

  /** Every three bytes begun take four characters. */
  lemma {:induction false} EncodedLength(b: Bytes)
    ensures |Encode(b)| == (|b| + 2) / 3 * 4
  {
    if |b| > 2 {
      EncodedLength(b[3..]);
    }
  }

  /** The text ends in "=" exactly when the last three bytes are not full. */
  lemma {:induction false} PaddedIff(b: Bytes)
    requires b != []
    ensures Encode(b) != [] && (Encode(b)[|Encode(b)| - 1] == '=' as int <==> |b| % 3 != 0)
  {
    if |b| > 2 {
      if |b| == 3 {
        DigitHasValue(b[2] % 64);
      } else {
        PaddedIff(b[3..]);
        Lists.ConcatEnds(Group(b[0], b[1], b[2]), Encode(b[3..]));
      }
    }
  }
}
