/** UTF-8 as section 3 of RFC 3629 defines it: encoding, strict decoding, and decoding that ignores errors. */
module Utf8 {
  import opened PyText
  import opened Wrappers

  type Byte = b: int | 0 <= b < 0x100

  type Bytes = seq<Byte>

  /** A code point UTF-8 can encode: anything but a surrogate. */
  predicate IsScalar(c: CodePoint) { c < 0xD800 || c > 0xDFFF }

  predicate Scalars(t: Text) { forall i :: 0 <= i < |t| ==> IsScalar(t[i]) }

  function Tail(v: int): (b: Byte)
    ensures 0x80 <= b <= 0xBF && b == 0x80 + v % 64
  {
    0x80 + v % 64
  }

  /** The octets of one character, by the number of bits it needs. */
  function EncodeOne(c: CodePoint): (r: Bytes)
    ensures 1 <= |r| <= 4
  {
    if c < 0x80 then [c]
    else if c < 0x800 then [0xC0 + c / 64, Tail(c)]
    else if c < 0x1_0000 then [0xE0 + c / 64 / 64, Tail(c / 64), Tail(c)]
    else [0xF0 + c / 64 / 64 / 64, Tail(c / 64 / 64), Tail(c / 64), Tail(c)]
  }

  function Encode(t: Text): Bytes {
    if t == [] then [] else EncodeOne(t[0]) + Encode(t[1..])
  }

  predicate IsTail(b: Byte) { 0x80 <= b <= 0xBF }

  /** A decoded character and the number of octets it took. */
  datatype Char = Char(c: CodePoint, width: nat)

  /** The bits before a tail octet, with the six bits of the octet. */
  function Join(high: nat, b: Byte): (v: nat)
    requires IsTail(b)
    ensures v / 64 == high && v % 64 == b as int - 0x80
  {
    high * 64 + (b as int - 0x80)
  }

  /** The well-formed sequence some octets start with, by the syntax of section 4 of RFC 3629. */
  function First(d: Bytes): (r: Option<Char>)
    ensures r.Some? ==> 1 <= r.value.width <= 4 && r.value.width <= |d| && IsScalar(r.value.c)
  {
    if d == [] then None
    else if d[0] < 0x80 then Some(Char(d[0], 1))
    else if 0xC2 <= d[0] <= 0xDF && |d| >= 2 && IsTail(d[1]) then
      Some(Char(Join(d[0] as int - 0xC0, d[1]), 2))
    else if 0xE0 <= d[0] <= 0xEF && |d| >= 3 && IsTail(d[1]) && IsTail(d[2])
         && (d[0] == 0xE0 ==> d[1] >= 0xA0) && (d[0] == 0xED ==> d[1] <= 0x9F) then
      Some(Char(Join(Join(d[0] as int - 0xE0, d[1]), d[2]), 3))
    else if 0xF0 <= d[0] <= 0xF4 && |d| >= 4 && IsTail(d[1]) && IsTail(d[2]) && IsTail(d[3])
         && (d[0] == 0xF0 ==> d[1] >= 0x90) && (d[0] == 0xF4 ==> d[1] <= 0x8F) then
      Some(Char(Join(Join(Join(d[0] as int - 0xF0, d[1]), d[2]), d[3]), 4))
    else None
  }

  /** `bytes.decode("utf-8")`: absent when it raises. */
  function Decode(d: Bytes): Option<Text> {
    if d == [] then Some([])
    else
      var first := First(d);
      if first.None? then None
      else
        var rest := Decode(d[first.value.width..]);
        if rest.None? then None else Some([first.value.c] + rest.value)
  }

  /**
   `bytes.decode("utf-8", errors="ignore")`: an octet that starts no character is dropped. Dropping the
   tail octets after it together with it would give the same text, because they start none either.
   */
  function DecodeIgnoring(d: Bytes): Text {
    if d == [] then []
    else
      var first := First(d);
      if first.None? then DecodeIgnoring(d[1..])
      else [first.value.c] + DecodeIgnoring(d[first.value.width..])
  }

  // --- encoding and decoding are inverse ----------------------------------

  lemma FirstOfEncoded(c: CodePoint, rest: Bytes)
    requires IsScalar(c)
    ensures First(EncodeOne(c) + rest) == Some(Char(c, |EncodeOne(c)|))
  {
  }

  lemma FirstIsEncoded(d: Bytes)
    requires First(d).Some?
    ensures EncodeOne(First(d).value.c) == d[..First(d).value.width]
  {
  }

  lemma {:induction false} DecodeEncoded(t: Text)
    requires Scalars(t)
    ensures Decode(Encode(t)) == Some(t)
    decreases t
  {
    if t != [] {
      hide First, EncodeOne;
      FirstOfEncoded(t[0], Encode(t[1..]));
      DecodeEncoded(t[1..]);
      assert (EncodeOne(t[0]) + Encode(t[1..]))[|EncodeOne(t[0])|..] == Encode(t[1..]);
      assert [t[0]] + t[1..] == t;
    }
  }

  /** Data decodes strictly to a text exactly when the text can be encoded and encodes to the data. */
  lemma {:induction false} DecodeIsInverse(d: Bytes, t: Text)
    ensures Decode(d) == Some(t) <==> Scalars(t) && Encode(t) == d
    decreases d
  {
    if Scalars(t) && Encode(t) == d {
      DecodeEncoded(t);
    }
    if Decode(d) == Some(t) && d != [] {
      hide First, EncodeOne;
      var first := First(d).value;
      FirstIsEncoded(d);
      DecodeIsInverse(d[first.width..], t[1..]);
      assert d == d[..first.width] + d[first.width..];
    }
  }

  lemma {:induction false} EncodeConcat(a: Text, b: Text)
    ensures Encode(a + b) == Encode(a) + Encode(b)
    decreases a
  {
    if a == [] {
      assert a + b == b;
    } else {
      assert (a + b)[1..] == a[1..] + b;
      EncodeConcat(a[1..], b);
    }
  }

  // --- a cut through encoded text -----------------------------------------

  /** A character cut short decodes to nothing. */
  lemma CutCharacter(c: CodePoint, n: nat)
    requires IsScalar(c) && n < |EncodeOne(c)|
    ensures DecodeIgnoring(EncodeOne(c)[..n]) == []
  {
    var cut := EncodeOne(c)[..n];
    if n > 0 {
      assert First(cut).None?;
      if n > 1 {
        assert First(cut[1..]).None?;
        if n > 2 {
          assert First(cut[1..][1..]).None?;
          assert DecodeIgnoring(cut[1..][1..]) == [];
        }
        assert DecodeIgnoring(cut[1..]) == [];
      }
    }
  }

  /**
   Cutting encoded text at any octet and ignoring errors keeps the longest whole prefix: `k` characters,
   and the next one, if there is one, would not fit.
   */
  lemma {:induction false} CutText(t: Text, n: nat) returns (k: nat)
    requires Scalars(t) && n <= |Encode(t)|
    ensures k <= |t| && DecodeIgnoring(Encode(t)[..n]) == t[..k]
    ensures |Encode(t[..k])| <= n && (k < |t| ==> n < |Encode(t[..k + 1])|)
    decreases t
  {
    if t == [] {
      k := 0;
    } else {
      var first, rest := EncodeOne(t[0]), Encode(t[1..]);
      if n < |first| {
        k := 0;
        CutCharacter(t[0], n);
        assert Encode(t)[..n] == first[..n];
        assert t[..1] == [t[0]] && Encode(t[..1]) == first + Encode([]);
      } else {
        var j := CutText(t[1..], n - |first|);
        k := j + 1;
        assert Encode(t)[..n] == first + rest[..n - |first|];
        FirstOfEncoded(t[0], rest[..n - |first|]);
        assert (first + rest[..n - |first|])[|first|..] == rest[..n - |first|];
        assert t[..k][1..] == t[1..][..j];
        if k < |t| { assert t[..k + 1][1..] == t[1..][..j + 1]; }
      }
    }
  }
}
