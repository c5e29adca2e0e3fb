/** The laws assumed of the uninterpreted functions of SCRAM can all hold at once. */
module CryptoExample {
  import opened Wrappers
  import opened Scram

  function ToByte(n: int): (b: bv8)
    requires 0 <= n < 256
    ensures b as int == n
  {
    n as bv8
  }

  lemma ToByteInverse(b: bv8)
    ensures ToByte(b as int) == b
  {
  }

  function EncodeByte(b: bv8): char {
    (64 + b as int) as char
  }

  function EncodeBytes(bs: Bytes): string {
    seq(|bs|, i requires 0 <= i < |bs| => EncodeByte(bs[i]))
  }

  predicate InAlphabet(c: char) {
    64 <= c as int < 320
  }

  function DecodeText(s: string): Option<Bytes> {
    if forall c :: c in s ==> InAlphabet(c) then
      Some(seq(|s|, i requires 0 <= i < |s| => assert InAlphabet(s[i]); ToByte(s[i] as int - 64)))
    else None
  }

  /** A character as three bytes, most significant first. */
  function CharBytes(c: char): Bytes {
    var n := c as int;
    [ToByte(n / 65536 % 256), ToByte(n / 256 % 256), ToByte(n % 256)]
  }

  predicate IsScalar(n: int) {
    0 <= n < 0xD800 || 0xE000 <= n < 0x11_0000
  }

  function BytesChar(a: bv8, b: bv8, c: bv8): char {
    var n := a as int * 65536 + b as int * 256 + c as int;
    if IsScalar(n) then n as char else '?'
  }

  function TextBytes(s: string): Bytes {
    if s == "" then [] else CharBytes(s[0]) + TextBytes(s[1..])
  }

  function BytesText(bs: Bytes): string {
    if |bs| < 3 then "" else [BytesChar(bs[0], bs[1], bs[2])] + BytesText(bs[3..])
  }

  lemma Base256(n: int)
    requires 0 <= n < 0x11_0000
    ensures n / 65536 % 256 * 65536 + n / 256 % 256 * 256 + n % 256 == n
  {
    assert n / 256 / 256 == n / 65536;
    assert n / 65536 % 256 == n / 65536;
  }

  lemma CharRoundTrip(c: char)
    ensures var b := CharBytes(c); BytesChar(b[0], b[1], b[2]) == c
  {
    hide ToByte;
    assert IsScalar(c as int);
    Base256(c as int);
  }

  lemma {:induction false} TextRoundTrip(s: string)
    ensures BytesText(TextBytes(s)) == s
  {
    if s != "" {
      CharRoundTrip(s[0]);
      TextRoundTrip(s[1..]);
      assert TextBytes(s)[3..] == TextBytes(s[1..]);
      assert s == [s[0]] + s[1..];
    }
  }

  lemma EncodeRoundTrip(bs: Bytes)
    ensures DecodeText(EncodeBytes(bs)) == Some(bs)
  {
    var s := EncodeBytes(bs);
    forall c | c in s
      ensures InAlphabet(c)
    {
      var i :| 0 <= i < |s| && s[i] == c;
      assert c == EncodeByte(bs[i]);
    }
    forall i | 0 <= i < |bs|
      ensures DecodeText(s).value[i] == bs[i]
    {
      assert s[i] == EncodeByte(bs[i]);
      ToByteInverse(bs[i]);
    }
    assert DecodeText(s).value == bs;
  }

  function Zeros(n: nat): Bytes {
    seq(n, i => 0)
  }

  function Example(): Crypto {
    Crypto(a => 20, (a, d) => Zeros(20), (a, k, d) => Zeros(20), (a, p, s, n) => Zeros(20),
           b => EncodeBytes(b), s => DecodeText(s), s => TextBytes(s), b => BytesText(b))
  }

  lemma LawsAreConsistent()
    ensures Example().Lawful()
  {
    var c := Example();
    forall b: Bytes
      ensures c.decode(c.encode(b)) == Some(b)
    {
      EncodeRoundTrip(b);
    }
    forall s: string
      ensures c.text(c.bytes(s)) == s
    {
      TextRoundTrip(s);
    }
    forall b: Bytes
      ensures ',' !in c.encode(b)
    {
      forall i | 0 <= i < |b|
        ensures EncodeBytes(b)[i] != ','
      {
        assert EncodeBytes(b)[i] == EncodeByte(b[i]);
      }
    }
  }
}
