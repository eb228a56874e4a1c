/** The unsigned integers of the MessagePack "int format family" as `read_uint`
    decodes them: a prefix byte, then 0, 1, 2 or 4 big-endian bytes. */
module VarUint {
  import opened Bytes
  import opened Errors

  /** A decoded integer and the number of bytes its encoding took. */
  datatype Uint = Uint(value: nat, consumed: nat)

  const Uint8Prefix: Byte := 0xCC
  const Uint16Prefix: Byte := 0xCD
  const Uint32Prefix: Byte := 0xCE
  const Uint64Prefix: Byte := 0xCF
  /** The largest prefix byte that `read_uint` takes as a value of its own. */
  const LargestDirect: Byte := 0xE0

  /** The prefixes `read_uint` refuses: uint 64, int 8 to int 64, and everything above 0xE0. */
  predicate Unsupported(p: Byte): (refused: bool)
    ensures refused ==> Width(p) == 1
    ensures !refused ==> p <= LargestDirect
  {
    p == Uint64Prefix || (0xD0 <= p <= 0xD3) || p > LargestDirect
  }

  /** The number of bytes, prefix included, of the encoding that starts with `p`. */
  function Width(p: Byte): (w: nat)
    ensures w in {1, 2, 3, 5}
  {
    if p == Uint8Prefix then 2
    else if p == Uint16Prefix then 3
    else if p == Uint32Prefix then 5
    else 1
  }

  function Pow256(n: nat): (p: nat)
    ensures p > 0
  {
    if n == 0 then 1 else 0x100 * Pow256(n - 1)
  }

  /** The big-endian value of the `n` bytes of `s` from `from`, as `read_uint`
      assembles it with shifts. */
  function BigEndian(s: seq<Byte>, from: nat, n: nat): (v: nat)
    requires from + n <= |s|
    ensures v < Pow256(n)
  {
    if n == 0 then 0 else BigEndian(s, from, n - 1) * 0x100 + s[from + n - 1] as nat
  }

  /** The value depends only on the bytes read. */
  lemma {:induction false} BigEndianSame(a: seq<Byte>, fa: nat, b: seq<Byte>, fb: nat, n: nat)
    requires fa + n <= |a| && fb + n <= |b| && a[fa..fa + n] == b[fb..fb + n]
    ensures BigEndian(a, fa, n) == BigEndian(b, fb, n)
  {
    if n > 0 {
      assert a[fa..fa + n - 1] == a[fa..fa + n][..n - 1] == b[fb..fb + n][..n - 1] == b[fb..fb + n - 1];
      assert a[fa + n - 1] == a[fa..fa + n][n - 1];
      assert b[fb + n - 1] == b[fb..fb + n][n - 1];
      BigEndianSame(a, fa, b, fb, n - 1);
    }
  }

  /** `read_uint` on the stream `s` read from position `pos`. */
  function ReadUint(s: seq<Byte>, pos: nat): (r: Result<Uint>)
    ensures r.Ok? ==> pos < |s| && !Unsupported(s[pos])
    ensures r.Ok? ==> r.value.consumed == Width(s[pos]) && pos + r.value.consumed <= |s|
    ensures r.Ok? ==> r.value.value < 0x1_0000_0000
    ensures r.Fail? ==> r.error.Truncated? || r.error.UnsupportedUint?
  {
    if |s| < pos + 1 then Fail(Truncated)
    else
      var p := s[pos];
      if p == Uint8Prefix then
        if |s| < pos + 2 then Fail(Truncated) else Ok(Uint(s[pos + 1] as nat, 2))
      else if p == Uint16Prefix then
        if |s| < pos + 3 then Fail(Truncated) else Ok(Uint(BigEndian(s, pos + 1, 2), 3))
      else if p == Uint32Prefix then
        if |s| < pos + 5 then Fail(Truncated)
        else
          assert Pow256(4) == 0x1_0000_0000;
          Ok(Uint(BigEndian(s, pos + 1, 4), 5))
      else if Unsupported(p) then Fail(UnsupportedUint(p))
      else Ok(Uint(p as nat, 1))
  }

  /** `read_uint` fails exactly when the prefix is missing or refused, or when
      fewer bytes than the prefix announces remain. */
  lemma ReadUintFails(s: seq<Byte>, pos: nat)
    ensures ReadUint(s, pos).Fail? <==>
              pos >= |s| || Unsupported(s[pos]) || pos + Width(s[pos]) > |s|
    ensures ReadUint(s, pos).Fail? ==>
              ReadUint(s, pos).error == (if pos < |s| && Unsupported(s[pos])
                                         then UnsupportedUint(s[pos]) else Truncated)
  {
  }

  /** Any prefix byte up to 0xE0 that is neither a uint prefix nor a refused one
      is its own value: the decoder accepts far more than MessagePack's positive fixint. */
  lemma DirectPrefix(s: seq<Byte>, pos: nat)
    requires pos < |s| && s[pos] <= LargestDirect && !(0xCC <= s[pos] <= 0xD3)
    ensures ReadUint(s, pos) == Ok(Uint(s[pos] as nat, 1))
  {
  }

  /** The uint 8, 16 and 32 forms take the bytes after the prefix as the value,
      most significant first, whatever they are: a longer form than needed
      (`[0xCC, 0x05]`, `[0xCD, 0x00, 0x05]`) still gives the value it spells. */
  lemma UintForms(s: seq<Byte>, pos: nat)
    ensures pos + 2 <= |s| && s[pos] == Uint8Prefix ==>
              ReadUint(s, pos) == Ok(Uint(s[pos + 1] as nat, 2))
    ensures pos + 3 <= |s| && s[pos] == Uint16Prefix ==>
              ReadUint(s, pos) == Ok(Uint(s[pos + 1] as nat * 0x100 + s[pos + 2] as nat, 3))
    ensures pos + 5 <= |s| && s[pos] == Uint32Prefix ==>
              ReadUint(s, pos) == Ok(Uint(s[pos + 1] as nat * 0x100_0000 + s[pos + 2] as nat * 0x1_0000
                                          + s[pos + 3] as nat * 0x100 + s[pos + 4] as nat, 5))
  {
    if pos + 3 <= |s| && s[pos] == Uint16Prefix {
      assert BigEndian(s, pos + 1, 1) == s[pos + 1] as nat;
    }
    if pos + 5 <= |s| && s[pos] == Uint32Prefix {
      assert BigEndian(s, pos + 1, 1) == s[pos + 1] as nat;
      assert BigEndian(s, pos + 1, 2) == s[pos + 1] as nat * 0x100 + s[pos + 2] as nat;
      assert BigEndian(s, pos + 1, 3) == BigEndian(s, pos + 1, 2) * 0x100 + s[pos + 3] as nat;
    }
  }

  /** Two longer-than-needed encodings of 5. */
  lemma LongerForms()
    ensures ReadUint([0xCC, 0x05], 0) == Ok(Uint(5, 2))
    ensures ReadUint([0xCD, 0x00, 0x05], 0) == Ok(Uint(5, 3))
    ensures ReadUint([0xCE, 0x00, 0x00, 0x01, 0x00], 0) == Ok(Uint(256, 5))
  {
    UintForms([0xCC, 0x05], 0);
    UintForms([0xCD, 0x00, 0x05], 0);
    UintForms([0xCE, 0x00, 0x00, 0x01, 0x00], 0);
  }

  /** The `n` bytes of `v`, most significant first. */
  function BeBytes(v: nat, n: nat): (b: seq<Byte>)
    ensures |b| == n
  {
    if n == 0 then [] else BeBytes(v / 0x100, n - 1) + [(v % 0x100) as Byte]
  }

  lemma {:induction false} BigEndianBeBytes(v: nat, n: nat, s: seq<Byte>, from: nat)
    requires v < Pow256(n)
    requires from + n <= |s| && s[from..from + n] == BeBytes(v, n)
    ensures BigEndian(s, from, n) == v
  {
    if n > 0 {
      var b := BeBytes(v, n);
      assert s[from..from + n - 1] == b[..n - 1] == BeBytes(v / 0x100, n - 1);
      assert s[from + n - 1] == b[n - 1];
      BigEndianBeBytes(v / 0x100, n - 1, s, from);
    }
  }

  /** The shortest MessagePack encoding of `v`, as an encoder of the format writes it. */
  function EncodeUint(v: nat): (e: seq<Byte>)
    requires v < 0x1_0000_0000
    ensures |e| > 0 && |e| == Width(e[0]) && !Unsupported(e[0])
  {
    if v < 0x80 then [v as Byte]
    else if v < 0x100 then [Uint8Prefix] + BeBytes(v, 1)
    else if v < 0x1_0000 then [Uint16Prefix] + BeBytes(v, 2)
    else [Uint32Prefix] + BeBytes(v, 4)
  }

  /** Decoding what the encoder wrote gives back the value and consumes exactly the encoding. */
  lemma ReadEncodeUint(v: nat, s: seq<Byte>, pos: nat)
    requires v < 0x1_0000_0000
    requires pos + |EncodeUint(v)| <= |s| && s[pos..pos + |EncodeUint(v)|] == EncodeUint(v)
    ensures ReadUint(s, pos) == Ok(Uint(v, |EncodeUint(v)|))
  {
    var e := EncodeUint(v);
    var w := |e|;
    assert s[pos] == e[0];
    if w > 1 {
      assert s[pos + 1..pos + w] == e[1..];
      assert Pow256(w - 1) == (if w == 2 then 0x100 else if w == 3 then 0x1_0000 else 0x1_0000_0000);
      BigEndianBeBytes(v, w - 1, s, pos + 1);
    }
  }

  /** The width boundaries: 0xE0 is still a value of its own, 0xE1 is refused,
      and 255, 256, 65535 and 65536 encode in 2, 3, 3 and 5 bytes. */
  lemma WidthBoundaries()
    ensures ReadUint([0xE0], 0) == Ok(Uint(0xE0, 1))
    ensures ReadUint([0xE1], 0) == Fail(UnsupportedUint(0xE1))
    ensures |EncodeUint(0)| == 1 && |EncodeUint(255)| == 2 && |EncodeUint(256)| == 3
    ensures |EncodeUint(65535)| == 3 && |EncodeUint(65536)| == 5
  {
  }
}
