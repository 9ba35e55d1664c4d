/** utils/encrypt/encrypt_aes.go: padding and cipher block chaining (section 6.3 of RFC 5652, section 6.2 of NIST SP
  * 800-38A) around a block cipher, of which only the inverse is used. */
module Aes {
  type Byte = bv8

  const BLOCK := 16

  type Block = b: seq<Byte> | |b| == BLOCK witness seq(BLOCK, _ => 0)

  /** The cipher for one key. */
  datatype Cipher = Cipher(enc: Block -> Block, dec: Block -> Block) {
    ghost predicate Inverse() {
      (forall b: Block :: dec(enc(b)) == b) && forall b: Block :: enc(dec(b)) == b
    }
  }

  /** A run-time panic, besides the error the code returns. */
  datatype Outcome = Text(data: seq<Byte>) | Fails | Panics

  // ----- padding

  function PadLength(s: seq<Byte>): (n: nat)
    ensures 1 <= n <= BLOCK && (|s| + n) % BLOCK == 0
  {
    BLOCK - |s| % BLOCK
  }

  function Padding(n: nat): (p: seq<Byte>)
    requires n <= BLOCK
    ensures |p| == n
  {
    seq(n, _ => n as Byte)
  }

  function Padded(s: seq<Byte>): (r: seq<Byte>)
    ensures |r| % BLOCK == 0 && |r| > 0
  {
    s + Padding(PadLength(s))
  }

  /** The last byte tells how much to cut off; the other padding bytes are not looked at. */
  function Unpadded(s: seq<Byte>): Outcome {
    if |s| == 0 then Panics
    else
      var n := s[|s| - 1] as int;
      if |s| - n < 0 then Fails else Text(s[..|s| - n])
  }

  lemma ByteOfInt(n: nat, b: Byte)
    requires n <= BLOCK
    ensures b == n as Byte <==> b as int == n
  {
  }

  lemma UnpadUndoesPad(s: seq<Byte>)
    ensures Unpadded(Padded(s)) == Text(s)
  {
    var n := PadLength(s);
    ByteOfInt(n, n as Byte);
    assert Padded(s)[|s| + n - 1] == n as Byte;
    assert Padded(s)[..|s|] == s;
  }

  /** The padding that RFC 5652 asks for. */
  ghost predicate WellPadded(s: seq<Byte>) {
    && |s| > 0
    && var n := s[|s| - 1] as int;
       1 <= n <= BLOCK && n <= |s| && forall i :: |s| - n <= i < |s| ==> s[i] == s[|s| - 1]
  }

  lemma PaddedIff(p: seq<Byte>, s: seq<Byte>)
    requires p <= s
    ensures Padded(p) == s <==>
            |s| == |p| + PadLength(p) && forall i :: |p| <= i < |s| ==> s[i] as int == PadLength(p)
  {
    var n := PadLength(p);
    forall i | |p| <= i < |s| ensures s[i] == n as Byte <==> s[i] as int == n {
      ByteOfInt(n, s[i]);
    }
    if Padded(p) == s {
      assert forall i :: |p| <= i < |s| ==> s[i] == Padding(n)[i - |p|];
    }
  }

  lemma PadLengthOfPrefix(s: seq<Byte>, n: nat)
    requires |s| % BLOCK == 0 && 1 <= n <= BLOCK && n <= |s|
    ensures PadLength(s[..|s| - n]) == n
  {
  }

  /** Padding undoes the removal of padding exactly if it was the padding to remove. */
  lemma PadUndoesUnpadIff(s: seq<Byte>)
    requires |s| % BLOCK == 0
    ensures Unpadded(s).Text? && Padded(Unpadded(s).data) == s <==> WellPadded(s)
  {
    if |s| > 0 && s[|s| - 1] as int <= |s| {
      var n := s[|s| - 1] as int;
      var p := s[..|s| - n];
      PaddedIff(p, s);
      if 1 <= n <= BLOCK {
        PadLengthOfPrefix(s, n);
        SameBytes(s, |p|);
      }
    }
  }

  lemma SameBytes(s: seq<Byte>, k: nat)
    requires k < |s|
    ensures (forall i :: k <= i < |s| ==> s[i] as int == s[|s| - 1] as int) <==>
            forall i :: k <= i < |s| ==> s[i] == s[|s| - 1]
  {
    forall i | k <= i < |s| && s[i] as int == s[|s| - 1] as int ensures s[i] == s[|s| - 1] {
      SameByte(s[i], s[|s| - 1]);
    }
  }

  lemma SameByte(a: Byte, b: Byte)
    requires a as int == b as int
    ensures a == b
  {
  }

  // ----- chaining

  function Xor(a: Block, b: Block): Block {
    seq(BLOCK, i requires 0 <= i < BLOCK => a[i] ^ b[i])
  }

  lemma XorTwice(a: Block, b: Block)
    ensures Xor(Xor(a, b), b) == a
  {
    forall i | 0 <= i < BLOCK ensures Xor(Xor(a, b), b)[i] == a[i] {
      assert (a[i] ^ b[i]) ^ b[i] == a[i];
    }
  }

  function Blocks(s: seq<Byte>): (bs: seq<Block>)
    requires |s| % BLOCK == 0
    ensures |s| == BLOCK * |bs|
  {
    seq(|s| / BLOCK, k requires 0 <= k < |s| / BLOCK => s[BLOCK * k..BLOCK * (k + 1)])
  }

  /** The first `n` blocks as bytes. */
  function Flat(bs: seq<Block>, n: nat): (s: seq<Byte>)
    requires n <= |bs|
    ensures |s| == BLOCK * n
  {
    if n == 0 then [] else Flat(bs, n - 1) + bs[n - 1]
  }

  lemma {:induction false} FlatOfBlocks(s: seq<Byte>, n: nat)
    requires |s| % BLOCK == 0 && n <= |Blocks(s)|
    ensures Flat(Blocks(s), n) == s[..BLOCK * n]
  {
    if n == 0 {
    } else {
      FlatOfBlocks(s, n - 1);
      assert s[..BLOCK * n] == s[..BLOCK * (n - 1)] + s[BLOCK * (n - 1)..BLOCK * n];
    }
  }

  lemma {:induction false} BlockOfFlat(bs: seq<Block>, n: nat, k: nat)
    requires k < n <= |bs|
    ensures Flat(bs, n)[BLOCK * k..BLOCK * (k + 1)] == bs[k]
  {
    if k < n - 1 {
      BlockOfFlat(bs, n - 1, k);
      assert Flat(bs, n)[..BLOCK * (n - 1)] == Flat(bs, n - 1);
    }
  }

  lemma BlocksOfFlat(bs: seq<Block>)
    ensures Blocks(Flat(bs, |bs|)) == bs
  {
    forall k | 0 <= k < |bs| ensures Blocks(Flat(bs, |bs|))[k] == bs[k] {
      BlockOfFlat(bs, |bs|, k);
    }
  }

  /** The block that is mixed into block `k`: the cipher text before it. */
  function Before(iv: Block, cs: seq<Block>, k: nat): Block
    requires k <= |cs|
  {
    if k == 0 then iv else cs[k - 1]
  }

  /** The first `n` blocks, encrypted. */
  function Chained(f: Cipher, iv: Block, bs: seq<Block>, n: nat): (cs: seq<Block>)
    requires n <= |bs|
    ensures |cs| == n
  {
    if n == 0 then []
    else
      var cs := Chained(f, iv, bs, n - 1);
      cs + [f.enc(Xor(bs[n - 1], Before(iv, cs, n - 1)))]
  }

  function PlainBlock(f: Cipher, iv: Block, cs: seq<Block>, k: nat): Block
    requires k < |cs|
  {
    Xor(f.dec(cs[k]), Before(iv, cs, k))
  }

  /** The first `n` blocks, decrypted. */
  function Unchained(f: Cipher, iv: Block, cs: seq<Block>, n: nat): (bs: seq<Block>)
    requires n <= |cs|
    ensures |bs| == n && forall k :: 0 <= k < n ==> bs[k] == PlainBlock(f, iv, cs, k)
  {
    if n == 0 then [] else Unchained(f, iv, cs, n - 1) + [PlainBlock(f, iv, cs, n - 1)]
  }

  lemma {:induction false} ChainedAt(f: Cipher, iv: Block, bs: seq<Block>, n: nat, k: nat)
    requires k < n <= |bs|
    ensures var cs := Chained(f, iv, bs, n); cs[k] == f.enc(Xor(bs[k], Before(iv, cs, k)))
  {
    if k < n - 1 {
      ChainedAt(f, iv, bs, n - 1, k);
    }
  }

  lemma UnchainUndoesChain(f: Cipher, iv: Block, bs: seq<Block>)
    requires f.Inverse()
    ensures Unchained(f, iv, Chained(f, iv, bs, |bs|), |bs|) == bs
  {
    var cs := Chained(f, iv, bs, |bs|);
    forall k | 0 <= k < |bs| ensures Unchained(f, iv, cs, |bs|)[k] == bs[k] {
      ChainedAt(f, iv, bs, |bs|, k);
      XorTwice(bs[k], Before(iv, cs, k));
    }
  }

  lemma {:induction false} ChainUndoesUnchain(f: Cipher, iv: Block, cs: seq<Block>, n: nat)
    requires f.Inverse() && n <= |cs|
    ensures Chained(f, iv, Unchained(f, iv, cs, |cs|), n) == cs[..n]
  {
    if n == 0 {
    } else {
      ChainUndoesUnchain(f, iv, cs, n - 1);
      XorTwice(f.dec(cs[n - 1]), Before(iv, cs, n - 1));
      assert cs[..n] == cs[..n - 1] + [cs[n - 1]];
    }
  }

  // ----- both

  function Enciphered(f: Cipher, iv: Block, s: seq<Byte>): (c: seq<Byte>)
    requires |s| % BLOCK == 0
    ensures |c| == |s|
  {
    Flat(Chained(f, iv, Blocks(s), |Blocks(s)|), |Blocks(s)|)
  }

  function Deciphered(f: Cipher, iv: Block, c: seq<Byte>): (s: seq<Byte>)
    requires |c| % BLOCK == 0
    ensures |s| == |c|
  {
    Flat(Unchained(f, iv, Blocks(c), |Blocks(c)|), |Blocks(c)|)
  }

  lemma DecipherUndoesEncipher(f: Cipher, iv: Block, s: seq<Byte>)
    requires f.Inverse() && |s| % BLOCK == 0
    ensures Deciphered(f, iv, Enciphered(f, iv, s)) == s && Enciphered(f, iv, Deciphered(f, iv, s)) == s
  {
    var bs := Blocks(s);
    BlocksOfFlat(Chained(f, iv, bs, |bs|));
    UnchainUndoesChain(f, iv, bs);
    BlocksOfFlat(Unchained(f, iv, bs, |bs|));
    ChainUndoesUnchain(f, iv, bs, |bs|);
    assert bs[..|bs|] == bs && s[..|s|] == s;
    FlatOfBlocks(s, |bs|);
  }

  function Encrypted(f: Cipher, iv: Block, s: seq<Byte>): (c: seq<Byte>)
    ensures |c| == |s| + PadLength(s)
  {
    Enciphered(f, iv, Padded(s))
  }

  /** A cipher text that is not made of blocks makes the library panic, and the empty one the removal of padding. */
  function Decrypted(f: Cipher, iv: Block, c: seq<Byte>): Outcome {
    if |c| % BLOCK != 0 then Panics else Unpadded(Deciphered(f, iv, c))
  }

  /** Main result: decryption undoes encryption, for every text and every block cipher. */
  lemma DecryptUndoesEncrypt(f: Cipher, iv: Block, s: seq<Byte>)
    requires f.Inverse()
    ensures Decrypted(f, iv, Encrypted(f, iv, s)) == Text(s)
  {
    DecipherUndoesEncipher(f, iv, Padded(s));
    UnpadUndoesPad(s);
  }

  /** The converse holds exactly for the cipher texts of well-padded texts: others are accepted too. */
  lemma EncryptUndoesDecryptIff(f: Cipher, iv: Block, c: seq<Byte>)
    requires f.Inverse() && |c| % BLOCK == 0
    ensures Decrypted(f, iv, c).Text? && Encrypted(f, iv, Decrypted(f, iv, c).data) == c
            <==> WellPadded(Deciphered(f, iv, c))
  {
    var s := Deciphered(f, iv, c);
    PadUndoesUnpadIff(s);
    DecipherUndoesEncipher(f, iv, c);
    if Decrypted(f, iv, c).Text? {
      DecipherUndoesEncipher(f, iv, Padded(Decrypted(f, iv, c).data));
    }
  }

  /** One such text: its last byte asks for two bytes to be cut off, and the byte before is none of the padding. Its
    * cipher text is accepted, and encrypting what comes out gives another one. */
  lemma BadPaddingIsAccepted(f: Cipher, iv: Block) returns (c: seq<Byte>)
    requires f.Inverse()
    ensures |c| == BLOCK && Decrypted(f, iv, c) == Text(seq(BLOCK - 2, _ => 0 as Byte))
    ensures Encrypted(f, iv, Decrypted(f, iv, c).data) != c
  {
    var text := seq(BLOCK - 2, _ => 0 as Byte);
    var s := text + [0, 2];
    c := Enciphered(f, iv, s);
    DecipherUndoesEncipher(f, iv, s);
    assert s[BLOCK - 1] == 2 && s[BLOCK - 2] == 0 && s[..BLOCK - 2] == text;
    ByteOfInt(2, s[BLOCK - 1]);
    assert !WellPadded(s);
    EncryptUndoesDecryptIff(f, iv, c);
  }

  // ----- byte by byte

  /** What byte `i` of block `k` is mixed with: the vector, or the block of cipher text before. */
  function ByteBefore(iv: Block, c: seq<Byte>, k: nat, i: nat): Byte
    requires 16 * k <= |c| && i < 16
  {
    if k == 0 then iv[i] else c[16 * (k - 1) + i]
  }

  /** Block `k` of the cipher text is the encryption of the text mixed with that. */
  ghost predicate EncipheredAt(f: Cipher, iv: Block, s: seq<Byte>, c: seq<Byte>, k: nat)
    requires |s| == |c| && 16 * (k + 1) <= |c|
  {
    c[16 * k..16 * (k + 1)] == f.enc(seq(16, i requires 0 <= i < 16 => s[16 * k + i] ^ ByteBefore(iv, c, k, i)))
  }

  /** And block `k` of the text is the decryption of that of the cipher text, mixed with the same. */
  ghost predicate DecipheredAt(f: Cipher, iv: Block, c: seq<Byte>, s: seq<Byte>, k: nat)
    requires |s| == |c| && 16 * (k + 1) <= |c|
  {
    s[16 * k..16 * (k + 1)] ==
    seq(16, i requires 0 <= i < 16 => f.dec(c[16 * k..16 * (k + 1)])[i] ^ ByteBefore(iv, c, k, i))
  }

  lemma BeforeIs(iv: Block, c: seq<Byte>, k: nat, i: nat)
    requires |c| % 16 == 0 && 16 * (k + 1) <= |c| && i < 16
    ensures Before(iv, Blocks(c), k)[i] == ByteBefore(iv, c, k, i)
  {
  }

  lemma EnciphersBlocks(f: Cipher, iv: Block, s: seq<Byte>, k: nat)
    requires |s| % 16 == 0 && 16 * (k + 1) <= |s|
    ensures EncipheredAt(f, iv, s, Enciphered(f, iv, s), k)
  {
    var bs := Blocks(s);
    var cs := Chained(f, iv, bs, |bs|);
    var c := Enciphered(f, iv, s);
    ChainedAt(f, iv, bs, |bs|, k);
    BlocksOfFlat(cs);
    assert c[16 * k..16 * (k + 1)] == Blocks(c)[k] == f.enc(Xor(bs[k], Before(iv, cs, k)));
    MixedIs(iv, s, c, k);
  }

  lemma MixedIs(iv: Block, s: seq<Byte>, c: seq<Byte>, k: nat)
    requires |s| == |c| && |c| % 16 == 0 && 16 * (k + 1) <= |c|
    ensures Xor(Blocks(s)[k], Before(iv, Blocks(c), k)) ==
            seq(16, i requires 0 <= i < 16 => s[16 * k + i] ^ ByteBefore(iv, c, k, i))
  {
    var x := Xor(Blocks(s)[k], Before(iv, Blocks(c), k));
    forall i | 0 <= i < 16 ensures x[i] == s[16 * k + i] ^ ByteBefore(iv, c, k, i) {
      BeforeIs(iv, c, k, i);
    }
  }

  lemma DeciphersBlocks(f: Cipher, iv: Block, c: seq<Byte>, k: nat)
    requires |c| % 16 == 0 && 16 * (k + 1) <= |c|
    ensures DecipheredAt(f, iv, c, Deciphered(f, iv, c), k)
  {
    var cs := Blocks(c);
    var bs := Unchained(f, iv, cs, |cs|);
    var s := Deciphered(f, iv, c);
    BlocksOfFlat(bs);
    assert s[16 * k..16 * (k + 1)] == Blocks(s)[k] == Xor(f.dec(c[16 * k..16 * (k + 1)]), Before(iv, cs, k));
    forall i | 0 <= i < 16 ensures Before(iv, cs, k)[i] == ByteBefore(iv, c, k, i) {
      BeforeIs(iv, c, k, i);
    }
  }

  /** The padding is 1 to 16 bytes, each of which tells how many they are, up to a whole number of blocks. */
  lemma PaddedIs(s: seq<Byte>)
    ensures var p := Padded(s);
            && s <= p && 1 <= |p| - |s| <= 16 && |p| % 16 == 0
            && forall i :: |s| <= i < |p| ==> p[i] as int == |p| - |s|
  {
    var n := PadLength(s);
    forall i | |s| <= i < |s| + n ensures Padded(s)[i] as int == n {
      ByteOfInt(n, Padded(s)[i]);
    }
  }

  /** What is left when the padding of `s` is removed. */
  ghost function Stripped(s: seq<Byte>): Outcome
    requires s != []
  {
    var n := s[|s| - 1] as int;
    if n > |s| then Fails else Text(s[..|s| - n])
  }

  // ----- the code

  /** Write block `k` of `bs` after the ones before it. */
  method PutBlock(dst: array<Byte>, k: nat, b: Block, ghost bs: seq<Block>)
    requires k < |bs| && BLOCK * |bs| == dst.Length && b == bs[k] && dst[..BLOCK * k] == Flat(bs, k)
    modifies dst
    ensures dst[..BLOCK * (k + 1)] == Flat(bs, k + 1)
  {
    var at := BLOCK * k;
    for i := 0 to BLOCK
      invariant dst[..at] == Flat(bs, k) && dst[at..at + i] == b[..i]
    {
      dst[at + i] := b[i];
    }
    assert dst[..at + BLOCK] == dst[..at] + dst[at..at + BLOCK];
  }

  method EncryptBlocks(f: Cipher, iv: Block, dst: array<Byte>, src: seq<Byte>)
    requires dst.Length == |src| && |src| % BLOCK == 0
    modifies dst
    ensures dst[..] == Enciphered(f, iv, src)
  {
    ghost var bs := Blocks(src);
    ghost var cs := Chained(f, iv, bs, |bs|);
    var prev := iv;
    for k := 0 to |src| / BLOCK
      invariant dst[..BLOCK * k] == Flat(cs, k)
      invariant prev == Before(iv, cs, k)
    {
      ChainedAt(f, iv, bs, |bs|, k);
      prev := f.enc(Xor(src[BLOCK * k..BLOCK * (k + 1)], prev));
      PutBlock(dst, k, prev, cs);
    }
  }

  method DecryptBlocks(f: Cipher, iv: Block, dst: array<Byte>, src: seq<Byte>)
    requires dst.Length == |src| && |src| % BLOCK == 0
    modifies dst
    ensures dst[..] == Deciphered(f, iv, src)
  {
    ghost var cs := Blocks(src);
    ghost var bs := Unchained(f, iv, cs, |cs|);
    var prev := iv;
    for k := 0 to |src| / BLOCK
      invariant dst[..BLOCK * k] == Flat(bs, k)
      invariant prev == Before(iv, cs, k)
    {
      var c: Block := src[BLOCK * k..BLOCK * (k + 1)];
      assert bs[k] == PlainBlock(f, iv, cs, k);
      PutBlock(dst, k, Xor(f.dec(c), prev), bs);
      prev := c;
    }
  }

  method AesEncrypt(f: Cipher, iv: Block, origData: seq<Byte>) returns (r: seq<Byte>)
    ensures r == Encrypted(f, iv, origData)
    ensures exists p: seq<Byte> {:trigger |p|} ::
              && origData <= p && 1 <= |p| - |origData| <= 16 && |r| == |p|
              && (forall i :: |origData| <= i < |p| ==> p[i] as int == |p| - |origData|)
              && |p| % 16 == 0 && forall k :: 0 <= k < |p| / 16 ==> EncipheredAt(f, iv, p, r, k)
  {
    PaddedIs(origData);
    forall k | 0 <= k < |Padded(origData)| / 16
      ensures EncipheredAt(f, iv, Padded(origData), Encrypted(f, iv, origData), k)
    {
      EnciphersBlocks(f, iv, Padded(origData), k);
    }
    var data := Padded(origData);
    var encrypted := new Byte[|data|];
    EncryptBlocks(f, iv, encrypted, data);
    r := encrypted[..];
  }

  method AesDecrypt(f: Cipher, iv: Block, encrypted: seq<Byte>) returns (r: Outcome)
    ensures r == Decrypted(f, iv, encrypted)
    ensures |encrypted| % 16 != 0 || encrypted == [] ==> r == Panics
    ensures |encrypted| % 16 == 0 && encrypted != [] ==>
              exists p: seq<Byte> {:trigger |p|} ::
                && |p| == |encrypted| && r == Stripped(p)
                && forall k :: 0 <= k < |p| / 16 ==> DecipheredAt(f, iv, encrypted, p, k)
  {
    if |encrypted| % 16 == 0 {
      forall k | 0 <= k < |encrypted| / 16
        ensures DecipheredAt(f, iv, encrypted, Deciphered(f, iv, encrypted), k)
      {
        DeciphersBlocks(f, iv, encrypted, k);
      }
    }
    if |encrypted| % BLOCK != 0 {
      return Panics;
    }
    var origData := new Byte[|encrypted|];
    DecryptBlocks(f, iv, origData, encrypted);
    r := Unpadded(origData[..]);
  }
}
