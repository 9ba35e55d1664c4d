/** utils/encrypt/azdg.go: a cipher that mixes text with noise and with the hash of a key. The base64 around it, the
  * random source and MD5 are not modelled: noise and hash are any 32 bytes. */
module Azdg {
  type Byte = bv8

  /** 32 bytes. */
  type Block = b: seq<Byte> | |b| == 32 witness seq(32, _ => 0)

  function Mask(hash: Block, s: seq<Byte>): (r: seq<Byte>)
    ensures |r| == |s|
  {
    seq(|s|, i requires 0 <= i < |s| => s[i] ^ hash[i % 32])
  }

  /** Each byte after the noise it is mixed with. */
  function Mixed(noise: Block, s: seq<Byte>): (r: seq<Byte>)
    ensures |r| == 2 * |s|
  {
    seq(2 * |s|, j requires 0 <= j < 2 * |s| =>
      if j % 2 == 0 then noise[j / 2 % 32] else s[j / 2] ^ noise[j / 2 % 32])
  }

  function Encrypted(hash: Block, noise: Block, s: seq<Byte>): (r: seq<Byte>)
    ensures |r| == 2 * |s|
  {
    Mask(hash, Mixed(noise, s))
  }

  /** The two bytes of each pair, mixed. */
  function Pairs(m: seq<Byte>): (r: seq<Byte>)
    requires |m| % 2 == 0
    ensures |m| == 2 * |r|
  {
    seq(|m| / 2, j requires 0 <= j < |m| / 2 => m[2 * j] ^ m[2 * j + 1])
  }

  /** What is decrypted has an even length; the code answers anything else with the empty text. */
  function Decrypted(hash: Block, c: seq<Byte>): seq<Byte> {
    if |c| % 2 != 0 then [] else Pairs(Mask(hash, c))
  }

  lemma XorTwice(x: Byte, y: Byte)
    ensures (x ^ y) ^ y == x && y ^ (x ^ y) == x
  {
  }

  lemma MaskTwice(hash: Block, s: seq<Byte>)
    ensures Mask(hash, Mask(hash, s)) == s
  {
    forall i | 0 <= i < |s| ensures Mask(hash, Mask(hash, s))[i] == s[i] {
      XorTwice(s[i], hash[i % 32]);
    }
  }

  lemma MixedAt(noise: Block, s: seq<Byte>, j: nat)
    requires j < |s|
    ensures Mixed(noise, s)[2 * j] == noise[j % 32] && Mixed(noise, s)[2 * j + 1] == s[j] ^ noise[j % 32]
  {
    assert 2 * j / 2 == j && (2 * j + 1) / 2 == j;
  }

  lemma PairsOfMixed(noise: Block, s: seq<Byte>)
    ensures Pairs(Mixed(noise, s)) == s
  {
    var m := Mixed(noise, s);
    forall j | 0 <= j < |s| ensures Pairs(m)[j] == s[j] {
      MixedAt(noise, s, j);
      XorTwice(s[j], noise[j % 32]);
    }
  }

  /** Main result: decryption undoes encryption, for every text, key and noise. */
  lemma DecryptUndoesEncrypt(hash: Block, noise: Block, s: seq<Byte>)
    ensures Decrypted(hash, Encrypted(hash, noise, s)) == s
  {
    MaskTwice(hash, Mixed(noise, s));
    PairsOfMixed(noise, s);
  }

  /** So a cipher text stands for one text only, whatever the noise. */
  lemma EncryptIsInjective(hash: Block, noise: Block, s: seq<Byte>, noise': Block, s': seq<Byte>)
    requires Encrypted(hash, noise, s) == Encrypted(hash, noise', s')
    ensures s == s'
  {
    DecryptUndoesEncrypt(hash, noise, s);
    DecryptUndoesEncrypt(hash, noise', s');
  }

  // ----- byte by byte

  /** The two bytes of the cipher text for byte `j`: the noise, and the byte mixed with it, both masked by the hash. */
  ghost predicate EncryptedAt(hash: Block, noise: Block, s: seq<Byte>, c: seq<Byte>, j: nat)
    requires |c| == 2 * |s| && j < |s|
  {
    c[2 * j] == noise[j % 32] ^ hash[2 * j % 32] &&
    c[2 * j + 1] == (s[j] ^ noise[j % 32]) ^ hash[(2 * j + 1) % 32]
  }

  lemma EncryptsAt(hash: Block, noise: Block, s: seq<Byte>, j: nat)
    requires j < |s|
    ensures EncryptedAt(hash, noise, s, Encrypted(hash, noise, s), j)
  {
    MixedAt(noise, s, j);
    MaskPair(hash, Mixed(noise, s), j);
  }

  /** The byte for the two bytes of a pair, without the mask. */
  ghost predicate DecryptedAt(hash: Block, c: seq<Byte>, s: seq<Byte>, j: nat)
    requires |c| == 2 * |s| && j < |s|
  {
    s[j] == (c[2 * j] ^ hash[2 * j % 32]) ^ (c[2 * j + 1] ^ hash[(2 * j + 1) % 32])
  }

  lemma DecryptsAt(hash: Block, c: seq<Byte>, j: nat)
    requires |c| % 2 == 0 && 2 * j < |c|
    ensures DecryptedAt(hash, c, Decrypted(hash, c), j)
  {
    MaskPair(hash, c, j);
    PairsAt(Mask(hash, c), j);
  }

  lemma MaskAt(hash: Block, s: seq<Byte>, i: nat)
    requires i < |s|
    ensures Mask(hash, s)[i] == s[i] ^ hash[i % 32]
  {
  }

  lemma MaskPair(hash: Block, m: seq<Byte>, j: nat)
    requires 2 * j + 1 < |m|
    ensures Mask(hash, m)[2 * j] == m[2 * j] ^ hash[2 * j % 32]
    ensures Mask(hash, m)[2 * j + 1] == m[2 * j + 1] ^ hash[(2 * j + 1) % 32]
  {
    MaskAt(hash, m, 2 * j);
    MaskAt(hash, m, 2 * j + 1);
  }

  lemma PairsAt(m: seq<Byte>, j: nat)
    requires |m| % 2 == 0 && 2 * j < |m|
    ensures Pairs(m)[j] == m[2 * j] ^ m[2 * j + 1]
  {
  }

  lemma EncryptsAll(hash: Block, noise: Block, s: seq<Byte>)
    ensures forall j :: 0 <= j < |s| ==> EncryptedAt(hash, noise, s, Encrypted(hash, noise, s), j)
  {
    forall j | 0 <= j < |s| ensures EncryptedAt(hash, noise, s, Encrypted(hash, noise, s), j) {
      EncryptsAt(hash, noise, s, j);
    }
  }

  lemma DecryptsAll(hash: Block, c: seq<Byte>)
    requires |c| % 2 == 0
    ensures |c| == 2 * |Decrypted(hash, c)|
    ensures forall j :: 0 <= j < |c| / 2 ==> DecryptedAt(hash, c, Decrypted(hash, c), j)
  {
    forall j | 0 <= j < |c| / 2 ensures DecryptedAt(hash, c, Decrypted(hash, c), j) {
      DecryptsAt(hash, c, j);
    }
  }

  // ----- the code

  method CipherEncode(hash: Block, inputData: seq<Byte>) returns (r: seq<Byte>)
    ensures r == Mask(hash, inputData)
    ensures |r| == |inputData| && forall i :: 0 <= i < |r| ==> r[i] == inputData[i] ^ hash[i % 32]
  {
    var loopCount := |inputData|;
    var outData := new Byte[loopCount];
    for i := 0 to loopCount
      invariant outData[..i] == Mask(hash, inputData)[..i]
    {
      outData[i] := inputData[i] ^ hash[i % 32];
    }
    r := outData[..];
  }

  method Encrypt(hash: Block, noise: Block, inputData: seq<Byte>) returns (r: seq<Byte>)
    ensures r == Encrypted(hash, noise, inputData)
    ensures |r| == 2 * |inputData| && forall j :: 0 <= j < |inputData| ==> EncryptedAt(hash, noise, inputData, r, j)
  {
    var loopCount := |inputData|;
    var outData := new Byte[2 * loopCount];
    var i, j := 0, 0;
    while i < loopCount
      invariant i <= loopCount && j == 2 * i
      invariant outData[..j] == Mixed(noise, inputData)[..j]
    {
      outData[j] := noise[i % 32];
      j := j + 1;
      outData[j] := inputData[i] ^ noise[i % 32];
      MixedAt(noise, inputData, i);
      i, j := i + 1, j + 1;
    }
    assert outData[..] == Mixed(noise, inputData);
    r := CipherEncode(hash, outData[..]);
    EncryptsAll(hash, noise, inputData);
  }

  method Decrypt(hash: Block, buf: seq<Byte>) returns (r: seq<Byte>)
    ensures r == Decrypted(hash, buf)
    ensures |buf| % 2 != 0 ==> r == []
    ensures |buf| % 2 == 0 ==> |buf| == 2 * |r| && forall j :: 0 <= j < |r| ==> DecryptedAt(hash, buf, r, j)
  {
    var inputData := CipherEncode(hash, buf);
    if |inputData| % 2 != 0 {
      return [];
    }
    r := Unmix(inputData);
    DecryptsAll(hash, buf);
  }

  /** The loop over the pairs. */
  method Unmix(inputData: seq<Byte>) returns (r: seq<Byte>)
    requires |inputData| % 2 == 0
    ensures r == Pairs(inputData)
  {
    var loopCount := |inputData|;
    var outData := new Byte[loopCount / 2];
    var p := 0;
    var i, j := 0, 0;
    while i < loopCount
      invariant i == 2 * j && p == j && i <= loopCount
      invariant outData[..j] == Pairs(inputData)[..j]
    {
      outData[j] := inputData[i] ^ inputData[i + 1];
      p := p + 1;
      i, j := i + 2, j + 1;
    }
    r := outData[..p];
  }
}
