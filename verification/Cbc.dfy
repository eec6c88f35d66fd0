/** CBC mode (section 6.2 of NIST SP 800-38A) over an abstract block cipher, as the driver calls it:
    each call starts from its own copy of the initialization vector. */
module Cbc {
  type Octets = seq<bv8>

  type Block = b: Octets | |b| == 16 witness [0, 0, 0, 0, 0, 0, 0, 0, 0, 0, 0, 0, 0, 0, 0, 0]

  /** The kernel's algorithms, keyed by 16-byte keys. */
  datatype Algorithms = Algorithms(enc: (Block, Block) -> Block, dec: (Block, Block) -> Block, md5: Octets -> Block)

  /** For each key, decryption undoes encryption. */
  ghost predicate IsCipher(alg: Algorithms) {
    forall key: Block, b: Block :: alg.dec(key, alg.enc(key, b)) == b
  }

  function Xor(a: Block, b: Block): Block {
    seq(16, i requires 0 <= i < 16 => a[i] ^ b[i])
  }

  lemma XorTwice(a: Block, b: Block)
    ensures Xor(Xor(a, b), b) == a
  {
  }

  predicate Whole(data: Octets) {
    |data| % 16 == 0
  }

  function Encrypt(alg: Algorithms, key: Block, iv: Block, data: Octets): (r: Octets)
    requires Whole(data)
    ensures |r| == |data|
    decreases |data|
  {
    if data == [] then []
    else
      var c := alg.enc(key, Xor(data[..16], iv));
      c + Encrypt(alg, key, c, data[16..])
  }

  function Decrypt(alg: Algorithms, key: Block, iv: Block, data: Octets): (r: Octets)
    requires Whole(data)
    ensures |r| == |data|
    decreases |data|
  {
    if data == [] then []
    else
      var c: Block := data[..16];
      Xor(alg.dec(key, c), iv) + Decrypt(alg, key, c, data[16..])
  }

  lemma {:induction false} DecryptEncrypt(alg: Algorithms, key: Block, iv: Block, data: Octets)
    requires IsCipher(alg) && Whole(data)
    ensures Decrypt(alg, key, iv, Encrypt(alg, key, iv, data)) == data
    decreases |data|
  {
    if data != [] {
      FirstBlock(alg, key, iv, key, iv, data);
      var p: Block := data[..16];
      var c := alg.enc(key, Xor(p, iv));
      DecryptEncrypt(alg, key, c, data[16..]);
      XorTwice(p, iv);
      assert data == data[..16] + data[16..];
    }
  }

  /** Decryption under any key and vector, one block unfolded. */
  lemma FirstBlock(alg: Algorithms, key: Block, iv: Block, key': Block, iv': Block, data: Octets)
    requires Whole(data) && data != []
    ensures var c := alg.enc(key, Xor(data[..16], iv)); var sent := Encrypt(alg, key, iv, data);
      Decrypt(alg, key', iv', sent)
      == Xor(alg.dec(key', c), iv') + Decrypt(alg, key', c, Encrypt(alg, key, c, data[16..]))
  {
  }

  lemma XorDiffers(a: Block, b: Block, c: Block)
    requires b != c
    ensures Xor(a, b) != Xor(a, c)
  {
    var i :| 0 <= i < 16 && b[i] != c[i];
    XorCancel(a[i], b[i], c[i]);
    assert Xor(a, b)[i] != Xor(a, c)[i];
  }

  lemma XorCancel(x: bv8, y: bv8, z: bv8)
    requires y != z
    ensures x ^ y != x ^ z
  {
  }

  lemma XorCommutes(x: bv8, y: bv8)
    ensures x ^ y == y ^ x
  {
  }

  /** With the right key, a wrong vector always spoils the first block. */
  lemma WrongVector(alg: Algorithms, key: Block, iv: Block, iv': Block, data: Octets)
    requires IsCipher(alg) && Whole(data) && data != [] && iv != iv'
    ensures Decrypt(alg, key, iv', Encrypt(alg, key, iv, data)) != data
  {
    FirstBlock(alg, key, iv, key, iv', data);
    var p: Block := data[..16];
    XorTwice(p, iv);
    XorDiffers(Xor(p, iv), iv, iv');
    assert Decrypt(alg, key, iv', Encrypt(alg, key, iv, data))[..16] == Xor(Xor(p, iv), iv');
  }

  /** A cipher that copies blocks, except that under `key` it masks them. */
  function Masking(key: Block, mask: Block): Algorithms {
    Algorithms((k: Block, b: Block) => if k == key then Xor(b, mask) else b,
               (k: Block, b: Block) => if k == key then Xor(b, mask) else b,
               (data: Octets) => mask)
  }

  lemma MaskingIsCipher(key: Block, mask: Block)
    ensures IsCipher(Masking(key, mask))
  {
  }

  const ZEROS: Block := [0, 0, 0, 0, 0, 0, 0, 0, 0, 0, 0, 0, 0, 0, 0, 0]
  const ONES: Block := [1, 1, 1, 1, 1, 1, 1, 1, 1, 1, 1, 1, 1, 1, 1, 1]

  /** For two different keys some cipher spoils the first block, whatever the vectors are. */
  lemma WrongKey(key: Block, key': Block, iv: Block, iv': Block, data: Octets) returns (alg: Algorithms)
    requires key != key' && Whole(data) && data != []
    ensures IsCipher(alg) && Decrypt(alg, key', iv', Encrypt(alg, key, iv, data)) != data
  {
    var p: Block := data[..16];
    var c := Xor(p, iv);
    var mask := if Xor(Xor(c, ZEROS), iv') == p then ONES else ZEROS;
    alg := Masking(key', mask);
    MaskingIsCipher(key', mask);
    FirstBlock(alg, key, iv, key', iv', data);
    MasksDiffer(c, iv', p);
    assert Decrypt(alg, key', iv', Encrypt(alg, key, iv, data))[..16] == Xor(Xor(c, mask), iv');
  }

  lemma MasksDiffer(c: Block, iv: Block, p: Block)
    ensures Xor(Xor(c, ZEROS), iv) == p ==> Xor(Xor(c, ONES), iv) != p
  {
    assert ZEROS[0] != ONES[0];
    XorCancel(c[0], ZEROS[0], ONES[0]);
    XorCommutes(c[0] ^ ZEROS[0], iv[0]);
    XorCommutes(c[0] ^ ONES[0], iv[0]);
    XorCancel(iv[0], c[0] ^ ZEROS[0], c[0] ^ ONES[0]);
    assert Xor(Xor(c, ZEROS), iv)[0] != Xor(Xor(c, ONES), iv)[0];
  }

  /** Every cipher decrypts back exactly when there is nothing to decrypt, or key and vector agree. */
  lemma DecryptsUnderEveryCipherIff(key: Block, iv: Block, key': Block, iv': Block, data: Octets)
    requires Whole(data)
    ensures (forall alg :: IsCipher(alg) ==> Decrypt(alg, key', iv', Encrypt(alg, key, iv, data)) == data)
       <==> data == [] || (key == key' && iv == iv')
  {
    if key == key' && iv == iv' {
      forall alg | IsCipher(alg) ensures Decrypt(alg, key', iv', Encrypt(alg, key, iv, data)) == data {
        DecryptEncrypt(alg, key, iv, data);
      }
    } else if data != [] {
      if key != key' {
        var alg := WrongKey(key, key', iv, iv', data);
      } else {
        var alg := Masking(key, ZEROS);
        MaskingIsCipher(key, ZEROS);
        WrongVector(alg, key, iv, iv', data);
      }
    }
  }

  // ----- The mode, block by block -----

  /** The `j`-th block of some whole blocks. */
  function BlockAt(data: Octets, j: nat): Block
    requires 16 * (j + 1) <= |data|
  {
    data[16 * j..16 * (j + 1)]
  }

  lemma BlockBehind(data: Octets, j: nat)
    requires 0 < j && 16 * (j + 1) <= |data|
    ensures BlockAt(data[16..], j - 1) == BlockAt(data, j)
  {
  }

  /** Each block is enciphered after it has been combined with the block sent before it, the first with the
      vector (section 6.2 of NIST SP 800-38A). */
  lemma {:induction false} EncryptedBlock(alg: Algorithms, key: Block, iv: Block, data: Octets, j: nat)
    requires Whole(data) && 16 * (j + 1) <= |data|
    ensures var sent := Encrypt(alg, key, iv, data);
      BlockAt(sent, j) == alg.enc(key, Xor(BlockAt(data, j), if j == 0 then iv else BlockAt(sent, j - 1)))
    decreases |data|
  {
    var c := alg.enc(key, Xor(data[..16], iv));
    var sent := Encrypt(alg, key, iv, data);
    assert sent == c + Encrypt(alg, key, c, data[16..]);
    assert BlockAt(sent, 0) == c && sent[16..] == Encrypt(alg, key, c, data[16..]);
    if j > 0 {
      EncryptedBlock(alg, key, c, data[16..], j - 1);
      BlockBehind(data, j);
      BlockBehind(sent, j);
      if j > 1 {
        BlockBehind(sent, j - 1);
      }
    }
  }

  /** Each block is deciphered and combined with the block received before it, the first with the vector. */
  lemma {:induction false} DecryptedBlock(alg: Algorithms, key: Block, iv: Block, data: Octets, j: nat)
    requires Whole(data) && 16 * (j + 1) <= |data|
    ensures BlockAt(Decrypt(alg, key, iv, data), j)
      == Xor(alg.dec(key, BlockAt(data, j)), if j == 0 then iv else BlockAt(data, j - 1))
    decreases |data|
  {
    var c: Block := data[..16];
    var plain := Decrypt(alg, key, iv, data);
    assert plain == Xor(alg.dec(key, c), iv) + Decrypt(alg, key, c, data[16..]);
    assert plain[16..] == Decrypt(alg, key, c, data[16..]);
    if j > 0 {
      DecryptedBlock(alg, key, c, data[16..], j - 1);
      BlockBehind(data, j);
      BlockBehind(plain, j);
      if j > 1 {
        BlockBehind(data, j - 1);
      }
    }
  }
}
