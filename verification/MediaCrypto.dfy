/** Media encryption: PKCS#7 padding and a block cipher in ECB mode, for any invertible block function. */
module MediaCrypto {
  import opened Wrappers

  const BLOCK_SIZE := 16

  type Block = b: seq<Byte> | |b| == BLOCK_SIZE witness [0, 0, 0, 0, 0, 0, 0, 0, 0, 0, 0, 0, 0, 0, 0, 0]

  /** AES-128 under some key, as two functions on blocks that undo each other. */
  datatype Cipher = Cipher(encrypt: Block -> Block, decrypt: Block -> Block)

  ghost predicate Invertible(c: Cipher) {
    && (forall b: Block :: c.decrypt(c.encrypt(b)) == b)
    && (forall b: Block :: c.encrypt(c.decrypt(b)) == b)
  }

  // ------------------------------------------------- padding, section 6.3 of RFC 5652

  function Fill(b: Byte, n: nat): (r: seq<Byte>)
    ensures |r| == n && forall k :: 0 <= k < n ==> r[k] == b
  {
    if n == 0 then [] else [b] + Fill(b, n - 1)
  }

  function Pad(data: seq<Byte>): seq<Byte> {
    var n := BLOCK_SIZE - |data| % BLOCK_SIZE;
    data + Fill(n, n)
  }

  /** The last byte counts the padding bytes, all equal to it. */
  predicate WellPadded(data: seq<Byte>) {
    data != [] &&
    var n := data[|data| - 1];
    1 <= n <= BLOCK_SIZE && n <= |data| && forall k :: |data| - n <= k < |data| ==> data[k] == n
  }

  /** `pkcs7_unpad`: what is not well padded is left alone. */
  function Unpad(data: seq<Byte>): seq<Byte> {
    if WellPadded(data) then data[..|data| - data[|data| - 1]] else data
  }

  function PaddedSize(rawSize: nat): nat { (rawSize + 1 + 15) / 16 * 16 }

  lemma PadIsWellPadded(data: seq<Byte>)
    ensures WellPadded(Pad(data)) && |Pad(data)| % BLOCK_SIZE == 0 && |Pad(data)| == PaddedSize(|data|)
    ensures Unpad(Pad(data)) == data
  {
    var n := BLOCK_SIZE - |data| % BLOCK_SIZE;
    assert Pad(data)[|Pad(data)| - 1] == n;
  }

  lemma FillIs(b: Byte, s: seq<Byte>)
    requires forall k :: 0 <= k < |s| ==> s[k] == b
    ensures Fill(b, |s|) == s
  {
  }

  /** On whole blocks, padding undoes unpadding exactly for what is well padded. */
  lemma UnpadIsUndoneWhenWellPadded(data: seq<Byte>)
    requires |data| % BLOCK_SIZE == 0
    ensures Pad(Unpad(data)) == data <==> WellPadded(data)
  {
    if WellPadded(data) {
      var n := data[|data| - 1];
      var raw := data[..|data| - n];
      FillIs(n, data[|data| - n..]);
      assert BLOCK_SIZE - |raw| % BLOCK_SIZE == n;
      assert data == raw + data[|data| - n..];
    } else {
      assert |Pad(data)| > |data|;
    }
  }

  /**
   Unpadding takes away n bytes of value n at the end, for n from 1 to 16, and leaves everything else alone; the last
   byte decides which n.
   */
  lemma UnpadExactly(data: seq<Byte>, raw: seq<Byte>, n: Byte)
    ensures 1 <= n <= 16 && data == raw + seq(n, _ => n) ==> Unpad(data) == raw
    ensures (forall m: Byte :: !(1 <= m <= 16 && EndsWithCopies(data, m))) ==> Unpad(data) == data
  {
    if 1 <= n <= 16 && data == raw + seq(n, _ => n) {
      assert data[|data| - 1] == n && data[..|data| - n] == raw;
    }
    if WellPadded(data) {
      assert EndsWithCopies(data, data[|data| - 1]);
    }
  }

  /** The data ends with m bytes of value m. */
  predicate EndsWithCopies(data: seq<Byte>, m: Byte) {
    m <= |data| && forall k :: |data| - m <= k < |data| ==> data[k] == m
  }

  // -------------------------------------- block by block, section 6.1 of NIST SP 800-38A

  function MapBlocks(f: Block -> Block, data: seq<Byte>): (r: seq<Byte>)
    requires |data| % BLOCK_SIZE == 0
    ensures |r| == |data|
  {
    if data == [] then [] else f(data[..BLOCK_SIZE]) + MapBlocks(f, data[BLOCK_SIZE..])
  }

  lemma {:induction false} MapBlocksUndone(f: Block -> Block, g: Block -> Block, data: seq<Byte>)
    requires |data| % BLOCK_SIZE == 0 && forall b: Block :: g(f(b)) == b
    ensures MapBlocks(g, MapBlocks(f, data)) == data
  {
    if data != [] {
      var first: seq<Byte> := f(data[..BLOCK_SIZE]);
      var rest: seq<Byte> := MapBlocks(f, data[BLOCK_SIZE..]);
      MapBlocksUndone(f, g, data[BLOCK_SIZE..]);
      assert (first + rest)[..BLOCK_SIZE] == first && (first + rest)[BLOCK_SIZE..] == rest;
    }
  }

  lemma {:induction false} MapBlocksAppend(f: Block -> Block, data: seq<Byte>, b: Block)
    requires |data| % BLOCK_SIZE == 0
    ensures MapBlocks(f, data + b) == MapBlocks(f, data) + f(b)
  {
    if data == [] {
      assert data + b == b && b[..BLOCK_SIZE] == b && b[BLOCK_SIZE..] == [];
    } else {
      MapBlocksAppend(f, data[BLOCK_SIZE..], b);
      assert (data + b)[..BLOCK_SIZE] == data[..BLOCK_SIZE];
      assert (data + b)[BLOCK_SIZE..] == data[BLOCK_SIZE..] + b;
    }
  }

  /** The data with the block at `i` replaced. */
  function WithBlock(f: Block -> Block, data: seq<Byte>, i: nat): seq<Byte>
    requires i + BLOCK_SIZE <= |data|
  {
    data[..i] + f(data[i..i + BLOCK_SIZE]) + data[i + BLOCK_SIZE..]
  }

  method ReplaceBlock(f: Block -> Block, buf: array<Byte>, i: nat)
    requires i + BLOCK_SIZE <= buf.Length
    modifies buf
    ensures buf[..] == WithBlock(f, old(buf[..]), i)
  {
    var block := f(buf[i..i + BLOCK_SIZE]);
    forall k | 0 <= k < BLOCK_SIZE {
      buf[i + k] := block[k];
    }
    assert buf[i..i + BLOCK_SIZE] == block;
  }

  /** The data with the blocks before `i` replaced. */
  function MappedUpTo(f: Block -> Block, data: seq<Byte>, i: nat): seq<Byte>
    requires i <= |data| && i % BLOCK_SIZE == 0
  {
    MapBlocks(f, data[..i]) + data[i..]
  }

  lemma OneBlockFurther(f: Block -> Block, data: seq<Byte>, i: nat)
    requires i + BLOCK_SIZE <= |data| && i % BLOCK_SIZE == 0
    ensures WithBlock(f, MappedUpTo(f, data, i), i) == MappedUpTo(f, data, i + BLOCK_SIZE)
  {
    var mapped, next := MappedUpTo(f, data, i), i + BLOCK_SIZE;
    assert mapped[..i] == MapBlocks(f, data[..i]);
    assert mapped[i..next] == data[i..next] && mapped[next..] == data[next..];
    assert data[..i] + data[i..next] == data[..next];
    MapBlocksAppend(f, data[..i], data[i..next]);
  }

  /** The loop over `chunks_mut`: every block is replaced where it stands. */
  method MapInPlace(f: Block -> Block, buf: array<Byte>)
    requires buf.Length % BLOCK_SIZE == 0
    modifies buf
    ensures buf[..] == MapBlocks(f, old(buf[..]))
  {
    var i := 0;
    while i < buf.Length
      invariant 0 <= i <= buf.Length && i % BLOCK_SIZE == 0
      invariant buf[..] == MappedUpTo(f, old(buf[..]), i)
    {
      OneBlockFurther(f, old(buf[..]), i);
      ReplaceBlock(f, buf, i);
      i := i + BLOCK_SIZE;
    }
    assert old(buf[..])[..i] == old(buf[..]) && old(buf[..])[i..] == [];
  }

  function Encrypted(c: Cipher, plaintext: seq<Byte>): seq<Byte> {
    PadIsWellPadded(plaintext);
    MapBlocks(c.encrypt, Pad(plaintext))
  }

  /** What is no whole number of blocks is returned as it is. */
  function Decrypted(c: Cipher, ciphertext: seq<Byte>): seq<Byte> {
    if ciphertext == [] || |ciphertext| % BLOCK_SIZE != 0 then ciphertext
    else Unpad(MapBlocks(c.decrypt, ciphertext))
  }

  method ArrayOf(data: seq<Byte>) returns (buf: array<Byte>)
    ensures fresh(buf) && buf[..] == data
  {
    buf := new Byte[|data|](i requires 0 <= i < |data| => data[i]);
  }

  /** `aes128_ecb_encrypt`. */
  method Encrypt(c: Cipher, plaintext: seq<Byte>) returns (r: seq<Byte>)
    ensures r == Encrypted(c, plaintext)
  {
    PadIsWellPadded(plaintext);
    var buf := ArrayOf(Pad(plaintext));
    MapInPlace(c.encrypt, buf);
    r := buf[..];
  }

  /** `aes128_ecb_decrypt`. */
  method Decrypt(c: Cipher, ciphertext: seq<Byte>) returns (r: seq<Byte>)
    ensures r == Decrypted(c, ciphertext)
  {
    if ciphertext == [] || |ciphertext| % BLOCK_SIZE != 0 {
      return ciphertext;
    }
    var buf := ArrayOf(ciphertext);
    MapInPlace(c.decrypt, buf);
    r := Unpad(buf[..]);
  }

  /** What is no whole number of blocks comes back as it is, and badly padded blocks come back with their padding. */
  lemma DecryptsWhatItCan(c: Cipher, ciphertext: seq<Byte>)
    ensures |ciphertext| % 16 != 0 || ciphertext == [] ==> Decrypted(c, ciphertext) == ciphertext
    ensures |ciphertext| % 16 == 0
            && (forall m: Byte :: !(1 <= m <= 16 && EndsWithCopies(MapBlocks(c.decrypt, ciphertext), m))) ==>
              Decrypted(c, ciphertext) == MapBlocks(c.decrypt, ciphertext)
  {
    if ciphertext != [] && |ciphertext| % 16 == 0 {
      UnpadExactly(MapBlocks(c.decrypt, ciphertext), [], 0);
    }
  }

  /** Each block is mapped where it stands. */
  lemma {:induction false} MapBlocksAt(f: Block -> Block, data: seq<Byte>, k: nat)
    requires |data| % 16 == 0 && 16 * k + 16 <= |data|
    ensures MapBlocks(f, data)[16 * k..16 * k + 16] == f(data[16 * k..16 * k + 16])
    decreases k
  {
    var rest := data[BLOCK_SIZE..];
    var mapped := MapBlocks(f, rest);
    if k > 0 {
      MapBlocksAt(f, rest, k - 1);
      assert rest[16 * (k - 1)..16 * (k - 1) + 16] == data[16 * k..16 * k + 16];
      assert MapBlocks(f, data)[16 * k..16 * k + 16] == mapped[16 * (k - 1)..16 * (k - 1) + 16];
    }
  }

  /** Each block of a ciphertext is the image of the block of plaintext, or of padding, in its place. */
  lemma CiphertextAt(c: Cipher, plaintext: seq<Byte>, k: nat)
    requires 16 * k <= |plaintext|
    ensures var n := 16 - |plaintext| % 16;
      var padded := plaintext + seq(n, _ => n as Byte);
      && |Encrypted(c, plaintext)| == |padded| && 16 * k + 16 <= |padded|
      && Encrypted(c, plaintext)[16 * k..16 * k + 16] == c.encrypt(padded[16 * k..16 * k + 16])
  {
    PadIsWellPadded(plaintext);
    var n := 16 - |plaintext| % 16;
    assert Pad(plaintext) == plaintext + seq(n, _ => n as Byte);
    MapBlocksAt(c.encrypt, Pad(plaintext), k);
  }

  // ------------------------------------------------------------------------ round trips

  /** Every plaintext comes back, and its ciphertext has the announced length. */
  lemma DecryptUndoesEncrypt(c: Cipher, plaintext: seq<Byte>)
    requires Invertible(c)
    ensures Decrypted(c, Encrypted(c, plaintext)) == plaintext
    ensures |Encrypted(c, plaintext)| == PaddedSize(|plaintext|) > |plaintext|
  {
    PadIsWellPadded(plaintext);
    MapBlocksUndone(c.encrypt, c.decrypt, Pad(plaintext));
  }

  /** A ciphertext comes back exactly when it is whole blocks of a well-padded plaintext. */
  lemma EncryptUndoesDecryptExactly(c: Cipher, ciphertext: seq<Byte>)
    requires Invertible(c)
    ensures Encrypted(c, Decrypted(c, ciphertext)) == ciphertext <==>
            |ciphertext| % BLOCK_SIZE == 0 && WellPadded(MapBlocks(c.decrypt, ciphertext))
  {
    var back := Decrypted(c, ciphertext);
    PadIsWellPadded(back);
    if ciphertext != [] && |ciphertext| % BLOCK_SIZE == 0 {
      var padded := MapBlocks(c.decrypt, ciphertext);
      UnpadIsUndoneWhenWellPadded(padded);
      MapBlocksUndone(c.decrypt, c.encrypt, ciphertext);
      MapBlocksUndone(c.encrypt, c.decrypt, Pad(back));
    }
  }
}
