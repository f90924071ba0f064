/** The encrypted file store: AES blocks chained by hand, files of whole blocks. The block
    cipher itself is any pair of functions of which one undoes the other. */
module TrustStore {
  const BLOCK := 16
  /** The largest length that fits the 16-bit length of a caller. */
  const LENGTH_MAX := 65535

  type Block = b: seq<bv8> | |b| == BLOCK witness seq(BLOCK, _ => 0)

  datatype Status = OK | FILE_NOT_EXIST | COULD_NOT_OPEN_FILE | READ_FILE | BUFFER_TO_SMALL

  ghost predicate Undoes(E: Block -> Block, D: Block -> Block) {
    forall b: Block :: D(E(b)) == b
  }

  function Zeros(n: nat): (r: seq<bv8>)
    ensures |r| == n
  {
    seq(n, _ => 0)
  }

  function Xor(a: Block, b: Block): Block {
    seq(BLOCK, i requires 0 <= i < BLOCK => a[i] ^ b[i])
  }

  lemma XorBits(a: bv8, b: bv8)
    ensures (a ^ b) ^ b == a
  {
  }

  lemma XorTwice(a: Block, b: Block)
    ensures Xor(Xor(a, b), b) == a
  {
    forall i | 0 <= i < BLOCK ensures Xor(Xor(a, b), b)[i] == a[i] {
      XorBits(a[i], b[i]);
    }
  }

  // ---------------------------------------------------------------------
  // Sizes.

  /** `get_output_size`. */
  function OutputSize(n: nat): nat {
    if n % 16 == 0 then n else 16 * (n / 16 + 1)
  }

  /** `get_qtd_blocks`. */
  function Blocks(n: nat): nat {
    if n % 16 == 0 then n / 16 else n / 16 + 1
  }

  /** The output is the smallest number of whole blocks that holds the input. */
  lemma SizesAgree(n: nat)
    ensures OutputSize(n) == 16 * Blocks(n) && n <= OutputSize(n) < n + 16
    ensures forall m: nat :: n <= 16 * m ==> Blocks(n) <= m
  {
  }

  /** The data, followed by zeros to the end of the last block. */
  function Padded(data: seq<bv8>): (r: seq<bv8>)
    ensures |r| == OutputSize(|data|)
  {
    SizesAgree(|data|);
    data + Zeros(OutputSize(|data|) - |data|)
  }

  /** Block i of the data, filled up with zeros. */
  function BlockAt(data: seq<bv8>, i: nat): Block
    requires 16 * i <= |data|
  {
    if |data| - 16 * i < 16 then data[16 * i..] + Zeros(16 - (|data| - 16 * i)) else data[16 * i..16 * i + 16]
  }

  lemma BlockOfPadded(data: seq<bv8>, i: nat)
    requires i < Blocks(|data|)
    ensures 16 * i <= |data| && 16 * i + 16 <= OutputSize(|data|)
    ensures BlockAt(data, i) == Padded(data)[16 * i..16 * i + 16]
  {
    SizesAgree(|data|);
    var p := Padded(data);
    assert forall k :: 0 <= k < |p| ==> p[k] == if k < |data| then data[k] else 0;
  }

  // ---------------------------------------------------------------------
  // Cipher block chaining.

  function Encrypted(E: Block -> Block, iv: Block, text: seq<bv8>): (r: seq<bv8>)
    requires |text| % 16 == 0
    ensures |r| == |text|
    decreases |text|
  {
    if text == [] then []
    else
      var c := E(Xor(text[..16], iv));
      c + Encrypted(E, c, text[16..])
  }

  function Decrypted(D: Block -> Block, iv: Block, cipher: seq<bv8>): (r: seq<bv8>)
    requires |cipher| % 16 == 0
    ensures |r| == |cipher|
    decreases |cipher|
  {
    if cipher == [] then []
    else Xor(D(cipher[..16]), iv) + Decrypted(D, cipher[..16], cipher[16..])
  }

  /** Decryption undoes encryption, block by block, from any initial vector. */
  lemma {:induction false} DecryptsEncrypted(E: Block -> Block, D: Block -> Block, iv: Block, text: seq<bv8>)
    requires Undoes(E, D) && |text| % 16 == 0
    ensures Decrypted(D, iv, Encrypted(E, iv, text)) == text
    decreases |text|
  {
    if text != [] {
      var c := E(Xor(text[..16], iv));
      var rest := Encrypted(E, c, text[16..]);
      var all := Encrypted(E, iv, text);
      assert all[..16] == c && all[16..] == rest;
      DecryptsEncrypted(E, D, c, text[16..]);
      XorTwice(text[..16], iv);
      assert text == text[..16] + text[16..];
    }
  }

  /** Block i of encrypted text, and what it is combined with: the block before it, or the
      initial vector. */
  function CipherAt(c: seq<bv8>, i: nat): Block
    requires 16 * i + 16 <= |c|
  {
    c[16 * i..16 * i + 16]
  }

  function Chained(iv: Block, c: seq<bv8>, i: nat): Block
    requires 16 * i + 16 <= |c|
  {
    if i == 0 then iv else CipherAt(c, i - 1)
  }

  lemma {:induction false} EncryptedXor(E: Block -> Block, iv: Block, text: seq<bv8>, i: nat)
    requires |text| % 16 == 0 && 16 * i + 16 <= |text|
    ensures var c := Encrypted(E, iv, text); CipherAt(c, i) == E(Xor(CipherAt(text, i), Chained(iv, c, i)))
    decreases i
  {
    hide Xor;
    var c := E(Xor(text[..16], iv));
    var rest, all := Encrypted(E, c, text[16..]), Encrypted(E, iv, text);
    assert all == c + rest;
    if i == 0 {
      assert CipherAt(all, 0) == c && CipherAt(text, 0) == text[..16];
    } else {
      EncryptedXor(E, c, text[16..], i - 1);
      assert CipherAt(all, i) == CipherAt(rest, i - 1) && CipherAt(text, i) == CipherAt(text[16..], i - 1);
      assert Chained(iv, all, i) == Chained(c, rest, i - 1) by {
        if i == 1 {
          assert CipherAt(all, 0) == c;
        } else {
          assert CipherAt(all, i - 1) == CipherAt(rest, i - 2);
        }
      }
    }
  }

  /** Every block is combined bit by bit with the encrypted block before it, the first one with
      the initial vector, and then encrypted. */
  lemma EncryptedBlock(E: Block -> Block, iv: Block, text: seq<bv8>, i: nat) returns (x: Block)
    requires |text| % 16 == 0 && 16 * i + 16 <= |text|
    ensures var c := Encrypted(E, iv, text);
      && CipherAt(c, i) == E(x)
      && forall k :: 0 <= k < 16 ==> x[k] == text[16 * i + k] ^ Chained(iv, c, i)[k]
  {
    hide Encrypted, Chained;
    EncryptedXor(E, iv, text, i);
    x := Xor(CipherAt(text, i), Chained(iv, Encrypted(E, iv, text), i));
  }

  // ---------------------------------------------------------------------
  // Files.

  type Files = map<string, seq<bv8>>

  ghost predicate WholeBlocks(files: Files) {
    forall name :: name in files ==> |files[name]| % 16 == 0
  }

  function Stored(E: Block -> Block, data: seq<bv8>): (r: seq<bv8>)
    ensures |r| == OutputSize(|data|) && |r| % 16 == 0
  {
    SizesAgree(|data|);
    Encrypted(E, Zeros(16), Padded(data))
  }

  /** A file is the data, filled up with zeros to whole blocks, encrypted from an initial
      vector of zeros. */
  lemma StoredMeans(E: Block -> Block, data: seq<bv8>)
    ensures var n := 16 * Blocks(|data|);
      && |data| <= n < |data| + 16
      && Stored(E, data) == Encrypted(E, seq(16, _ => 0), data + seq(n - |data|, _ => 0))
  {
    SizesAgree(|data|);
    assert Zeros(16) == seq(16, _ => 0);
    assert Zeros(OutputSize(|data|) - |data|) == seq(16 * Blocks(|data|) - |data|, _ => 0);
  }

  datatype Write = Write(name: string, data: seq<bv8>)

  /** The files after the writes, oldest first. */
  function Written(E: Block -> Block, files: Files, writes: seq<Write>): Files
    decreases |writes|
  {
    if writes == [] then files
    else
      var w := writes[|writes| - 1];
      Written(E, files, writes[..|writes| - 1])[w.name := Stored(E, w.data)]
  }

  /** What `TPread` returns: the status, the data, and their length. */
  function Read(D: Block -> Block, files: Files, name: string, room: nat): (Status, seq<bv8>)
    requires name in files ==> |files[name]| % 16 == 0
  {
    if name !in files then (FILE_NOT_EXIST, [])
    else if room < |files[name]| then (BUFFER_TO_SMALL, [])
    else (OK, Decrypted(D, Zeros(16), files[name]))
  }

  /** Index of the last write to the name, or none. */
  predicate LastWrite(writes: seq<Write>, name: string, k: int) {
    && -1 <= k < |writes| && (k >= 0 ==> writes[k].name == name)
    && forall j :: k < j < |writes| ==> writes[j].name != name
  }

  lemma {:induction false} WrittenIs(E: Block -> Block, files: Files, writes: seq<Write>, name: string, k: int)
    requires LastWrite(writes, name, k)
    ensures var r := Written(E, files, writes);
      if k >= 0 then name in r && r[name] == Stored(E, writes[k].data)
      else (name in r <==> name in files) && (name in r ==> r[name] == files[name])
    decreases |writes|
  {
    if writes != [] {
      var n := |writes| - 1;
      if k < n {
        assert LastWrite(writes[..n], name, k);
        WrittenIs(E, files, writes[..n], name, k);
      }
    }
  }

  /** After any writes, a read returns the data of the last write to that name, filled up with
      zeros to whole blocks, and writes to other names do not matter; without such a write it
      finds what was there before. */
  lemma LastWriteWins(E: Block -> Block, D: Block -> Block, files: Files, writes: seq<Write>, name: string, k: int,
      room: nat)
    requires Undoes(E, D) && WholeBlocks(files) && LastWrite(writes, name, k)
    ensures var r := Written(E, files, writes);
      && (name in r ==> |r[name]| % 16 == 0)
      && Read(D, r, name, room) ==
         if k < 0 then Read(D, files, name, room)
         else if room < OutputSize(|writes[k].data|) then (BUFFER_TO_SMALL, [])
         else (OK, Padded(writes[k].data))
  {
    WrittenIs(E, files, writes, name, k);
    if k >= 0 {
      SizesAgree(|writes[k].data|);
      DecryptsEncrypted(E, D, Zeros(16), Padded(writes[k].data));
    }
  }

  /** Data can be read back at all if and only if they are no longer than 65520 bytes: beyond
      that the file is longer than any room that a caller can announce. */
  lemma ReadableUpTo65520(E: Block -> Block, D: Block -> Block, files: Files, name: string, data: seq<bv8>)
    requires Undoes(E, D) && |data| <= LENGTH_MAX
    ensures var r := files[name := Stored(E, data)];
      (exists room: nat :: room <= LENGTH_MAX && Read(D, r, name, room).0 == OK) <==> |data| <= 65520
  {
    var r := files[name := Stored(E, data)];
    SizesAgree(|data|);
    if |data| <= 65520 {
      assert Read(D, r, name, LENGTH_MAX).0 == OK;
    }
  }

  /** Data of 65521 bytes are written in whole, and no caller can read them back. */
  lemma UnreadableAt65521(E: Block -> Block, D: Block -> Block, name: string, room: nat)
    requires Undoes(E, D) && room <= LENGTH_MAX
    ensures var r := Written(E, map[], [Write(name, Zeros(65521))]);
      name in r && |r[name]| == 65536 && Read(D, r, name, room) == (BUFFER_TO_SMALL, [])
  {
    OneWrite(E, map[], Write(name, Zeros(65521)));
  }

  // ---------------------------------------------------------------------
  // The store as the source runs it.

  lemma EncryptedMore(E: Block -> Block, iv: Block, text: seq<bv8>, done: seq<bv8>)
    requires |text| % 16 == 0 && text != []
    ensures var c := E(Xor(text[..16], iv));
      done + Encrypted(E, iv, text) == (done + c) + Encrypted(E, c, text[16..])
  {
  }

  lemma DecryptedMore(D: Block -> Block, iv: Block, cipher: seq<bv8>, done: seq<bv8>)
    requires |cipher| % 16 == 0 && cipher != []
    ensures done + Decrypted(D, iv, cipher) == (done + Xor(D(cipher[..16]), iv)) + Decrypted(D, cipher[..16], cipher[16..])
  {
  }

  lemma TailBlock(data: seq<bv8>, i: nat)
    requires i < Blocks(|data|)
    ensures 16 * i + 16 <= |Padded(data)|
    ensures var rest := Padded(data)[16 * i..]; rest[..16] == BlockAt(data, i) && rest[16..] == Padded(data)[16 * (i + 1)..]
  {
    BlockOfPadded(data, i);
    hide Padded;
  }

  class Store {
    const E: Block -> Block
    const D: Block -> Block
    var files: Files

    ghost predicate Valid()
      reads this
    {
      Undoes(E, D) && WholeBlocks(files)
    }

    constructor (E: Block -> Block, D: Block -> Block)
      requires Undoes(E, D)
      ensures Valid() && files == map[] && this.E == E && this.D == D
    {
      this.E, this.D, files := E, D, map[];
    }

    /** The block that starts at 16 * i, filled up with zeros: memset and memcpy. */
    method InputBlock(data: array<bv8>, size: nat, i: nat) returns (block: Block)
      requires i < Blocks(size) && size <= data.Length
      ensures block == BlockAt(data[..size], i)
    {
      SizesAgree(size);
      if size - 16 * i < 16 {
        block := data[16 * i..size] + Zeros(16 - (size - 16 * i));
      } else {
        block := data[16 * i..16 * i + 16];
      }
    }

    method CopyBlock(out: array<bv8>, at: nat, block: Block)
      requires at + 16 <= out.Length
      modifies out
      ensures out[..at + 16] == old(out[..at]) + block
    {
      forall k | 0 <= k < 16 {
        out[at + k] := block[k];
      }
      assert out[..at + 16] == old(out[..at]) + block;
    }

    /** `aes_encrypt`. */
    method AesEncrypt(data: array<bv8>, size: nat, out: array<bv8>)
      requires size <= data.Length && OutputSize(size) <= out.Length && data != out
      modifies out
      ensures out[..OutputSize(size)] == Stored(E, data[..size])
    {
      hide Padded, OutputSize, BlockAt, Xor, Encrypted, Stored;
      SizesAgree(size);
      ghost var text := Padded(data[..size]);
      ghost var goal := Stored(E, data[..size]);
      StoredIs(E, data[..size]);
      var iv: Block := Zeros(16);
      var i := 0;
      while i < Blocks(size)
        invariant i <= Blocks(size) && out[..16 * i] + Encrypted(E, iv, text[16 * i..]) == goal
      {
        TailBlock(data[..size], i);
        EncryptedMore(E, iv, text[16 * i..], out[..16 * i]);
        var block := InputBlock(data, size, i);
        var output := E(Xor(block, iv));
        iv := output;
        CopyBlock(out, 16 * i, output);
        i := i + 1;
      }
      Nothing(E, D, iv, text[16 * i..]);
    }

    /** `aes_decrypt`, which fills up an incomplete last block just the same. */
    method AesDecrypt(data: array<bv8>, size: nat, out: array<bv8>)
      requires size <= data.Length && OutputSize(size) <= out.Length && data != out
      modifies out
      ensures OutputSize(size) % 16 == 0
      ensures out[..OutputSize(size)] == Decrypted(D, Zeros(16), Padded(data[..size]))
    {
      hide Padded, OutputSize, BlockAt, Xor, Decrypted;
      SizesAgree(size);
      ghost var cipher := Padded(data[..size]);
      ghost var goal := Decrypted(D, Zeros(16), cipher);
      var iv: Block := Zeros(16);
      var i := 0;
      while i < Blocks(size)
        invariant i <= Blocks(size) && out[..16 * i] + Decrypted(D, iv, cipher[16 * i..]) == goal
      {
        TailBlock(data[..size], i);
        DecryptedMore(D, iv, cipher[16 * i..], out[..16 * i]);
        var block := InputBlock(data, size, i);
        var output := Xor(D(block), iv);
        iv := block;
        CopyBlock(out, 16 * i, output);
        i := i + 1;
      }
      Nothing(E, D, iv, cipher[16 * i..]);
    }

    /** `TPwrite`; canOpen tells whether the file could be opened for writing. */
    method TPwrite(name: string, buffer: array<bv8>, len: nat, canOpen: bool) returns (status: Status)
      requires Valid() && len <= buffer.Length && len <= LENGTH_MAX
      modifies this
      ensures Valid() && status == if canOpen then OK else COULD_NOT_OPEN_FILE
      ensures files == if canOpen then Written(E, old(files), [Write(name, buffer[..len])]) else old(files)
    {
      var out := new bv8[OutputSize(len)];
      AesEncrypt(buffer, len, out);
      if !canOpen {
        return COULD_NOT_OPEN_FILE;
      }
      assert out[..] == out[..OutputSize(len)];
      SizesAgree(len);
      hide Stored;
      OneWrite(E, files, Write(name, buffer[..len]));
      files := files[name := out[..]];
      return OK;
    }

    /** `TPread`: room is the length that the caller announces; failed tells whether reading the
        file failed. The buffer is written only on success. */
    method TPread(name: string, buffer: array<bv8>, room: nat, failed: bool) returns (status: Status, len: nat)
      requires Valid() && room <= buffer.Length && room <= LENGTH_MAX
      modifies buffer
      ensures Valid() && (name in files ==> |files[name]| % 16 == 0)
      ensures var r := Read(D, files, name, room);
        if r.0 == OK && !failed then status == OK && len == |r.1| <= room && buffer[..len] == r.1
        else status == (if r.0 == OK then READ_FILE else r.0) && len == room && buffer[..] == old(buffer[..])
    {
      len := room;
      if name !in files {
        return FILE_NOT_EXIST, room;
      }
      var size := |files[name]|;
      if room < size {
        return BUFFER_TO_SMALL, room;
      }
      if failed {
        return READ_FILE, room;
      }
      var contents := files[name];
      var data := new bv8[size](i requires 0 <= i < size => contents[i]);
      assert data[..size] == contents;
      assert Padded(contents) == contents;
      AesDecrypt(data, size, buffer);
      return OK, size;
    }
  }

  lemma StoredIs(E: Block -> Block, data: seq<bv8>)
    ensures |Padded(data)| % 16 == 0 && Stored(E, data) == Encrypted(E, Zeros(16), Padded(data))
  {
  }

  lemma OneWrite(E: Block -> Block, files: Files, w: Write)
    ensures Written(E, files, [w]) == files[w.name := Stored(E, w.data)]
  {
    assert [w][..0] == [];
    assert Written(E, files, []) == files;
  }

  lemma Nothing(E: Block -> Block, D: Block -> Block, iv: Block, text: seq<bv8>)
    requires |text| % 16 == 0
    ensures text == [] ==> Encrypted(E, iv, text) == [] && Decrypted(D, iv, text) == []
  {
  }
}
