/**
  The streaming SHA-256 of the build cache, against the one-shot definition of sections 5.1.1, 6.2.1 and
  6.2.2 of FIPS 180-4.
 */
module Sha256 {

  type Byte = bv8
  type Word = bv32

  // ----- the one-shot definition -----

  /** The constants of section 4.2.2. */
  const K: seq<Word> := [
    0x428a2f98, 0x71374491, 0xb5c0fbcf, 0xe9b5dba5, 0x3956c25b, 0x59f111f1, 0x923f82a4, 0xab1c5ed5,
    0xd807aa98, 0x12835b01, 0x243185be, 0x550c7dc3, 0x72be5d74, 0x80deb1fe, 0x9bdc06a7, 0xc19bf174,
    0xe49b69c1, 0xefbe4786, 0x0fc19dc6, 0x240ca1cc, 0x2de92c6f, 0x4a7484aa, 0x5cb0a9dc, 0x76f988da,
    0x983e5152, 0xa831c66d, 0xb00327c8, 0xbf597fc7, 0xc6e00bf3, 0xd5a79147, 0x06ca6351, 0x14292967,
    0x27b70a85, 0x2e1b2138, 0x4d2c6dfc, 0x53380d13, 0x650a7354, 0x766a0abb, 0x81c2c92e, 0x92722c85,
    0xa2bfe8a1, 0xa81a664b, 0xc24b8b70, 0xc76c51a3, 0xd192e819, 0xd6990624, 0xf40e3585, 0x106aa070,
    0x19a4c116, 0x1e376c08, 0x2748774c, 0x34b0bcb5, 0x391c0cb3, 0x4ed8aa4a, 0x5b9cca4f, 0x682e6ff3,
    0x748f82ee, 0x78a5636f, 0x84c87814, 0x8cc70208, 0x90befffa, 0xa4506ceb, 0xbef9a3f7, 0xc67178f2]

  /** The initial hash value of section 5.3.3. */
  const INITIAL: seq<Word> := [
    0x6a09e667, 0xbb67ae85, 0x3c6ef372, 0xa54ff53a, 0x510e527f, 0x9b05688c, 0x1f83d9ab, 0x5be0cd19]

  // The functions of section 4.1.2.
  function Ch(x: Word, y: Word, z: Word): Word { (x & y) ^ (!x & z) }
  function Maj(x: Word, y: Word, z: Word): Word { (x & y) ^ (x & z) ^ (y & z) }
  function BigSigma0(x: Word): Word { x.RotateRight(2) ^ x.RotateRight(13) ^ x.RotateRight(22) }
  function BigSigma1(x: Word): Word { x.RotateRight(6) ^ x.RotateRight(11) ^ x.RotateRight(25) }
  function SmallSigma0(x: Word): Word { x.RotateRight(7) ^ x.RotateRight(18) ^ (x >> 3) }
  function SmallSigma1(x: Word): Word { x.RotateRight(17) ^ x.RotateRight(19) ^ (x >> 10) }

  function FromBytes(a: Byte, b: Byte, c: Byte, d: Byte): Word {
    ((a as Word) << 24) | ((b as Word) << 16) | ((c as Word) << 8) | (d as Word)
  }

  function Sum(a: Word, b: Word, c: Word, d: Word): Word {
    a + b + c + d
  }

  lemma SumReversed(a: Word, b: Word, c: Word, d: Word)
    ensures Sum(a, b, c, d) == Sum(d, c, b, a)
  {
  }

  /** The message schedule of a block. */
  function Schedule(block: seq<Byte>, t: nat): Word
    requires |block| == 64 && t < 64
  {
    if t < 16 then FromBytes(block[4 * t], block[4 * t + 1], block[4 * t + 2], block[4 * t + 3])
    else Sum(SmallSigma1(Schedule(block, t - 2)), Schedule(block, t - 7), SmallSigma0(Schedule(block, t - 15)),
             Schedule(block, t - 16))
  }

  datatype Working = Working(a: Word, b: Word, c: Word, d: Word, e: Word, f: Word, g: Word, h: Word)

  /** Addition modulo 2^32. */
  function Plus(a: Word, b: Word): Word { a + b }

  function T1(h: Word, e: Word, f: Word, g: Word, k: Word, w: Word): Word { h + BigSigma1(e) + Ch(e, f, g) + k + w }

  function T2(a: Word, b: Word, c: Word): Word { BigSigma0(a) + Maj(a, b, c) }

  function Round(v: Working, k: Word, w: Word): Working {
    var t1 := T1(v.h, v.e, v.f, v.g, k, w);
    var t2 := T2(v.a, v.b, v.c);
    Working(Plus(t1, t2), v.a, v.b, v.c, Plus(v.d, t1), v.e, v.f, v.g)
  }

  function Rounds(block: seq<Byte>, v: Working, t: nat): Working
    requires |block| == 64 && t <= 64
  {
    if t == 0 then v else Round(Rounds(block, v, t - 1), K[t - 1], Schedule(block, t - 1))
  }

  function Load(state: seq<Word>): Working
    requires |state| == 8
  {
    Working(state[0], state[1], state[2], state[3], state[4], state[5], state[6], state[7])
  }

  function Values(v: Working): (r: seq<Word>)
    ensures |r| == 8
  {
    [v.a, v.b, v.c, v.d, v.e, v.f, v.g, v.h]
  }

  /** The hash value after one more block. */
  function Compress(state: seq<Word>, block: seq<Byte>): (r: seq<Word>)
    requires |state| == 8 && |block| == 64
    ensures |r| == 8
  {
    Totals(state, Values(Rounds(block, Load(state), 64)))
  }

  function Totals(state: seq<Word>, values: seq<Word>): (r: seq<Word>)
    requires |state| == |values| == 8
    ensures |r| == 8 && forall k | 0 <= k < 8 :: r[k] == Plus(state[k], values[k])
  {
    seq(8, k requires 0 <= k < 8 => Plus(state[k], values[k]))
  }

  /** The hash value after the first `n` blocks of `data`. */
  function Fold(data: seq<Byte>, n: nat): (r: seq<Word>)
    requires 64 * n <= |data|
    ensures |r| == 8
  {
    if n == 0 then INITIAL else Compress(Fold(data, n - 1), data[64 * (n - 1)..64 * n])
  }

  function Zeros(n: nat): (r: seq<Byte>)
    ensures |r| == n
  {
    seq(n, _ => 0 as Byte)
  }

  /** The byte `k` of a number of eight bytes, the most significant first. */
  function LengthByte(bits: nat, k: nat): Byte
    requires k < 8
  {
    (bits / Power(7 - k) % 256) as Byte
  }

  function Power(k: nat): (r: nat)
    ensures r > 0
  {
    if k == 0 then 1 else 256 * Power(k - 1)
  }

  function LengthBytes(bits: nat): (r: seq<Byte>)
    ensures |r| == 8
  {
    seq(8, k requires 0 <= k < 8 => LengthByte(bits, k))
  }

  /** The number of zero bytes: the least that leaves room for the length at the end of a block. */
  function ZeroCount(n: nat): (z: nat)
    ensures z < 64 && (n + 1 + z) % 64 == 56
  {
    (119 - n % 64) % 64
  }

  function Pad(message: seq<Byte>): (r: seq<Byte>)
    ensures |r| % 64 == 0
  {
    message + [0x80 as Byte] + Zeros(ZeroCount(|message|)) + LengthBytes(8 * |message|)
  }

  function WordByte(w: Word, k: nat): Byte
    requires k < 4
  {
    ((w >> (24 - 8 * k)) & 0xff) as Byte
  }

  function Bytes(state: seq<Word>): (r: seq<Byte>)
    requires |state| == 8
    ensures |r| == 32
  {
    seq(32, k requires 0 <= k < 32 => WordByte(state[k / 4], k % 4))
  }

  function Digest(message: seq<Byte>): (r: seq<Byte>)
    ensures |r| == 32
  {
    var padded := Pad(message);
    Bytes(Fold(padded, |padded| / 64))
  }

  // ----- folding -----

  /** Only the blocks that are folded matter. */
  lemma {:induction false} FoldPrefix(data: seq<Byte>, more: seq<Byte>, n: nat)
    requires 64 * n <= |data|
    ensures Fold(data + more, n) == Fold(data, n)
  {
    hide Compress;
    if n > 0 {
      FoldPrefix(data, more, n - 1);
      assert (data + more)[64 * (n - 1)..64 * n] == data[64 * (n - 1)..64 * n];
    }
  }

  lemma FoldBlock(data: seq<Byte>, block: seq<Byte>, n: nat)
    requires |data| == 64 * n && |block| == 64
    ensures Fold(data + block, n + 1) == Compress(Fold(data, n), block)
  {
    hide Compress;
    FoldPrefix(data, block, n);
    assert (data + block)[64 * n..64 * (n + 1)] == block;
  }

  // ----- the stream -----

  class Stream {
    const state: array<Word>
    const buffer: array<Byte>
    var buffered: nat
    var length: nat
    /** Everything that was put in, and how many whole blocks it has. */
    ghost var data: seq<Byte>
    ghost var blocks: nat

    /** The whole blocks are folded into the state, the rest waits in the buffer. */
    ghost predicate Valid()
      reads this, state, buffer
    {
      && state.Length == 8 && buffer.Length == 64
      && buffered < 64 && |data| == 64 * blocks + buffered
      && state[..] == Fold(data, blocks)
      && buffer[..buffered] == data[64 * blocks..]
      && length == Wrap(|data|)
    }

    constructor ()
      ensures Valid() && data == [] && fresh(state) && fresh(buffer)
    {
      state := new Word[8](k requires 0 <= k < 8 => INITIAL[k]);
      buffer := new Byte[64](_ => 0);
      buffered, length, data, blocks := 0, 0, [], 0;
      new;
      assert state[..] == INITIAL;
    }

    /** One block into the state. */
    method CompressBlock(block: seq<Byte>)
      requires state.Length == 8 && |block| == 64
      modifies state
      ensures state[..] == Compress(old(state[..]), block)
    {
      hide Round, Schedule, Rounds, Plus, Values, Load;
      var words := Expand(block);
      var v := Mix(block, words, Load(state[..]));
      var values := Values(v);
      for k := 0 to 8
        invariant forall i | 0 <= i < 8 :: state[i] == if i < k then Plus(old(state[i]), values[i]) else old(state[i])
      {
        state[k] := Plus(state[k], values[k]);
      }
      assert state[..] == Totals(old(state[..]), values);
    }

    /** Whole blocks straight from the input: what is left fits into the buffer. */
    method Absorb(
      bytes: seq<Byte>, ghost whole: seq<Byte>, ghost n: nat)
      returns (rest: seq<Byte>, ghost whole': seq<Byte>, ghost n': nat)
      requires state.Length == 8 && |whole| == 64 * n && state[..] == Fold(whole, n)
      modifies state
      ensures |rest| < 64 && whole' + rest == whole + bytes
      ensures |whole'| == 64 * n' && state[..] == Fold(whole', n')
    {
      hide Compress, Fold;
      rest, whole', n' := bytes, whole, n;
      while |rest| >= 64
        invariant whole' + rest == whole + bytes
        invariant |whole'| == 64 * n' && state[..] == Fold(whole', n')
      {
        FoldBlock(whole', rest[..64], n');
        CompressBlock(rest[..64]);
        assert whole' + rest == (whole' + rest[..64]) + rest[64..];
        whole', n' := whole' + rest[..64], n' + 1;
        rest := rest[64..];
      }
    }

    /** Tops the buffer up, and compresses it when it is full. */
    method TopUp(bytes: seq<Byte>) returns (rest: seq<Byte>)
      requires Valid() && buffered != 0
      modifies this`buffered, this`length, this`data, this`blocks, state, buffer
      ensures Valid() && data + rest == old(data) + bytes && (rest == [] || buffered == 0)
    {
      hide Compress, Fold, Wrap;
      var count := if |bytes| < 64 - buffered then |bytes| else 64 - buffered;
      var at := buffered;
      ghost var whole, was := data[..64 * blocks], buffer[..at];
      FoldSame(data, whole, blocks);
      assert data == whole + was;
      forall k | 0 <= k < count { buffer[at + k] := bytes[k]; }
      assert buffer[..at + count] == was + bytes[..count];
      rest := bytes[count..];
      assert bytes == bytes[..count] + rest;
      assert (data + bytes[..count]) + rest == data + bytes;
      data := data + bytes[..count];
      length := (length + count) % 0x1_0000_0000_0000_0000;
      WrapAdd(|data| - count, count);
      buffered := at + count;
      assert data == whole + buffer[..buffered];
      if buffered == 64 {
        var block := buffer[..];
        assert block == buffer[..buffered] && data == whole + block && |whole| == 64 * blocks;
        assert state[..] == Fold(whole, blocks);
        FoldBlock(whole, block, blocks);
        CompressBlock(block);
        blocks, buffered := blocks + 1, 0;
        assert |data| == 64 * blocks && data[64 * blocks..] == [];
        assert state[..] == Fold(data, blocks);
      } else {
        assert data[64 * blocks..] == buffer[..buffered];
        FoldPrefix(whole, buffer[..buffered], blocks);
        assert state[..] == Fold(data, blocks);
      }
      assert length == Wrap(|data|);
      assert |data| == 64 * blocks + buffered;
    }

    /** Puts more bytes in. */
    method Update(bytes: seq<Byte>)
      requires Valid()
      modifies this`buffered, this`length, this`data, this`blocks, state, buffer
      ensures Valid() && data == old(data) + bytes
    {
      hide Compress, Fold, Wrap;
      var rest := bytes;
      if buffered != 0 {
        rest := TopUp(rest);
      }
      if rest != [] || buffered == 0 {
        ghost var whole', n';
        ghost var before := data;
        length := (length + |rest|) % 0x1_0000_0000_0000_0000;
        WrapAdd(|data|, |rest|);
        data := data + rest;
        rest, whole', n' := Absorb(rest, before, blocks);
        forall k | 0 <= k < |rest| { buffer[k] := rest[k]; }
        buffered, blocks := |rest|, n';
        assert buffer[..buffered] == rest;
        FoldPrefix(whole', rest, n');
      }
    }

    /** Pads what was put in, and gives the digest. Nothing is left over. */
    method Finalize() returns (output: seq<Byte>)
      requires Valid()
      modifies this`buffered, this`length, this`data, this`blocks, state, buffer
      ensures buffered == 0
      ensures |old(data)| < 0x2000_0000_0000_0000 ==> output == Digest(old(data))
    {
      hide Fold, LengthBytes, Zeros, ZeroCount, Wrap, Bytes;
      ghost var message := data;
      var bits := length * 8 % 0x1_0000_0000_0000_0000;
      Bits(|message|, length, bits);
      Update([0x80 as Byte]);
      var padding := if buffered <= 56 then 56 - buffered else 120 - buffered;
      PaddingIs(|message|, buffered, blocks);
      Update(Zeros(padding));
      Update(LengthBytes(bits));
      LastBlock(|message|, padding, buffered, blocks);
      output := Bytes(state[..]);
      if |message| < 0x2000_0000_0000_0000 {
        Padded(message, data, blocks);
      }
    }
  }

  /** The length counter wraps around. */
  function Wrap(n: nat): nat {
    n % 0x1_0000_0000_0000_0000
  }

  lemma WrapAdd(a: nat, b: nat)
    ensures (Wrap(a) + b) % 0x1_0000_0000_0000_0000 == Wrap(a + b)
  {
  }

  lemma Bits(n: nat, length: nat, bits: nat)
    requires length == Wrap(n) && bits == length * 8 % 0x1_0000_0000_0000_0000
    ensures n < 0x2000_0000_0000_0000 ==> bits == 8 * n
  {
  }

  lemma Padded(message: seq<Byte>, data: seq<Byte>, n: nat)
    requires data == Pad(message) && |data| == 64 * n
    ensures Digest(message) == Bytes(Fold(data, n))
  {
    assert |data| / 64 == n;
  }

  lemma FoldSame(data: seq<Byte>, whole: seq<Byte>, n: nat)
    requires 64 * n <= |data| && whole == data[..64 * n]
    ensures Fold(data, n) == Fold(whole, n)
  {
    assert data == whole + data[64 * n..];
    FoldPrefix(whole, data[64 * n..], n);
  }

  lemma PaddingIs(n: nat, buffered: nat, blocks: nat)
    requires n + 1 == 64 * blocks + buffered && buffered < 64
    ensures ZeroCount(n) == if buffered <= 56 then 56 - buffered else 120 - buffered
  {
  }

  lemma LastBlock(n: nat, padding: nat, buffered: nat, blocks: nat)
    requires padding == ZeroCount(n) && n + 1 + padding + 8 == 64 * blocks + buffered && buffered < 64
    ensures buffered == 0
  {
  }

  /** The schedule, each word from earlier ones. */
  method Expand(block: seq<Byte>) returns (words: seq<Word>)
    requires |block| == 64
    ensures |words| == 64 && forall k | 0 <= k < 64 :: words[k] == Schedule(block, k)
  {
    hide SmallSigma0, SmallSigma1, FromBytes, Sum;
    var w := new Word[64](_ => 0);
    for t := 0 to 16
      invariant forall k | 0 <= k < t :: w[k] == Schedule(block, k)
    {
      w[t] := FromBytes(block[4 * t], block[4 * t + 1], block[4 * t + 2], block[4 * t + 3]);
    }
    for t := 16 to 64
      invariant forall k | 0 <= k < t :: w[k] == Schedule(block, k)
    {
      var low := SmallSigma0(w[t - 15]);
      var high := SmallSigma1(w[t - 2]);
      SumReversed(w[t - 16], low, w[t - 7], high);
      w[t] := Sum(w[t - 16], low, w[t - 7], high);
    }
    words := w[..];
  }

  /** The rounds, on eight variables that move up by one each time. */
  method Mix(block: seq<Byte>, words: seq<Word>, start: Working) returns (v: Working)
    requires |block| == 64 && |words| == 64 && forall k | 0 <= k < 64 :: words[k] == Schedule(block, k)
    ensures v == Rounds(block, start, 64)
  {
    hide Schedule, T1, T2, Plus;
    var a, b, c, d := start.a, start.b, start.c, start.d;
    var e, f, g, h := start.e, start.f, start.g, start.h;
    for t := 0 to 64
      invariant Working(a, b, c, d, e, f, g, h) == Rounds(block, start, t)
    {
      var first := T1(h, e, f, g, K[t], words[t]);
      var second := T2(a, b, c);
      h := g;
      g := f;
      f := e;
      e := Plus(d, first);
      d := c;
      c := b;
      b := a;
      a := Plus(first, second);
    }
    v := Working(a, b, c, d, e, f, g, h);
  }

  // ----- any split into updates -----

  function Joined(parts: seq<seq<Byte>>): seq<Byte> {
    if parts == [] then [] else Joined(parts[..|parts| - 1]) + parts[|parts| - 1]
  }

  /** However a message is split, the stream gives its one-shot digest. */
  method HashParts(parts: seq<seq<Byte>>) returns (digest: seq<Byte>)
    ensures |Joined(parts)| < 0x2000_0000_0000_0000 ==> digest == Digest(Joined(parts))
  {
    hide Digest;
    var stream := new Stream();
    assert parts[..0] == [];
    for k := 0 to |parts|
      invariant stream.Valid() && stream.data == Joined(parts[..k])
      invariant fresh(stream) && fresh(stream.state) && fresh(stream.buffer)
    {
      assert parts[..k + 1][..k] == parts[..k];
      stream.Update(parts[k]);
    }
    assert parts[..|parts|] == parts;
    digest := stream.Finalize();
  }
}
