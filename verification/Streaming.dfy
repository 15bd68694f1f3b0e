/** Streaming digests: bytes are buffered into blocks, full blocks are folded into the chaining value
    by a compression function, and the rest is padded with the message length at the end. */
module Streaming {
  import opened Arith
  import opened Bytes

  /** One digest algorithm: its block and length-field sizes, its initial chaining value, and how a
      block, a length in bytes and the final chaining value are encoded. */
  datatype Algorithm<!H(!new)> = Algorithm(
    blockBytes: nat, lengthBytes: nat, start: H,
    compress: (H, seq<byte>) -> H, encodeLength: u64 -> seq<byte>, output: H -> seq<byte>)
  {
    ghost predicate Valid() {
      && 0 < lengthBytes < blockBytes
      && forall n: u64 :: |encodeLength(n)| == lengthBytes
    }
  }

  // ----- What a digest is

  function Fold<H(!new)>(a: Algorithm<H>, h: H, data: seq<byte>): H
    requires a.blockBytes > 0
    decreases |data|
  {
    if |data| < a.blockBytes then h else Fold(a, a.compress(h, data[..a.blockBytes]), data[a.blockBytes..])
  }

  function ZerosAfter<H(!new)>(a: Algorithm<H>, length: nat): (k: nat)
    requires 0 < a.lengthBytes < a.blockBytes
    ensures k < a.blockBytes
    ensures (length + 1 + k + a.lengthBytes) % a.blockBytes == 0
  {
    var over := (length + 1 + a.lengthBytes) % a.blockBytes;
    if over == 0 then 0
    else
      FillUp(length + 1 + a.lengthBytes, a.blockBytes);
      a.blockBytes - over
  }

  /** A byte count in a 64-bit counter. */
  function Wrap64(n: nat): u64 {
    n % U64
  }

  lemma CounterAdds(m: nat, n: nat)
    ensures Wrap64(Wrap64(m) + n) == Wrap64(m + n)
  {
    SumWraps(m, n, U64);
  }

  /** The message, a one bit, as few zero bits as possible, and the length of the message. */
  function Padded<H(!new)>(a: Algorithm<H>, message: seq<byte>): (p: seq<byte>)
    requires 0 < a.lengthBytes < a.blockBytes
  {
    message + [0x80] + Zeros(ZerosAfter(a, |message|)) + a.encodeLength(Wrap64(|message|))
  }

  function Digest<H(!new)>(a: Algorithm<H>, message: seq<byte>): seq<byte>
    requires 0 < a.lengthBytes < a.blockBytes
  {
    a.output(Fold(a, a.start, Padded(a, message)))
  }

  lemma FillUp(n: nat, block: nat)
    requires block > 0 && n % block != 0
    ensures (n + (block - n % block)) % block == 0
  {
    var q := n / block;
    assert n == q * block + n % block;
    assert n + (block - n % block) == (q + 1) * block;
    DivisionUnique(q + 1, 0, block, (q + 1) * block);
  }

  /** A whole number of blocks. */
  predicate Blocks<H(!new)>(a: Algorithm<H>, s: seq<byte>) {
    a.blockBytes > 0 && |s| % a.blockBytes == 0
  }

  lemma BlockCount<H(!new)>(a: Algorithm<H>, s: seq<byte>)
    requires Blocks(a, s)
    ensures a.blockBytes > 0 && |s| == |s| / a.blockBytes * a.blockBytes
  {
  }

  lemma WrapKeepsRemainder(n: nat, block: nat)
    requires block > 0 && U64 % block == 0
    ensures Wrap64(n) % block == n % block
  {
    var k, m, rest := n / U64, U64 / block, Wrap64(n);
    assert U64 == m * block && n == k * U64 + rest;
    assert k * U64 == (k * m) * block by {
      Reassociate(k, m, block);
    }
    AddMultiple(rest, k * m, block);
  }

  lemma Reassociate(k: nat, m: nat, b: nat)
    ensures k * (m * b) == (k * m) * b
  {
  }

  // ----- Folding

  /** Whole blocks in front are folded first. */
  lemma {:induction false} FoldConcat<H(!new)>(a: Algorithm<H>, h: H, x: seq<byte>, y: seq<byte>)
    requires Blocks(a, x)
    ensures Fold(a, h, x + y) == Fold(a, Fold(a, h, x), y)
    decreases |x|
  {
    if |x| < a.blockBytes {
      assert x == [] by {
        DivisionUnique(0, |x|, a.blockBytes, |x|);
      }
      assert x + y == y;
    } else {
      var b := a.blockBytes;
      assert (x + y)[..b] == x[..b] && (x + y)[b..] == x[b..] + y;
      AddMultiple(|x| - b, 1, b);
      FoldConcat(a, a.compress(h, x[..b]), x[b..], y);
    }
  }

  lemma FoldOne<H(!new)>(a: Algorithm<H>, h: H, block: seq<byte>)
    requires a.blockBytes > 0 && |block| == a.blockBytes
    ensures Fold(a, h, block) == a.compress(h, block)
  {
    assert block[..a.blockBytes] == block;
    assert Fold(a, a.compress(h, block), block[a.blockBytes..]) == a.compress(h, block);
  }

  lemma FoldBlock<H(!new)>(a: Algorithm<H>, h: H, x: seq<byte>, block: seq<byte>)
    requires Blocks(a, x) && |block| == a.blockBytes
    ensures Fold(a, h, x + block) == a.compress(Fold(a, h, x), block)
    ensures Blocks(a, x + block)
  {
    FoldConcat(a, h, x, block);
    FoldOne(a, Fold(a, h, x), block);
    AddMultiple(|x|, 1, a.blockBytes);
  }

  // ----- Padding

  /** How many zeros follow, in terms of the bytes left over from whole blocks. */
  lemma ZerosFor<H(!new)>(a: Algorithm<H>, length: nat, used: nat)
    requires 0 < a.lengthBytes < a.blockBytes && used < a.blockBytes && used == length % a.blockBytes
    ensures var room := a.blockBytes - a.lengthBytes;
            ZerosAfter(a, length) == if used + 1 <= room then room - used - 1 else room + a.blockBytes - used - 1
  {
    var b, l, q := a.blockBytes, a.lengthBytes, length / a.blockBytes;
    assert length == q * b + used;
    if used + 1 + l < b {
      DivisionUnique(q, used + 1 + l, b, length + 1 + l);
    } else {
      assert (q + 1) * b == q * b + b;
      DivisionUnique(q + 1, used + 1 + l - b, b, length + 1 + l);
    }
  }

  /** The padded message ends in one block, or in two when the length does not fit behind the rest. */
  lemma PaddedBlocks<H(!new)>(a: Algorithm<H>, front: seq<byte>, rest: seq<byte>)
    requires a.Valid() && Blocks(a, front) && |rest| < a.blockBytes
    ensures var m, room := front + rest, a.blockBytes - a.lengthBytes;
            var code := a.encodeLength(Wrap64(|m|));
            Padded(a, m) ==
              if |rest| + 1 <= room then front + (rest + [0x80] + Zeros(room - |rest| - 1) + code)
              else front + (rest + [0x80] + Zeros(a.blockBytes - |rest| - 1)) + (Zeros(room) + code)
  {
    var b, room, m := a.blockBytes, a.blockBytes - a.lengthBytes, front + rest;
    var q := |front| / b;
    assert |front| == q * b + |front| % b;
    DivisionUnique(q, |rest|, b, |m|);
    ZerosFor(a, |m|, |rest|);
    if |rest| + 1 > room {
      assert Zeros(room + b - |rest| - 1) == Zeros(b - |rest| - 1) + Zeros(room);
    }
  }

  /** Padding is injective as long as the length field determines the length. */
  lemma PaddingInjective<H(!new)>(a: Algorithm<H>, m: seq<byte>, n: seq<byte>)
    requires a.Valid() && Padded(a, m) == Padded(a, n)
    requires a.encodeLength(Wrap64(|m|)) == a.encodeLength(Wrap64(|n|)) ==> |m| == |n|
    ensures m == n
  {
    var p, r := Padded(a, m), Padded(a, n);
    var at := |p| - a.lengthBytes;
    assert p[at..] == a.encodeLength(Wrap64(|m|)) && r[at..] == a.encodeLength(Wrap64(|n|));
    assert m == p[..|m|] && n == r[..|n|];
  }

  // ----- The streaming context

  class Context<H(!new)> {
    const algorithm: Algorithm<H>
    var h: H
    var total: u64
    var used: nat
    const block: array<byte>
    ghost var message: seq<byte>

    /** The buffered bytes are the end of the message; everything before them has been folded. */
    ghost predicate Buffered()
      reads this, block
    {
      && algorithm.Valid() && block.Length == algorithm.blockBytes
      && used < algorithm.blockBytes && used <= |message|
      && Blocks(algorithm, message[..|message| - used])
      && h == Fold(algorithm, algorithm.start, message[..|message| - used])
      && block[..used] == message[|message| - used..]
    }

    ghost predicate Valid()
      reads this, block
    {
      Buffered() && total == Wrap64(|message|)
    }

    constructor (a: Algorithm<H>)
      requires a.Valid()
      ensures Valid() && fresh(block) && algorithm == a && message == []
    {
      algorithm, h, total, used, message := a, a.start, 0, 0, [];
      block := new byte[a.blockBytes];
      new;
      DivisionUnique(0, 0, a.blockBytes, 0);
    }

    /** The number of buffered bytes is the total length modulo the block size; the wrapped counter
        shows it too when the block size divides 2^64. */
    lemma Remainder()
      requires Valid()
      ensures used == |message| % algorithm.blockBytes
      ensures U64 % algorithm.blockBytes == 0 ==> used == total % algorithm.blockBytes
    {
      hide Fold, Blocks;
      var b, front := algorithm.blockBytes, message[..|message| - used];
      BlockCount(algorithm, front);
      DivisionUnique(|front| / b, used, b, |message|);
      if U64 % b == 0 {
        WrapKeepsRemainder(|message|, b);
      }
    }

    method StoreAt(at: nat, part: seq<byte>)
      requires at + |part| <= block.Length
      modifies block
      ensures block[..at] == old(block[..at]) && block[at..at + |part|] == part
      ensures block[at + |part|..] == old(block[at + |part|..])
    {
      for i := 0 to |part|
        invariant block[..at] == old(block[..at]) && block[at + |part|..] == old(block[at + |part|..])
        invariant forall k :: 0 <= k < i ==> block[at + k] == part[k]
      {
        block[at + i] := part[i];
      }
    }

    /** Folds one block behind what has been folded. */
    method FoldNext(bytes: seq<byte>, ghost front: seq<byte>)
      requires algorithm.blockBytes > 0 && |bytes| == algorithm.blockBytes
      requires Blocks(algorithm, front) && h == Fold(algorithm, algorithm.start, front)
      modifies this`h
      ensures Blocks(algorithm, front + bytes) && h == Fold(algorithm, algorithm.start, front + bytes)
    {
      hide Blocks, Fold, Wrap64;
      FoldBlock(algorithm, algorithm.start, front, bytes);
      h := algorithm.compress(h, bytes);
    }

    /** Copies a part that fits behind the buffered bytes, and folds the block when it is full. */
    method Absorb(part: seq<byte>)
      requires Buffered() && |part| <= algorithm.blockBytes - used
      modifies this`h, this`used, this`message, block
      ensures Buffered() && message == old(message) + part && used < algorithm.blockBytes
    {
      hide Blocks, Fold, Wrap64;
      ghost var front, rest := message[..|message| - used], block[..used];
      StoreAt(used, part);
      used := used + |part|;
      message := message + part;
      assert block[..used] == rest + part;
      assert message == front + (rest + part);
      if used == algorithm.blockBytes {
        assert block[..] == block[..used];
        FoldNext(block[..], front);
        used := 0;
        assert message[..|message|] == message == front + block[..];
      } else {
        assert message[..|message| - used] == front;
      }
    }

    /** Folds a whole block straight from the input while nothing is buffered. */
    method Pass(whole: seq<byte>)
      requires Buffered() && used == 0 && |whole| == algorithm.blockBytes
      modifies this`h, this`message
      ensures Buffered() && message == old(message) + whole && used < algorithm.blockBytes
    {
      hide Blocks, Fold, Wrap64;
      assert message[..|message| - used] == message;
      FoldNext(whole, message);
      message := message + whole;
      assert message[..|message| - used] == message;
    }

    /** One round of the update loop: a whole block past the buffer, or as much as the buffer takes. */
    method TakeSome(data: seq<byte>, i: nat) returns (j: nat)
      requires Buffered() && i < |data|
      modifies this`h, this`used, this`message, block
      ensures Buffered() && i < j <= |data| && message == old(message) + data[i..j]
    {
      hide Blocks, Fold, Wrap64;
      var room := algorithm.blockBytes - used;
      j := if room > |data| - i then |data| else i + room;
      if used == 0 && |data| - i >= algorithm.blockBytes {
        Pass(data[i..j]);
      } else {
        Absorb(data[i..j]);
      }
    }

    method Update(data: seq<byte>)
      requires Valid()
      modifies this, block
      ensures Valid() && message == old(message) + data
    {
      hide Blocks, Fold, Wrap64;
      ghost var start := message;
      CounterAdds(|message|, |data|);
      total := Wrap64(total + |data|);
      assert Buffered();
      hide Buffered;
      var i := 0;
      while i < |data|
        invariant i <= |data| && Buffered() && message == start + data[..i]
        invariant total == Wrap64(|start| + |data|)
        decreases |data| - i
      {
        var j := TakeSome(data, i);
        assert data[..i] + data[i..j] == data[..j];
        i := j;
      }
      assert data[..|data|] == data;
    }

    method FillZeros(from: nat, to: nat)
      requires from <= to <= block.Length
      modifies block
      ensures block[..from] == old(block[..from]) && block[from..to] == Zeros(to - from)
    {
      for i := from to to
        invariant block[..from] == old(block[..from])
        invariant forall k :: from <= k < i ==> block[k] == 0
      {
        block[i] := 0;
      }
    }

    /** Appends the one bit; when the length no longer fits, fills up and folds this block. */
    method BeginPadding() returns (ghost front: seq<byte>)
      requires Valid()
      modifies this`h, this`used, block
      ensures algorithm.Valid() && block.Length == algorithm.blockBytes
      ensures used <= algorithm.blockBytes - algorithm.lengthBytes
      ensures Blocks(algorithm, front) && h == Fold(algorithm, algorithm.start, front)
      ensures Padded(algorithm, message)
           == front + (block[..used] + Zeros(algorithm.blockBytes - algorithm.lengthBytes - used) + algorithm.encodeLength(total))
    {
      hide Blocks, Fold, Wrap64, Zeros, Padded, ZerosAfter;
      var b, room := algorithm.blockBytes, algorithm.blockBytes - algorithm.lengthBytes;
      ghost var rest := block[..used];
      front := message[..|message| - used];
      assert message == front + rest;
      PaddedBlocks(algorithm, front, rest);
      block[used] := 0x80;
      used := used + 1;
      assert block[..used] == rest + [0x80];
      if used > room {
        FoldFirst(rest + [0x80], front);
        front := front + (rest + [0x80] + Zeros(b - |rest| - 1));
        assert block[..0] + Zeros(room) == Zeros(room);
      }
    }

    method FoldFirst(ghost begun: seq<byte>, ghost front: seq<byte>)
      requires 0 < algorithm.blockBytes == block.Length && used <= block.Length && block[..used] == begun
      requires Blocks(algorithm, front) && h == Fold(algorithm, algorithm.start, front)
      modifies this`h, this`used, block
      ensures used == 0
      ensures var f := front + (begun + Zeros(algorithm.blockBytes - |begun|));
              Blocks(algorithm, f) && h == Fold(algorithm, algorithm.start, f)
    {
      hide Blocks, Fold, Wrap64;
      FillZeros(used, block.Length);
      assert block[..] == begun + Zeros(algorithm.blockBytes - |begun|);
      FoldNext(block[..], front);
      used := 0;
    }

    /** Pads, folds what is left and encodes the chaining value; the context is used up. */
    method Final() returns (out: seq<byte>)
      requires Valid()
      modifies this, block
      ensures out == Digest(algorithm, old(message))
    {
      hide Blocks, Fold, Wrap64;
      var room, code := algorithm.blockBytes - algorithm.lengthBytes, algorithm.encodeLength(total);
      ghost var front := BeginPadding();
      ghost var begun := block[..used];
      FillZeros(used, room);
      assert block[..room] == begun + Zeros(room - used);
      StoreAt(room, code);
      assert block[..] == begun + Zeros(room - used) + code;
      FoldNext(block[..], front);
      out := algorithm.output(h);
    }
  }

  // ----- Chunking

  function Flatten(chunks: seq<seq<byte>>): seq<byte> {
    if chunks == [] then [] else Flatten(chunks[..|chunks| - 1]) + chunks[|chunks| - 1]
  }

  /** However a message is cut into update calls, the result is the digest of the whole message. */
  method DigestChunks<H(!new)>(a: Algorithm<H>, chunks: seq<seq<byte>>) returns (out: seq<byte>)
    requires a.Valid()
    ensures out == Digest(a, Flatten(chunks))
  {
    var context := new Context(a);
    for i := 0 to |chunks|
      invariant context.Valid() && context.algorithm == a && fresh(context) && fresh(context.block)
      invariant context.message == Flatten(chunks[..i])
    {
      context.Update(chunks[i]);
      assert chunks[..i + 1][..i] == chunks[..i];
    }
    assert chunks[..|chunks|] == chunks;
    out := context.Final();
  }

  method DigestOnce<H(!new)>(a: Algorithm<H>, message: seq<byte>) returns (out: seq<byte>)
    requires a.Valid()
    ensures out == Digest(a, message)
  {
    out := DigestChunks(a, [message]);
    assert [message][..0] == [];
    assert Flatten([message]) == Flatten([]) + message == message;
  }
}
