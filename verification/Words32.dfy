/** Operations on 32-bit machine words, and loads and stores in both byte orders. */
module Words32 {
  import opened Bytes

  function Add(x: bv32, y: bv32): bv32 { x + y }
  function Xor(x: bv32, y: bv32): bv32 { x ^ y }
  function And(x: bv32, y: bv32): bv32 { x & y }
  function Or(x: bv32, y: bv32): bv32 { x | y }
  function Not(x: bv32): bv32 { !x }

  function Shr(x: bv32, n: nat): bv32
    requires n <= 32
  {
    x >> n
  }

  function Shl(x: bv32, n: nat): bv32
    requires n <= 32
  {
    x << n
  }

  function Rotr(x: bv32, n: nat): bv32
    requires 0 < n < 32
  {
    Or(Shr(x, n), Shl(x, 32 - n))
  }

  function Rotl(x: bv32, n: nat): bv32
    requires 0 < n < 32
  {
    Or(Shl(x, n), Shr(x, 32 - n))
  }

  function LoadBig(p: seq<byte>, at: nat): bv32
    requires at + 4 <= |p|
  {
    ((p[at] as bv32) << 24) | ((p[at + 1] as bv32) << 16) | ((p[at + 2] as bv32) << 8) | (p[at + 3] as bv32)
  }

  function LoadLittle(p: seq<byte>, at: nat): bv32
    requires at + 4 <= |p|
  {
    (p[at] as bv32) | ((p[at + 1] as bv32) << 8) | ((p[at + 2] as bv32) << 16) | ((p[at + 3] as bv32) << 24)
  }

  function StoreBig(x: bv32): (s: seq<byte>)
    ensures |s| == 4
  {
    [((x >> 24) & 0xff) as bv8, ((x >> 16) & 0xff) as bv8, ((x >> 8) & 0xff) as bv8, (x & 0xff) as bv8]
  }

  function StoreLittle(x: bv32): (s: seq<byte>)
    ensures |s| == 4
  {
    [(x & 0xff) as bv8, ((x >> 8) & 0xff) as bv8, ((x >> 16) & 0xff) as bv8, ((x >> 24) & 0xff) as bv8]
  }

  /** What is stored is loaded again. */
  lemma StoreLoad(x: bv32)
    ensures LoadBig(StoreBig(x), 0) == x
    ensures LoadLittle(StoreLittle(x), 0) == x
  {
    Reassembled(x);
  }

  lemma Reassembled(x: bv32)
    ensures ((((x >> 24) & 0xff) as bv8 as bv32) << 24) | ((((x >> 16) & 0xff) as bv8 as bv32) << 16)
          | ((((x >> 8) & 0xff) as bv8 as bv32) << 8) | ((x & 0xff) as bv8 as bv32) == x
    ensures ((x & 0xff) as bv8 as bv32) | ((((x >> 8) & 0xff) as bv8 as bv32) << 8)
          | ((((x >> 16) & 0xff) as bv8 as bv32) << 16) | ((((x >> 24) & 0xff) as bv8 as bv32) << 24) == x
  {
  }
}
