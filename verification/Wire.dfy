/** Bytes, the 32-bit integers of the wire format, and writing into a buffer of fixed size. */
module Wire {
  type byte = x: int | 0 <= x < 256

  type Bytes = seq<byte>

  const LIMIT: int := 0x8000_0000

  /** The four bytes of an integer, the most significant first. A value that does not fit is
      truncated to its lowest 32 bits. */
  function Int32(n: int): (b: Bytes)
    ensures |b| == 4
  {
    [(n / 0x100_0000) % 256, (n / 0x1_0000) % 256, (n / 0x100) % 256, n % 256]
  }

  function Signed(u: int): int { if u < LIMIT then u else u - 2 * LIMIT }

  /** Four bytes read as a signed integer. */
  function ToInt32(b: Bytes): (n: int)
    requires |b| == 4
    ensures -LIMIT <= n < LIMIT
  {
    Signed(((b[0] as int * 0x100 + b[1] as int) * 0x100 + b[2] as int) * 0x100 + b[3] as int)
  }

  /** The number four bytes stand for, the first counting most. */
  function BigEndian(b: Bytes): (n: int)
    requires |b| == 4
    ensures 0 <= n < 2 * LIMIT
  {
    b[0] as int * 0x100_0000 + b[1] as int * 0x1_0000 + b[2] as int * 0x100 + b[3] as int
  }

  /** On the wire an integer is its lowest 32 bits, the most significant byte first, and four bytes are
      read as the signed number with these bits. */
  lemma BytesAreBigEndian(n: int, b: Bytes)
    requires |b| == 4
    ensures BigEndian(Int32(n)) == n % (2 * LIMIT)
    ensures (ToInt32(b) - BigEndian(b)) % (2 * LIMIT) == 0
    ensures ToInt32(b) < 0 <==> b[0] >= 128
  {
    assert n / 0x1_0000 == (n / 0x100) / 0x100;
    assert n / 0x100_0000 == (n / 0x1_0000) / 0x100;
    assert n / (2 * LIMIT) == (n / 0x100_0000) / 0x100;
  }

  /** Reading back what was written gives the number modulo 2^32, hence the number if it fits. */
  lemma Int32RoundTrip(n: int)
    ensures (ToInt32(Int32(n)) - n) % (2 * LIMIT) == 0
    ensures -LIMIT <= n < LIMIT ==> ToInt32(Int32(n)) == n
  {
    var d := n / (2 * LIMIT);
    assert n / 0x1_0000 == (n / 0x100) / 0x100;
    assert n / 0x100_0000 == (n / 0x1_0000) / 0x100;
    assert d == (n / 0x100_0000) / 0x100;
    assert n - d * (2 * LIMIT) ==
      (((n / 0x100_0000) % 256 * 0x100 + (n / 0x1_0000) % 256) * 0x100 + (n / 0x100) % 256) * 0x100 + n % 256;
    assert ToInt32(Int32(n)) == Signed(n - d * (2 * LIMIT));
  }

  function WithLength(b: Bytes): Bytes { Int32(|b|) + b }

  method EncodeInt32(buf: array<byte>, pos: nat, value: int) returns (next: nat)
    requires pos + 4 <= buf.Length
    modifies buf
    ensures next == pos + 4
    ensures buf[..] == old(buf[..pos]) + Int32(value) + old(buf[pos + 4..])
    ensures buf[pos] == value / 0x100_0000 % 256 && buf[pos + 1] == value / 0x1_0000 % 256
    ensures buf[pos + 2] == value / 0x100 % 256 && buf[pos + 3] == value % 256
  {
    var b := Int32(value);
    buf[pos], buf[pos + 1], buf[pos + 2], buf[pos + 3] := b[0], b[1], b[2], b[3];
    next := pos + 4;
  }

  method Copy(buf: array<byte>, pos: nat, data: Bytes) returns (next: nat)
    requires pos + |data| <= buf.Length
    modifies buf
    ensures next == pos + |data|
    ensures buf[..] == old(buf[..pos]) + data + old(buf[pos + |data|..])
  {
    for i := 0 to |data|
      invariant forall k :: 0 <= k < buf.Length ==>
        buf[k] == if pos <= k < pos + i then data[k - pos] else old(buf[k])
    {
      buf[pos + i] := data[i];
    }
    next := pos + |data|;
  }
}
