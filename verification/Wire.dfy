/** Bytes on the wire: little-endian integers and the two request frames (socket_client.py `_send`, `_send_raw`). */
module Wire {
  newtype byte = x: int | 0 <= x < 256

  type Bytes = seq<byte>

  function Pow256(k: nat): (p: nat)
    ensures p > 0
  {
    if k == 0 then 1 else 256 * Pow256(k - 1)
  }

  /** The k low bytes of n, least significant first. */
  function LE(n: nat, k: nat): (s: Bytes)
    ensures |s| == k
  {
    if k == 0 then [] else [(n % 256) as byte] + LE(n / 256, k - 1)
  }

  function FromLE(s: Bytes): nat {
    if s == [] then 0 else s[0] as nat + 256 * FromLE(s[1..])
  }

  lemma {:induction false} FromLEOfLE(n: nat, k: nat)
    requires n < Pow256(k)
    ensures FromLE(LE(n, k)) == n
  {
    if k > 0 {
      FromLEOfLE(n / 256, k - 1);
      assert LE(n, k)[1..] == LE(n / 256, k - 1);
    }
  }

  lemma {:induction false} LEOfFromLE(s: Bytes)
    ensures FromLE(s) < Pow256(|s|)
    ensures LE(FromLE(s), |s|) == s
  {
    if s != [] {
      LEOfFromLE(s[1..]);
      assert FromLE(s) % 256 == s[0] as int;
    }
  }

  const MAX_I32 := 0x7fff_ffff
  const TWO_TO_32 := 0x1_0000_0000
  const TWO_TO_64 := 0x1_0000_0000_0000_0000

  predicate FitsI32(n: int) {
    -MAX_I32 - 1 <= n <= MAX_I32
  }

  /** `struct.pack("i", n)` on a little-endian host. */
  function PackI32(n: int): (s: Bytes)
    requires FitsI32(n)
    ensures |s| == 4
  {
    LE(if n < 0 then n + TWO_TO_32 else n, 4)
  }

  /** `struct.unpack("i", s)`: the prefix is signed. */
  function UnpackI32(s: Bytes): (n: int)
    requires |s| == 4
    ensures FitsI32(n)
  {
    LEOfFromLE(s);
    assert Pow256(4) == TWO_TO_32;
    var v := FromLE(s);
    if v > MAX_I32 then v - TWO_TO_32 else v
  }

  /** `struct.pack("<Q", n)`. */
  function PackU64(n: nat): (s: Bytes)
    requires n < TWO_TO_64
    ensures |s| == 8
  {
    LE(n, 8)
  }

  function UnpackU64(s: Bytes): (n: nat)
    requires |s| == 8
    ensures n < TWO_TO_64
  {
    LEOfFromLE(s);
    assert Pow256(8) == TWO_TO_64;
    FromLE(s)
  }

  lemma LowByteFirst(n: nat, k: nat)
    requires k > 0
    ensures LE(n, k)[0] as int == n % 256 && LE(n, k)[1..] == LE(n / 256, k - 1)
  {
  }

  lemma DivideAgain(n: nat)
    ensures n / 256 / 256 == n / 65536 && n / 256 / 256 / 256 == n / 16777216
  {
  }

  lemma FourBytes(v: nat)
    requires v < TWO_TO_32
    ensures var s := LE(v, 4);
            && s[0] as int == v % 256
            && s[1] as int == v / 256 % 256
            && s[2] as int == v / 65536 % 256
            && s[3] as int == v / 16777216
  {
    var a, b, c := v / 256, v / 256 / 256, v / 256 / 256 / 256;
    LowByteFirst(v, 4);
    LowByteFirst(a, 3);
    LowByteFirst(b, 2);
    LowByteFirst(c, 1);
    assert LE(v, 4)[1] == LE(a, 3)[0] && LE(v, 4)[2] == LE(a, 3)[1] == LE(b, 2)[0];
    assert LE(v, 4)[3] == LE(a, 3)[2] == LE(b, 2)[1] == LE(c, 1)[0];
    DivideAgain(v);
  }

  /** The prefix is the two's complement of n in four bytes, the least significant first. */
  lemma I32Bytes(n: int)
    requires FitsI32(n)
    ensures var s, v := PackI32(n), n % TWO_TO_32;
            && s[0] as int == v % 256
            && s[1] as int == v / 256 % 256
            && s[2] as int == v / 65536 % 256
            && s[3] as int == v / 16777216
  {
    FourBytes(n % TWO_TO_32);
    assert n % TWO_TO_32 == if n < 0 then n + TWO_TO_32 else n;
  }

  lemma I32RoundTrip(n: int)
    requires FitsI32(n)
    ensures UnpackI32(PackI32(n)) == n
  {
    assert Pow256(4) == TWO_TO_32;
    FromLEOfLE(if n < 0 then n + TWO_TO_32 else n, 4);
  }

  lemma U64RoundTrip(n: nat)
    requires n < TWO_TO_64
    ensures UnpackU64(PackU64(n)) == n
    ensures PackU64(n)[0] as int == n % 256
  {
    assert Pow256(8) == TWO_TO_64;
    FromLEOfLE(n, 8);
  }

  /** A raw frame: the length, then the content. */
  function RawFrame(content: Bytes): Bytes
    requires |content| <= MAX_I32
  {
    PackI32(|content|) + content
  }

  /** The body of a request: the datatype, then the payload. */
  function Body(dt: int, payload: Bytes): Bytes
    requires FitsI32(dt)
  {
    PackI32(dt) + payload
  }

  function Flatten<T>(parts: seq<seq<T>>): seq<T> {
    if parts == [] then [] else parts[0] + Flatten(parts[1..])
  }
}
