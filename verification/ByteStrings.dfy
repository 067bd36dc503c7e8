/** Bytes, byte strings and little-endian numbers. */
module ByteStrings {

  type byte = x: int | 0 <= x < 256
  type Bytes = seq<byte>

  function Pow256(k: nat): (p: nat)
    ensures p > 0
  {
    if k == 0 then 1 else 256 * Pow256(k - 1)
  }

  /** The `k` low bytes of `n`, least significant first. */
  function ToLittleEndian(n: nat, k: nat): (r: Bytes)
    ensures |r| == k
  {
    if k == 0 then [] else [n % 256] + ToLittleEndian(n / 256, k - 1)
  }

  function FromLittleEndian(bytes: Bytes): nat {
    if bytes == [] then 0 else bytes[0] + 256 * FromLittleEndian(bytes[1..])
  }

  lemma {:induction false} LittleEndianReads(n: nat, k: nat)
    requires n < Pow256(k)
    ensures FromLittleEndian(ToLittleEndian(n, k)) == n
  {
    if k > 0 {
      LittleEndianReads(n / 256, k - 1);
      assert ToLittleEndian(n, k)[1..] == ToLittleEndian(n / 256, k - 1);
    }
  }

  lemma {:induction false} LittleEndianWrites(bytes: Bytes)
    ensures FromLittleEndian(bytes) < Pow256(|bytes|)
    ensures ToLittleEndian(FromLittleEndian(bytes), |bytes|) == bytes
  {
    if bytes != [] {
      LittleEndianWrites(bytes[1..]);
      LowByte(bytes[0], FromLittleEndian(bytes[1..]));
      assert bytes == [bytes[0]] + bytes[1..];
    }
  }

  lemma LowByte(low: byte, rest: nat)
    ensures (low + 256 * rest) % 256 == low && (low + 256 * rest) / 256 == rest
  {
  }
}
