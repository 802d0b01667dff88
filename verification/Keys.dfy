/** Metric keys: a 16-byte hash, and the same hash qualified by an organisation. */
module Keys {
  type Byte = b: int | 0 <= b < 256
  type Uint32 = n: int | 0 <= n < 0x1_0000_0000

  type Key = k: seq<Byte> | |k| == 16 witness [0, 0, 0, 0, 0, 0, 0, 0, 0, 0, 0, 0, 0, 0, 0, 0]
  type SubKey = k: seq<Byte> | |k| == 15 witness [0, 0, 0, 0, 0, 0, 0, 0, 0, 0, 0, 0, 0, 0, 0]

  datatype MKey = MKey(key: Key, org: Uint32)

  const SHARDS: nat := 256

  /** The key that the first byte `i` and the remaining fifteen bytes `sub` make up. */
  function Join(i: Byte, sub: SubKey): Key {
    [i] + sub
  }
}
