/** Values shared by every part of the node (common/primitives.go, state/state.go). */
module Types {

  type Byte = b: int | 0 <= b < 256

  /** A 256-bit stack word; Vm.Push is where the reduction to 256 bits happens. */
  type Word = nat

  /** The low 160 bits of a word or of a digest. */
  type Address = nat

  const TWO_64: nat := 0x1_0000_0000_0000_0000
  const TWO_160: nat := 0x1_0000000000_0000000000_0000000000_0000000000
  const TWO_256: nat := TWO_160 * 0x1_0000_0000_0000_0000_0000_0000

  /** common/burn.go: value a transaction sends here is destroyed. */
  const BURN_ADDRESS: Address := 0xdEaD

  datatype Option<+T> = None | Some(value: T)

  /** A world-state leaf. A storage slot that is absent reads as zero. */
  datatype Account = Account(nonce: nat, balance: int, storage: map<Word, Word>, code: seq<Byte>)

  const EMPTY_ACCOUNT := Account(0, 0, map[], [])

  /** An event emitted by LOG0..LOG4. */
  datatype Log = Log(address: Address, topics: seq<Word>, data: seq<Byte>)

  /** The low n bytes, most significant first. */
  function BigEndian(v: nat, n: nat): (r: seq<Byte>)
    ensures |r| == n
  {
    if n == 0 then [] else BigEndian(v / 256, n - 1) + [v % 256]
  }

  /** The unsigned integer that big-endian bytes stand for. */
  function FromBytes(b: seq<Byte>): nat {
    if b == [] then 0 else FromBytes(b[..|b| - 1]) * 256 + b[|b| - 1]
  }
}
