/**
  The fragment of the Algorand Virtual Machine (AVM) that the voting contract relies on:
  byte strings, the two kinds of stack value, key-value stores, the integer reading of a
  global key, and the `btoi`/`itob` conversions between 8-byte strings and 64-bit integers.
 */
module Avm {

  datatype Option<+T> = None | Some(value: T)

  /** A byte. Byte strings are written as characters below 256 so that keys read as text. */
  type Byte = c: char | c as int < 256 witness '\0'

  type Bytes = seq<Byte>

  /** The largest value of the AVM's unsigned 64-bit integers. */
  const MaxUint64: nat := 0xFFFF_FFFF_FFFF_FFFF

  /** A value held in application state: an unsigned integer or a byte string. */
  datatype Value = UInt(n: nat) | Raw(bytes: Bytes)

  /** A key-value store: the application's global state. */
  type Store = map<Bytes, Value>

  /**
    How a program ends. `Approve` is `Return(1)`; `Reject` is `Return(0)` or a refusal by the
    host; `Panic` is a failed `Assert` or a runtime error of the AVM. Only `Approve` commits
    the program's writes.
   */
  datatype Outcome = Approve | Reject | Panic

  /**
    `App.globalGet(key)` where the program uses the result as an integer: an absent key reads
    as 0, and a byte string makes the arithmetic or comparison panic (`None`).
   */
  function GlobalUint(g: Store, key: Bytes): (r: Option<nat>)
    ensures key !in g ==> r == Some(0)
    ensures r.None? <==> key in g && g[key].Raw?
    ensures key in g && g[key].UInt? ==> r == Some(g[key].n)
  {
    if key !in g then Some(0)
    else match g[key]
      case UInt(n) => Some(n)
      case Raw(_) => None
  }

  function Pow256(k: nat): nat
  {
    if k == 0 then 1 else 256 * Pow256(k - 1)
  }

  lemma {:induction false} Pow256Monotone(i: nat, j: nat)
    requires i <= j
    ensures Pow256(i) <= Pow256(j)
  {
    if i < j {
      Pow256Monotone(i, j - 1);
    }
  }

  /** The unsigned big-endian number a byte string denotes. */
  function BigEndian(b: Bytes): nat
  {
    if b == [] then 0 else BigEndian(b[..|b| - 1]) * 256 + b[|b| - 1] as int
  }

  lemma {:induction false} BigEndianBound(b: Bytes)
    ensures BigEndian(b) < Pow256(|b|)
  {
    if b != [] {
      BigEndianBound(b[..|b| - 1]);
    }
  }

  /** The `btoi` opcode: big-endian decoding; it fails on strings longer than 8 bytes. */
  function Btoi(b: Bytes): (r: Option<nat>)
    ensures r.Some? <==> |b| <= 8
    ensures r.Some? ==> r.value == BigEndian(b) && r.value <= MaxUint64
  {
    if |b| <= 8 then
      BigEndianBound(b);
      Pow256Monotone(|b|, 8);
      Some(BigEndian(b))
    else
      None
  }

  /** The `itob` opcode: the 8-byte big-endian encoding of a 64-bit integer. */
  function Itob(n: nat): (b: Bytes)
    requires n <= MaxUint64
    ensures |b| == 8
  {
    Encode(n, 8)
  }

  function Encode(n: nat, width: nat): (b: Bytes)
    ensures |b| == width
  {
    if width == 0 then [] else Encode(n / 256, width - 1) + [(n % 256) as char]
  }

  lemma {:induction false} DecodeEncode(n: nat, width: nat)
    requires n < Pow256(width)
    ensures BigEndian(Encode(n, width)) == n
  {
    if width > 0 {
      var b := Encode(n, width);
      assert b[..|b| - 1] == Encode(n / 256, width - 1);
      DecodeEncode(n / 256, width - 1);
    }
  }

  /** `btoi` inverts `itob`: a round number encoded by a client is read back unchanged. */
  lemma BtoiItob(n: nat)
    requires n <= MaxUint64
    ensures Btoi(Itob(n)) == Some(n)
  {
    DecodeEncode(n, 8);
  }
}
