/** Light planes store two 4-bit levels per byte, the even index in the low half. */
module Nibbles {

  predicate IsBytes(bytes: seq<nat>) {
    forall i :: 0 <= i < |bytes| ==> bytes[i] < 256
  }

  function ReadNibble(bytes: seq<nat>, index: nat): nat
    requires index / 2 < |bytes|
  {
    if index % 2 == 0 then bytes[index / 2] % 16 else bytes[index / 2] / 16
  }

  /** Keeps the other half of the byte: `(byte & 0xf0) | value` or `(byte & 0x0f) | (value << 4)`,
      which for a level below 16 is this arithmetic. */
  function WithNibble(bytes: seq<nat>, index: nat, value: nat): (r: seq<nat>)
    requires index / 2 < |bytes|
    ensures |r| == |bytes|
  {
    var byte := bytes[index / 2];
    bytes[index / 2 := if index % 2 == 0 then byte / 16 * 16 + value else byte % 16 + value * 16]
  }

  lemma NibbleReadsBack(bytes: seq<nat>, index: nat, value: nat, other: nat)
    requires IsBytes(bytes) && index / 2 < |bytes| && other / 2 < |bytes| && value < 16
    ensures IsBytes(WithNibble(bytes, index, value))
    ensures ReadNibble(WithNibble(bytes, index, value), other)
         == if other == index then value else ReadNibble(bytes, other)
  {
    var byte := bytes[index / 2];
    assert (byte / 16 * 16 + value) / 16 == byte / 16 && (byte / 16 * 16 + value) % 16 == value;
    assert (byte % 16 + value * 16) / 16 == value && (byte % 16 + value * 16) % 16 == byte % 16;
  }

  /** A byte is its even level plus sixteen times its odd one. */
  lemma LevelsMakeTheByte(bytes: seq<nat>, i: nat)
    requires i < |bytes|
    ensures bytes[i] == ReadNibble(bytes, 2 * i) + 16 * ReadNibble(bytes, 2 * i + 1)
    ensures ReadNibble(bytes, 2 * i) < 16
  {
    assert 2 * i / 2 == i && (2 * i + 1) / 2 == i && (2 * i + 1) % 2 == 1;
  }

  method WriteNibble(bytes: array<nat>, index: nat, value: nat)
    requires index / 2 < bytes.Length
    modifies bytes
    ensures bytes[..] == WithNibble(old(bytes[..]), index, value)
  {
    var at := index / 2;
    var byte := bytes[at];
    if index % 2 == 0 {
      bytes[at] := byte / 16 * 16 + value;
    } else {
      bytes[at] := byte % 16 + value * 16;
    }
  }
}
