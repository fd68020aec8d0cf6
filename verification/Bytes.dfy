/** Bytes as unsigned eight-bit values, and the few sequence facts the transport modules share. */
module Bytes {
  type byte = x: int | 0 <= x < 256

  /** The concatenation of a list of byte strings, in order. */
  function Flatten(parts: seq<seq<byte>>): seq<byte> {
    if parts == [] then [] else parts[0] + Flatten(parts[1..])
  }

  lemma {:induction false} FlattenAppend(a: seq<seq<byte>>, b: seq<seq<byte>>)
    ensures Flatten(a + b) == Flatten(a) + Flatten(b)
    decreases |a|
  {
    if a == [] {
      assert a + b == b;
    } else {
      assert (a + b)[1..] == a[1..] + b;
      FlattenAppend(a[1..], b);
    }
  }

  lemma Regroup<T>(a: seq<T>, b: seq<T>, c: seq<T>)
    ensures (a + b) + c == a + (b + c)
  {
  }

  /** The five-bit fields of a 16-bit pixel word. */
  lemma WordParts(r: nat, g: nat, b: nat)
    requires r < 32 && g < 32 && b < 32
    ensures var w := r * 2048 + g * 64 + b;
            w < 65536 && w / 2048 == r && w / 64 % 32 == g && w % 64 == b
  {
    assert (r * 2048 + g * 64 + b) / 64 == r * 32 + g;
  }

  /** Its two bytes. */
  lemma WordHalves(r: nat, g: nat, b: nat)
    requires r < 32 && g < 32 && b < 32
    ensures var w := r * 2048 + g * 64 + b; w % 256 == g % 4 * 64 + b && w / 256 == r * 8 + g / 4
  {
    var low, high := g % 4 * 64 + b, r * 8 + g / 4;
    assert g == g / 4 * 4 + g % 4;
    Halves(r * 2048 + g * 64 + b, low, high);
  }

  lemma Halves(w: nat, low: nat, high: nat)
    requires w == high * 256 + low && low < 256
    ensures w % 256 == low && w / 256 == high
  {
  }
}
