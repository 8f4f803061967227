// Machine words and byte order, as the C sources see them on a little-endian host.
module Octets {

  type byte = x: int | 0 <= x < 0x100
  type U16 = x: int | 0 <= x < 0x1_0000
  type U32 = x: int | 0 <= x < 0x1_0000_0000

  // An assignment to a 16-bit or 32-bit unsigned variable.
  function Trunc16(x: int): (r: U16)
    ensures 0 <= x ==> r <= x
  {
    x % 0x1_0000
  }

  function Trunc32(x: int): (r: U32) { x % 0x1_0000_0000 }

  // Two-byte loads in network and in host order.
  function Be16(p: seq<byte>, i: nat): (r: U16)
    requires i + 2 <= |p|
  {
    var hi: int := p[i];
    hi * 0x100 + p[i + 1]
  }

  function Le16(p: seq<byte>, i: nat): (r: U16)
    requires i + 2 <= |p|
  {
    var hi: int := p[i + 1];
    p[i] + hi * 0x100
  }

  // Bit k of a byte-sized or word-sized value.
  predicate Bit(x: nat, weight: nat)
    requires weight > 0
  {
    x / weight % 2 == 1
  }

  // ntohs and ntohl (and htons, htonl): the byte swaps of a little-endian host.
  function Ntohs(x: U16): (r: U16) { x % 0x100 * 0x100 + x / 0x100 }

  function Ntohl(x: U32): (r: U32) { SwapWords(Ntohs, x) }

  // Both halves swapped, and each within itself.
  function SwapWords(swap: U16 -> U16, x: U32): (r: U32) {
    swap(x % 0x1_0000) * 0x1_0000 + swap(x / 0x1_0000)
  }

  lemma SwapsAreInvolutions(x: U16, y: U32)
    ensures Ntohs(Ntohs(x)) == x
    ensures Ntohl(Ntohl(y)) == y
  {
    SwapTwice16(x);
    forall h: U16 ensures Ntohs(Ntohs(h)) == h { SwapTwice16(h); }
    SwapTwiceWords(Ntohs, y);
  }

  lemma SwapTwiceWords(swap: U16 -> U16, y: U32)
    requires forall h: U16 :: swap(swap(h)) == h
    ensures SwapWords(swap, SwapWords(swap, y)) == y
  {
    var a: int, b: int := swap(y % 0x1_0000), swap(y / 0x1_0000);
    assert SwapWords(swap, y) % 0x1_0000 == b && SwapWords(swap, y) / 0x1_0000 == a;
  }

  lemma SwapTwice16(x: U16)
    ensures Ntohs(Ntohs(x)) == x
  {
    var lo, hi := x % 0x100, x / 0x100;
    assert Ntohs(x) % 0x100 == hi && Ntohs(x) / 0x100 == lo;
  }

  // Mixed-radix numbers, for comparators that go field by field.
  ghost function Digit(high: int, base: int, digit: int): int { high * base + digit }

  lemma DigitIsLexicographic(g: int, h: int, base: int, x: int, y: int)
    requires 0 <= x < base && 0 <= y < base
    ensures Digit(g, base, x) < Digit(h, base, y) <==> g < h || (g == h && x < y)
    ensures Digit(g, base, x) == Digit(h, base, y) <==> g == h && x == y
  {
    if g < h {
      assert h * base >= (g + 1) * base == g * base + base;
    } else if h < g {
      assert g * base >= (h + 1) * base == h * base + base;
    }
  }
}
