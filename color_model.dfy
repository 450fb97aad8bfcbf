/**
 * Colour packing (TColor, TRGBTriple). A packed colour is an unsigned
 * 32-bit value laid out as R | G << 8 | B << 16; the top byte is unused.
 * The three shifted fields never overlap, so each `|` is an addition, and
 * `(byte)(v >> k)` is `(v / 2^k) % 256`.
 */
module ColorModel {

  newtype byte = x: int | 0 <= x < 0x100
  newtype u32 = x: int | 0 <= x < 0x1_0000_0000

  datatype RGBTriple = RGBTriple(r: byte, g: byte, b: byte)

  /** TColor.RGBToColor */
  function RGBToColor(r: byte, g: byte, b: byte): (c: u32)
    ensures c < 0x100_0000
  {
    (r as int + 0x100 * g as int + 0x1_0000 * b as int) as u32
  }

  /** TColor.ColorToRGB: the low byte is R, the next G, the next B. */
  function ColorToRGB(c: u32): (t: RGBTriple)
    ensures t.r as int + 0x100 * t.g as int + 0x1_0000 * t.b as int == c as int % 0x100_0000
  {
    var n := c as int;
    var q := n / 0x100;
    assert n == n % 0x100 + 0x100 * q;
    assert q == q % 0x100 + 0x100 * (q / 0x100);
    assert n / 0x1_0000 == q / 0x100;
    assert n == n % 0x100 + 0x100 * (q % 0x100) + 0x1_0000 * (q / 0x100 % 0x100) + 0x100_0000 * (q / 0x100 / 0x100);
    RGBTriple((n % 0x100) as byte, (n / 0x100 % 0x100) as byte, (n / 0x1_0000 % 0x100) as byte)
  }

  function Pack(t: RGBTriple): u32 {
    RGBToColor(t.r, t.g, t.b)
  }

  /** Unpacking a packed triple gives the triple back. */
  lemma {:induction false} ColorRoundTrip(r: byte, g: byte, b: byte)
    ensures ColorToRGB(RGBToColor(r, g, b)) == RGBTriple(r, g, b)
  {
    var c := r as int + 0x100 * g as int + 0x1_0000 * b as int;
    var hi := g as int + 0x100 * b as int;
    assert c == r as int + 0x100 * hi;
    assert c % 0x100 == r as int && c / 0x100 == hi;
    assert hi % 0x100 == g as int && hi / 0x100 == b as int;
    assert c / 0x1_0000 == b as int;
  }

  /** Packing an unpacked colour keeps its low 24 bits and drops the top byte. */
  lemma {:induction false} PackDropsTopByte(c: u32)
    ensures Pack(ColorToRGB(c)) as int == c as int % 0x100_0000
  {
    var n := c as int;
    var q := n / 0x100;
    var q2 := q / 0x100;
    assert n == n % 0x100 + 0x100 * q;
    assert q == q % 0x100 + 0x100 * q2;
    assert n / 0x1_0000 == q2;
    assert n == n % 0x100 + 0x100 * (q % 0x100) + 0x1_0000 * (q2 % 0x100) + 0x100_0000 * (q2 / 0x100);
  }

  /** Two triples that pack to the same colour are the same triple. */
  lemma PackInjective(s: RGBTriple, t: RGBTriple)
    requires Pack(s) == Pack(t)
    ensures s == t
  {
    ColorRoundTrip(s.r, s.g, s.b);
    ColorRoundTrip(t.r, t.g, t.b);
  }

  /**
   * TColor: a colour held both as three channels and as a packed value.
   * Every setter keeps the two views in agreement (Valid).
   */
  class Color {
    var red: byte
    var green: byte
    var blue: byte
    var packed: u32

    ghost predicate Valid()
      reads this
    {
      ColorToRGB(packed) == RGBTriple(red, green, blue)
    }

    constructor ()
      ensures Valid()
      ensures red == 0 && green == 0 && blue == 0 && packed == 0
    {
      red, green, blue, packed := 0, 0, 0, 0;
    }

    /** The Red property's setter. */
    method SetRed(value: byte)
      modifies this
      ensures Valid()
      ensures red == value && green == old(green) && blue == old(blue)
      ensures packed == RGBToColor(value, old(green), old(blue))
    {
      red := value;
      packed := RGBToColor(red, green, blue);
      ColorRoundTrip(red, green, blue);
    }

    /** The Green property's setter. */
    method SetGreen(value: byte)
      modifies this
      ensures Valid()
      ensures red == old(red) && green == value && blue == old(blue)
      ensures packed == RGBToColor(old(red), value, old(blue))
    {
      green := value;
      packed := RGBToColor(red, green, blue);
      ColorRoundTrip(red, green, blue);
    }

    /** The Blue property's setter. */
    method SetBlue(value: byte)
      modifies this
      ensures Valid()
      ensures red == old(red) && green == old(green) && blue == value
      ensures packed == RGBToColor(old(red), old(green), value)
    {
      blue := value;
      packed := RGBToColor(red, green, blue);
      ColorRoundTrip(red, green, blue);
    }

    /** The Color property's setter: keeps the value as given, top byte included. */
    method SetColor(value: u32)
      modifies this
      ensures Valid()
      ensures packed == value
    {
      packed := value;
      var t := ColorToRGB(packed);
      red, green, blue := t.r, t.g, t.b;
    }
  }
}
