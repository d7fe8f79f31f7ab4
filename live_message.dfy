/**
 * The platform-independent chat message (`LiveMessage`) and its colour
 * (`LiveMessageColor`), with the conversions between a packed colour integer,
 * a colour triple and `#rrggbb` text.
 */
module LiveMessages {
  import opened Wrappers
  import opened Text
  import opened Bytes

  datatype LiveMessageType = Chat | Gift | Online | SuperChat

  /** An RGB triple; nothing in the type keeps a component inside 0..255. */
  datatype LiveMessageColor = LiveMessageColor(r: int, g: int, b: int)
  {
    /** `toHexString()`: `#` and each component in lower-case hex, left-padded to two digits. */
    function ToHexString(): string {
      "#" + PadStart(IntToString(r, 16), 2, '0') + PadStart(IntToString(g, 16), 2, '0')
        + PadStart(IntToString(b, 16), 2, '0')
    }
  }

  datatype LiveMessage = LiveMessage(
    kind: LiveMessageType,
    userName: string,
    message: string,
    data: Option<string>,
    color: LiveMessageColor)

  datatype LiveSuperChatMessage = LiveSuperChatMessage(
    userName: string,
    face: string,
    message: string,
    price: int,
    startTime: int,
    endTime: int,
    backgroundColor: string,
    backgroundBottomColor: string)

  const White := LiveMessageColor(255, 255, 255)

  predicate IsComponent(x: int) {
    0 <= x < 256
  }

  predicate InRange(c: LiveMessageColor) {
    IsComponent(c.r) && IsComponent(c.g) && IsComponent(c.b)
  }

  /** The text `fromInt` branches on: `intColor.toString(16).padStart(8, '0')`. */
  function HexText(n: Int32): string {
    PadStart(IntToString(n, 16), 8, '0')
  }

  /** Three two-character hex fields starting at `at`; `None` when one of them is not a number. */
  function Components(h: string, at: nat): Option<LiveMessageColor>
    requires at + 6 <= |h|
  {
    var r := ParseInt(h[at..at + 2], 16);
    var g := ParseInt(h[at + 2..at + 4], 16);
    var b := ParseInt(h[at + 4..at + 6], 16);
    if r.Some? && g.Some? && b.Some? then Some(LiveMessageColor(r.value, g.value, b.value)) else None
  }

  /**
   * `LiveMessageColor.fromInt`, exactly as written: branch on the length of the
   * padded hex text. `None` is the NumberFormatException that `toInt(16)` throws
   * on a field such as `"0-"`.
   */
  function FromInt(n: Int32): Option<LiveMessageColor> {
    var hex := HexText(n);
    if |hex| == 4 then Components("00" + hex, 0)
    else if |hex| == 6 then Components(hex, 0)
    else if |hex| == 8 then Components(hex, 2)
    else Some(White)
  }

  /** The low `k` hex digits of `n`, zero-padded: what `padStart` makes of a short hex text. */
  function FixedHex(n: nat, k: nat): (s: string)
    ensures |s| == k
  {
    if k == 0 then [] else FixedHex(n / 16, k - 1) + [DigitChar(n % 16)]
  }

  lemma {:induction false} FixedHexZero(k: nat)
    ensures FixedHex(0, k) == seq(k, _ => '0')
  {
    if k > 0 {
      FixedHexZero(k - 1);
    }
  }

  lemma PadStartSnoc(x: string, c: char, k: nat)
    requires k >= 1
    ensures PadStart(x + [c], k, '0') == PadStart(x, k - 1, '0') + [c]
  {
  }

  /** A hex text padded to `k` places is the fixed-width form of its number. */
  lemma {:induction false} PadHex(n: nat, k: nat)
    requires k >= 1 && n < Pow(16, k)
    ensures PadStart(NatToString(n, 16), k, '0') == FixedHex(n, k)
    decreases n
  {
    if n < 16 {
      FixedHexZero(k - 1);
      assert NatToString(n, 16) == [] + [DigitChar(n)];
      PadStartSnoc([], DigitChar(n), k);
    } else {
      DivShrinks(n, 16);
      assert Pow(16, k) == 16 * Pow(16, k - 1);
      DivBound(n, 16, Pow(16, k - 1));
      assert k - 1 >= 1;
      PadHex(n / 16, k - 1);
      PadStartSnoc(NatToString(n / 16, 16), DigitChar(n % 16), k);
    }
  }

  /** The two hex digits of a byte value. */
  function HexPair(m: nat): string {
    [DigitChar((m / 16) % 16), DigitChar(m % 16)]
  }

  /** The two hex digits of the low byte of `m`. */
  lemma LowByteDigits(m: nat)
    ensures ((m / 16) % 16) * 16 + m % 16 == m % 256
  {
    var k := m / 256;
    var x := m % 256;
    assert m == k * 256 + x;
    UpperDigit(k, x);
  }

  lemma HexPairValue(m: nat)
    ensures ParseInt(HexPair(m), 16) == Some(m % 256)
  {
    var a, b := (m / 16) % 16, m % 16;
    DigitRoundTrip(a, 16);
    DigitRoundTrip(b, 16);
    assert DigitsValue([DigitChar(a)], 16) == Some(a);
    DigitsValueSnoc([DigitChar(a)], DigitChar(b), 16, a, b);
    assert [DigitChar(a)] + [DigitChar(b)] == HexPair(m);
    LowByteDigits(m);
  }

  lemma FixedHexSplit(n: nat, k: nat)
    ensures FixedHex(n, k + 2) == FixedHex(n / 256, k) + HexPair(n)
  {
    assert n / 16 / 16 == n / 256;
  }

  /** Six hex places hold three bytes. */
  lemma FixedHex6(n: nat)
    ensures FixedHex(n, 6) == HexPair(n / 0x1_0000) + HexPair(n / 0x100) + HexPair(n)
  {
    var m := n / 256;
    var t := m / 256;
    FixedHexSplit(n, 4);
    FixedHexSplit(m, 2);
    FixedHexSplit(t, 0);
    DivTwice(n);
  }

  /** Eight hex places hold the top byte and then the three colour bytes. */
  lemma FixedHex8(n: nat)
    ensures FixedHex(n, 8)[2..4] == HexPair(n / 0x1_0000)
    ensures FixedHex(n, 8)[4..6] == HexPair(n / 0x100)
    ensures FixedHex(n, 8)[6..8] == HexPair(n)
  {
    var m := n / 256;
    FixedHexSplit(n, 6);
    FixedHex6(m);
    DivTwice(n);
    Slices(HexPair(m / 0x1_0000), HexPair(m / 0x100), HexPair(m), HexPair(n));
  }

  lemma HexTextLength(n: Int32)
    ensures n >= 0 ==> HexText(n) == FixedHex(n, 8)
    ensures -0x1000_0000 < n < 0 ==> |HexText(n)| == 8
    ensures n <= -0x1000_0000 ==> |HexText(n)| == 9
  {
    assert Pow(16, 7) == 0x1000_0000 && Pow(16, 8) == 0x1_0000_0000 by {
      assert Pow(16, 1) == 16;
      assert Pow(16, 2) == 0x100;
      assert Pow(16, 4) == 0x1_0000 by { assert Pow(16, 3) == 0x1000; }
      assert Pow(16, 6) == 0x100_0000 by { assert Pow(16, 5) == 0x10_0000; }
    }
    if n >= 0 {
      PadHex(n, 8);
    } else {
      var m: nat := -(n as int);
      NatToStringLength(m, 16, 6);
      NatToStringLength(m, 16, 7);
    }
  }

  /** Every `Int` gives a padded text of 8 or 9 characters, so the 4- and 6-digit branches are never taken. */
  lemma FromIntBranches(n: Int32)
    ensures |HexText(n)| == 8 || |HexText(n)| == 9
    ensures |HexText(n)| == 8 <==> n > -0x1000_0000
  {
    HexTextLength(n);
  }

  /** For a non-negative `Int` the result is its low three bytes; the top (alpha) byte is dropped. */
  lemma FromIntNonNegative(n: Int32)
    requires n >= 0
    ensures FromInt(n) == Some(LiveMessageColor((n / 0x1_0000) % 256, (n / 0x100) % 256, n % 256))
    ensures InRange(FromInt(n).value)
  {
    HexTextLength(n);
    FixedHex8(n);
    HexPairValue(n / 0x1_0000);
    HexPairValue(n / 0x100);
    HexPairValue(n);
  }

  /** An `Int` whose hex text has eight digits after the minus sign, such as Int.MIN_VALUE, gives white. */
  lemma FromIntWhite(n: Int32)
    requires n <= -0x1000_0000
    ensures FromInt(n) == Some(White)
  {
    HexTextLength(n);
  }

  /** Appending a byte `x` to `q` and splitting it off again gives back `q` and `x`. */
  lemma SplitByte(q: int, x: int)
    requires IsComponent(x)
    ensures (q * 0x100 + x) / 0x100 == q && (q * 0x100 + x) % 0x100 == x
  {
  }

  lemma DivTwice(n: nat)
    ensures n / 0x1_0000 == n / 0x100 / 0x100
  {
  }

  /** The three bytes of a packed colour, read back by division. */
  lemma PackedParts(r: int, g: int, b: int)
    requires IsComponent(r) && IsComponent(g) && IsComponent(b)
    ensures var n := r * 0x1_0000 + g * 0x100 + b;
      (n / 0x1_0000) % 256 == r && (n / 0x100) % 256 == g && n % 256 == b
  {
    var m := r * 0x100 + g;
    var n := r * 0x1_0000 + g * 0x100 + b;
    assert n == m * 0x100 + b;
    SplitByte(m, b);
    SplitByte(r, g);
    SplitByte(0, r);
    DivTwice(n);
  }

  /** Packing three components and converting back gives the same colour. */
  lemma FromIntPacked(r: int, g: int, b: int)
    requires IsComponent(r) && IsComponent(g) && IsComponent(b)
    ensures FromInt(r * 0x1_0000 + g * 0x100 + b) == Some(LiveMessageColor(r, g, b))
  {
    FromIntNonNegative(r * 0x1_0000 + g * 0x100 + b);
    PackedParts(r, g, b);
  }

  lemma PadByte(x: int)
    requires IsComponent(x)
    ensures PadStart(IntToString(x, 16), 2, '0') == HexPair(x)
  {
    assert Pow(16, 2) == 256 by { assert Pow(16, 1) == 16; }
    PadHex(x, 2);
    assert FixedHex(x, 2) == FixedHex(x / 256, 0) + HexPair(x) by { FixedHexSplit(x, 0); }
  }

  /** For components in 0..255, `toHexString` is `#` followed by three lower-case hex pairs. */
  lemma ToHexStringPairs(c: LiveMessageColor)
    requires InRange(c)
    ensures c.ToHexString() == "#" + HexPair(c.r) + HexPair(c.g) + HexPair(c.b)
  {
    PadByte(c.r);
    PadByte(c.g);
    PadByte(c.b);
  }

  /** Where the three pairs sit in `a + p + q + t`. */
  lemma Slices(a: string, p: string, q: string, t: string)
    requires |p| == |q| == |t| == 2
    ensures var s := a + p + q + t; var k := |a|;
      |s| == k + 6 && s[..k] == a && s[k..k + 2] == p && s[k + 2..k + 4] == q && s[k + 4..k + 6] == t
      && s[k..] == p + q + t
  {
    var s := a + p + q + t;
    assert s == a + (p + q + t);
  }

  /** A hex pair anywhere in a text reads back as its byte. */
  lemma PairAt(s: string, i: nat, x: int)
    requires IsComponent(x) && i + 2 <= |s| && s[i..i + 2] == HexPair(x)
    ensures ParseInt(s[i..i + 2], 16) == Some(x)
  {
    HexPairValue(x);
  }

  /**
   * For components in 0..255, `toHexString` is seven characters, `#` and three
   * hex pairs, and each pair reads back as its component.
   */
  lemma ToHexStringLayout(c: LiveMessageColor)
    requires InRange(c)
    ensures |c.ToHexString()| == 7 && c.ToHexString()[0] == '#'
    ensures c.ToHexString()[1..3] == HexPair(c.r) && ParseInt(c.ToHexString()[1..3], 16) == Some(c.r)
    ensures c.ToHexString()[3..5] == HexPair(c.g) && ParseInt(c.ToHexString()[3..5], 16) == Some(c.g)
    ensures c.ToHexString()[5..7] == HexPair(c.b) && ParseInt(c.ToHexString()[5..7], 16) == Some(c.b)
  {
    ToHexStringPairs(c);
    var s := c.ToHexString();
    Slices("#", HexPair(c.r), HexPair(c.g), HexPair(c.b));
    assert s[0] == s[..1][0];
    PairAt(s, 1, c.r);
    PairAt(s, 3, c.g);
    PairAt(s, 5, c.b);
  }

  /** `(k * 256 + x) / 16` keeps the low byte's upper digit as its last hex digit. */
  lemma UpperDigit(k: nat, x: nat)
    requires x < 256
    ensures (k * 256 + x) / 16 == k * 16 + x / 16
    ensures (k * 16 + x / 16) % 16 == (x / 16) % 16
  {
  }

  lemma PairMod(m: nat, x: nat)
    requires m % 256 == x
    ensures HexPair(m) == HexPair(x)
  {
    var k := m / 256;
    assert m == k * 256 + x;
    UpperDigit(k, x);
  }

  lemma PackedHex(r: int, g: int, b: int)
    requires IsComponent(r) && IsComponent(g) && IsComponent(b)
    ensures FixedHex(r * 0x1_0000 + g * 0x100 + b, 6) == HexPair(r) + HexPair(g) + HexPair(b)
  {
    PackedParts(r, g, b);
    SixDigits(r * 0x1_0000 + g * 0x100 + b, r, g, b);
  }

  /** Six hex places of `n` are the hex pairs of its three low bytes. */
  lemma SixDigits(n: nat, r: nat, g: nat, b: nat)
    requires (n / 0x1_0000) % 256 == r && (n / 0x100) % 256 == g && n % 256 == b
    ensures FixedHex(n, 6) == HexPair(r) + HexPair(g) + HexPair(b)
  {
    FixedHex6(n);
    PairMod(n / 0x1_0000, r);
    PairMod(n / 0x100, g);
    PairMod(n, b);
  }

  /** The hex digits of `toHexString` are the packed colour that `fromInt` maps back to the same colour. */
  lemma ToHexStringFromInt(c: LiveMessageColor)
    requires InRange(c)
    ensures FixedHex(c.r * 0x1_0000 + c.g * 0x100 + c.b, 6) == c.ToHexString()[1..]
    ensures FromInt(c.r * 0x1_0000 + c.g * 0x100 + c.b) == Some(c)
  {
    ToHexStringPairs(c);
    Slices("#", HexPair(c.r), HexPair(c.g), HexPair(c.b));
    PackedHex(c.r, c.g, c.b);
    FromIntPacked(c.r, c.g, c.b);
  }

  // ---------------------------------------------------------------------------
  // An opaque ARGB colour is a negative `Int`, and `toString(16)` writes it with a
  // minus sign; `fromInt` then reads the wrong digits, or throws.

  /** `0xFF336699.toInt()`: opaque `#336699`. */
  const OpaqueArgb: Int32 := 0xFF33_6699 - 0x1_0000_0000

  lemma OpaqueArgbText()
    ensures HexText(OpaqueArgb) == "0-cc9967"
  {
    assert NatToString(0xC, 16) == "c";
    assert NatToString(0xCC, 16) == "cc";
    assert NatToString(0xCC9, 16) == "cc9";
    assert NatToString(0xCC99, 16) == "cc99";
    assert NatToString(0xCC996, 16) == "cc996";
    assert NatToString(0xCC_9967, 16) == "cc9967";
    assert IntToString(OpaqueArgb, 16) == "-cc9967";
  }

  /** As written, the opaque colour `0xFF336699` comes out as `(0xcc, 0x99, 0x67)`, not `(0x33, 0x66, 0x99)`. */
  lemma FromIntOpaqueArgb()
    ensures FromInt(OpaqueArgb) == Some(LiveMessageColor(0xcc, 0x99, 0x67))
    ensures FromInt(OpaqueArgb) != Some(LiveMessageColor(0x33, 0x66, 0x99))
  {
    OpaqueArgbText();
    var hex := HexText(OpaqueArgb);
    assert hex[2..4] == "cc" && hex[4..6] == "99" && hex[6..8] == "67";
    assert ParseInt("cc", 16) == Some(0xcc) by { HexPairValue(0xcc); assert HexPair(0xcc) == "cc"; }
    assert ParseInt("99", 16) == Some(0x99) by { HexPairValue(0x99); assert HexPair(0x99) == "99"; }
    assert ParseInt("67", 16) == Some(0x67) by { HexPairValue(0x67); assert HexPair(0x67) == "67"; }
  }

  /** As written, `fromInt(-0x1234)` throws: its padded text `000-1234` holds the field `0-`. */
  lemma FromIntThrows()
    ensures FromInt(-0x1234) == None
  {
    assert NatToString(0x1234, 16) == "1234" by {
      assert NatToString(0x12, 16) == "12";
      assert NatToString(0x123, 16) == "123";
    }
    assert HexText(-0x1234) == "000-1234";
    assert ParseInt("0-", 16) == None;
  }

  /**
   * The conversion `fromInt` evidently intends: read the `Int` as unsigned 32-bit
   * (as `Integer.toHexString` writes it), skip the alpha byte and split the rest.
   */
  function FromIntUnsigned(n: Int32): (c: LiveMessageColor)
    ensures var u := n % 0x1_0000_0000;
      c == LiveMessageColor((u / 0x1_0000) % 256, (u / 0x100) % 256, u % 256)
    ensures InRange(c)
  {
    var u := n % 0x1_0000_0000;
    assert Pow(16, 8) == 0x1_0000_0000 by {
      assert Pow(16, 4) == 0x1_0000 by { assert Pow(16, 2) == 0x100 by { assert Pow(16, 1) == 16; } assert Pow(16, 3) == 0x1000; }
      assert Pow(16, 6) == 0x100_0000 by { assert Pow(16, 5) == 0x10_0000; }
      assert Pow(16, 7) == 0x1000_0000;
    }
    var hex := PadStart(NatToString(u, 16), 8, '0');
    PadHex(u, 8);
    FixedHex8(u);
    HexPairValue(u / 0x1_0000);
    HexPairValue(u / 0x100);
    HexPairValue(u);
    Components(hex, 2).value
  }

  /** The corrected conversion agrees with `fromInt` on non-negative input and reads opaque `#336699` right. */
  lemma FromIntUnsignedAgrees(n: Int32)
    requires n >= 0
    ensures FromInt(n) == Some(FromIntUnsigned(n))
  {
    FromIntNonNegative(n);
    assert n % 0x1_0000_0000 == n;
  }

  lemma FromIntUnsignedOpaque()
    ensures FromIntUnsigned(OpaqueArgb) == LiveMessageColor(0x33, 0x66, 0x99)
  {
    var u := OpaqueArgb % 0x1_0000_0000;
    assert u == 0xFF33_6699;
    assert u / 0x1_0000 == 0xFF33 && u / 0x100 == 0xFF_3366;
  }
}
