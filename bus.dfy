/** The HD44780 4-bit bus as the driver drives it: six GPIO lines, the
    events the driver produces on them, and the framing of nibbles and
    bytes into those events. */
module Bus {

  /** A byte of the text buffer or of a controller command. */
  type Byte = b: int | 0 <= b < 256

  /** A GPIO line number. */
  type Pin = nat

  /** The register-select level carried by every transmission. */
  datatype Register = Command | Data

  // Line assignment of the board: register select, enable, data D4..D7.
  const PIN_RS: Pin := 7
  const PIN_E: Pin := 8
  const PIN_D4: Pin := 25
  const PIN_D5: Pin := 24
  const PIN_D6: Pin := 23
  const PIN_D7: Pin := 18

  /** The six lines in the order the driver claims them. */
  const LCD_PINS: seq<Pin> := [PIN_RS, PIN_E, PIN_D7, PIN_D6, PIN_D5, PIN_D4]

  /** Width of the enable pulse, in microseconds. */
  const PULSE_US: nat := 40

  /** One observable side effect of the driver, in the order it happens:
      a line driven to a level, a busy wait, a line claimed, a claimed line
      switched to output (driven low), a line given back. */
  datatype Event =
    | Set(pin: Pin, high: bool)
    | Delay(us: nat)
    | Claim(pin: Pin)
    | Output(pin: Pin)
    | Free(pin: Pin)

  /** The mask that selects data bit k of a nibble. */
  function Mask(k: nat): int
    requires k < 4
  {
    [0x1, 0x2, 0x4, 0x8][k]
  }

  /** Whether `v & Mask(k)` is non-zero. The mask sees only the low four
      bits of v, which in two's complement are v % 16 (Dafny's `%` is never
      negative). */
  predicate Bit(v: int, k: nat)
    requires k < 4
  {
    ((v % 16) / Mask(k)) % 2 == 1
  }

  /** `value >> 4` on a C int: an arithmetic shift. */
  function HighNibble(v: int): int
  {
    v / 16
  }

  /** `value & 0xf` on a C int. */
  function LowNibble(v: int): int
  {
    v % 16
  }

  /** What one nibble transmission puts on the bus: register select, the
      four data lines from bit 0 (D4) to bit 3 (D7), then an enable pulse
      held for PULSE_US. */
  function NibbleEvents(reg: Register, v: int): seq<Event>
  {
    [Set(PIN_RS, reg == Data),
     Set(PIN_D4, Bit(v, 0)), Set(PIN_D5, Bit(v, 1)),
     Set(PIN_D6, Bit(v, 2)), Set(PIN_D7, Bit(v, 3)),
     Set(PIN_E, true), Delay(PULSE_US), Set(PIN_E, false)]
  }

  /** What one byte transmission puts on the bus: the high nibble, then
      the low nibble, with the same register select. */
  function ByteEvents(reg: Register, v: int): seq<Event>
  {
    NibbleEvents(reg, HighNibble(v)) + NibbleEvents(reg, LowNibble(v))
  }

  /** The two nibbles of a byte are 4-bit values that recombine into it. */
  lemma NibbleSplit(v: Byte)
    ensures 0 <= HighNibble(v) < 16 && 0 <= LowNibble(v) < 16
    ensures HighNibble(v) * 16 + LowNibble(v) == v
  {
  }

  /** A 4-bit value is its own low nibble. */
  lemma NibbleFits(v: int)
    requires 0 <= v < 16
    ensures v % 16 == v
  {
  }

  /** A byte sent through a signed `char` (values 128..255 read as v - 256)
      produces the same bus events as the unsigned byte. */
  lemma SignedCharSameEvents(reg: Register, v: Byte)
    requires 128 <= v
    ensures ByteEvents(reg, v - 256) == ByteEvents(reg, v)
  {
    var h := HighNibble(v);
    assert HighNibble(v - 256) == h - 16;
    assert (h - 16) % 16 == h % 16;
    assert LowNibble(v - 256) == LowNibble(v);
  }

  /** Concatenation regrouped. */
  lemma Assoc<T>(a: seq<T>, b: seq<T>, c: seq<T>)
    ensures a + b + c == a + (b + c)
  {
  }

  /** A byte transmission that the caller asks for. */
  datatype Frame = Frame(reg: Register, value: int)

  /** The bus events of a sequence of byte transmissions, one after the other. */
  function FramesEvents(fs: seq<Frame>): seq<Event>
  {
    if fs == [] then [] else ByteEvents(fs[0].reg, fs[0].value) + FramesEvents(fs[1..])
  }

  /** Sending two sequences of frames is sending their concatenation. */
  lemma {:induction false} FramesEventsAppend(a: seq<Frame>, b: seq<Frame>)
    ensures FramesEvents(a + b) == FramesEvents(a) + FramesEvents(b)
  {
    if a != [] {
      assert (a + b)[1..] == a[1..] + b;
      FramesEventsAppend(a[1..], b);
    } else {
      assert a + b == b;
    }
  }
}
