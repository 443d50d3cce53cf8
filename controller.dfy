/** The receiving side of the 4-bit bus: the HD44780 latches register
    select and D7..D4 on each falling edge of E. Decoding the driver's
    events this way is the inverse of the framing in module Bus. */
module Controller {
  import opened Bus

  /** The levels of the six lines as the controller sees them. */
  datatype Lines = Lines(rs: bool, e: bool, d4: bool, d5: bool, d6: bool, d7: bool)

  /** A nibble latched by the controller. */
  datatype Nibble = Nibble(reg: Register, value: int)

  /** The lines after `pin` is driven to `high`; other pins are not wired to the controller. */
  function Drive(l: Lines, pin: Pin, high: bool): Lines
  {
    if pin == PIN_RS then l.(rs := high)
    else if pin == PIN_E then l.(e := high)
    else if pin == PIN_D4 then l.(d4 := high)
    else if pin == PIN_D5 then l.(d5 := high)
    else if pin == PIN_D6 then l.(d6 := high)
    else if pin == PIN_D7 then l.(d7 := high)
    else l
  }

  /** The lines after one event; switching a line to output drives it low. */
  function Apply(l: Lines, ev: Event): Lines
  {
    match ev
    case Set(p, h) => Drive(l, p, h)
    case Output(p) => Drive(l, p, false)
    case _ => l
  }

  /** The 4-bit value on D7..D4. */
  function DataValue(l: Lines): int
  {
    (if l.d4 then 1 else 0) + (if l.d5 then 2 else 0) + (if l.d6 then 4 else 0) + (if l.d7 then 8 else 0)
  }

  /** What one event latches: a nibble on a falling edge of E, nothing otherwise. */
  function Latch(l: Lines, ev: Event): seq<Nibble>
  {
    if l.e && !Apply(l, ev).e then [Nibble(if l.rs then Data else Command, DataValue(l))] else []
  }

  /** The nibbles latched over a trace, starting from lines `l`. */
  function Latched(l: Lines, t: seq<Event>): seq<Nibble>
    decreases |t|
  {
    if t == [] then [] else Latch(l, t[0]) + Latched(Apply(l, t[0]), t[1..])
  }

  /** The lines at the end of a trace, starting from lines `l`. */
  function Settle(l: Lines, t: seq<Event>): Lines
    decreases |t|
  {
    if t == [] then l else Settle(Apply(l, t[0]), t[1..])
  }

  /** Decoding a concatenation decodes the first part, then the second from where the first left the lines. */
  lemma {:induction false} LatchedAppend(l: Lines, a: seq<Event>, b: seq<Event>)
    ensures Latched(l, a + b) == Latched(l, a) + Latched(Settle(l, a), b)
    ensures Settle(l, a + b) == Settle(Settle(l, a), b)
    decreases |a|
  {
    if a == [] {
      assert a + b == b;
    } else {
      assert (a + b)[1..] == a[1..] + b;
      LatchedAppend(Apply(l, a[0]), a[1..], b);
    }
  }

  /** A 4-bit value is the weighted sum of its bits. */
  lemma NibbleSum(r: int)
    requires 0 <= r < 16
    ensures r == r % 2 + 2 * ((r / 2) % 2) + 4 * ((r / 4) % 2) + 8 * ((r / 8) % 2)
  {
    assert r == 0 || r == 1 || r == 2 || r == 3 || r == 4 || r == 5 || r == 6 || r == 7
        || r == 8 || r == 9 || r == 10 || r == 11 || r == 12 || r == 13 || r == 14 || r == 15;
  }

  /** The four data lines driven from the bits of v carry v's low nibble. */
  lemma BitsValue(v: int)
    ensures (if Bit(v, 0) then 1 else 0) + (if Bit(v, 1) then 2 else 0)
          + (if Bit(v, 2) then 4 else 0) + (if Bit(v, 3) then 8 else 0) == v % 16
  {
    assert Mask(0) == 1 && Mask(1) == 2 && Mask(2) == 4 && Mask(3) == 8;
    NibbleSum(v % 16);
  }

  /** Decoding a trace that starts with `ev`. */
  lemma LatchedCons(l: Lines, ev: Event, t: seq<Event>)
    ensures Latched(l, [ev] + t) == Latch(l, ev) + Latched(Apply(l, ev), t)
    ensures Settle(l, [ev] + t) == Settle(Apply(l, ev), t)
  {
    assert ([ev] + t)[1..] == t;
  }

  /** Driving a line other than E latches nothing. */
  lemma SetQuiet(l: Lines, p: Pin, h: bool, t: seq<Event>)
    requires p != PIN_E
    ensures Latched(l, [Set(p, h)] + t) == Latched(Drive(l, p, h), t)
    ensures Settle(l, [Set(p, h)] + t) == Settle(Drive(l, p, h), t)
  {
    LatchedCons(l, Set(p, h), t);
  }

  /** Setting register select and the data lines latches nothing and leaves E as it was. */
  lemma SetupLatched(l: Lines, rs: bool, b0: bool, b1: bool, b2: bool, b3: bool)
    ensures var t := [Set(PIN_RS, rs)] + ([Set(PIN_D4, b0)] + ([Set(PIN_D5, b1)] + ([Set(PIN_D6, b2)] + [Set(PIN_D7, b3)])));
      var s := Settle(l, t);
      Latched(l, t) == [] && s.rs == rs && s.e == l.e && s.d4 == b0 && s.d5 == b1 && s.d6 == b2 && s.d7 == b3
  {
    var t4 := [Set(PIN_D7, b3)];
    var t3 := [Set(PIN_D6, b2)] + t4;
    var t2 := [Set(PIN_D5, b1)] + t3;
    var t1 := [Set(PIN_D4, b0)] + t2;
    var s1 := Drive(l, PIN_RS, rs);
    var s2 := Drive(s1, PIN_D4, b0);
    var s3 := Drive(s2, PIN_D5, b1);
    var s4 := Drive(s3, PIN_D6, b2);
    var s5 := Drive(s4, PIN_D7, b3);
    SetQuiet(l, PIN_RS, rs, t1);
    SetQuiet(s1, PIN_D4, b0, t2);
    SetQuiet(s2, PIN_D5, b1, t3);
    SetQuiet(s3, PIN_D6, b2, t4);
    SetQuiet(s4, PIN_D7, b3, []);
    assert s5 == l.(rs := rs, d4 := b0, d5 := b1, d6 := b2, d7 := b3);
  }

  /** An enable pulse latches one nibble: the register select and data lines as they stand. */
  lemma StrobeLatched(l: Lines)
    ensures var t := [Set(PIN_E, true)] + ([Delay(PULSE_US)] + [Set(PIN_E, false)]);
      Latched(l, t) == [Nibble(if l.rs then Data else Command, DataValue(l))] && !Settle(l, t).e
  {
    var s1 := l.(e := true);
    LatchedCons(s1, Set(PIN_E, false), []);
    LatchedCons(s1, Delay(PULSE_US), [Set(PIN_E, false)]);
    LatchedCons(l, Set(PIN_E, true), [Delay(PULSE_US)] + [Set(PIN_E, false)]);
  }

  /** The controller latches exactly one nibble from a nibble transmission,
      with the register select and the low four bits of the value, whatever
      the lines were before; E is low afterwards. */
  lemma NibbleLatched(l: Lines, reg: Register, v: int)
    ensures Latched(l, NibbleEvents(reg, v)) == [Nibble(reg, v % 16)]
    ensures !Settle(l, NibbleEvents(reg, v)).e
  {
    var t := NibbleEvents(reg, v);
    var a := [Set(PIN_RS, reg == Data)] + ([Set(PIN_D4, Bit(v, 0))] + ([Set(PIN_D5, Bit(v, 1))] + ([Set(PIN_D6, Bit(v, 2))] + [Set(PIN_D7, Bit(v, 3))])));
    var b := [Set(PIN_E, true)] + ([Delay(PULSE_US)] + [Set(PIN_E, false)]);
    assert t == a + b;
    LatchedAppend(l, a, b);
    SetupLatched(l, reg == Data, Bit(v, 0), Bit(v, 1), Bit(v, 2), Bit(v, 3));
    StrobeLatched(Settle(l, a));
    BitsValue(v);
  }

  /** The controller latches the high nibble, then the low nibble, of a byte transmission. */
  lemma ByteLatched(l: Lines, reg: Register, v: int)
    ensures Latched(l, ByteEvents(reg, v)) == [Nibble(reg, HighNibble(v) % 16), Nibble(reg, LowNibble(v))]
    ensures !Settle(l, ByteEvents(reg, v)).e
  {
    var a, b := NibbleEvents(reg, HighNibble(v)), NibbleEvents(reg, LowNibble(v));
    var hi, lo := Nibble(reg, HighNibble(v) % 16), Nibble(reg, LowNibble(v));
    LatchedAppend(l, a, b);
    NibbleLatched(l, reg, HighNibble(v));
    NibbleLatched(Settle(l, a), reg, LowNibble(v));
    NibbleFits(LowNibble(v));
    assert Latched(l, a + b) == [hi] + [lo];
    assert [hi] + [lo] == [hi, lo];
  }

  /** The byte transmissions the controller reassembles from latched nibbles, two at a time. */
  function Assemble(ns: seq<Nibble>): seq<Frame>
    decreases |ns|
  {
    if |ns| < 2 then [] else [Frame(ns[0].reg, ns[0].value * 16 + ns[1].value)] + Assemble(ns[2..])
  }

  /** Every frame carries a byte value. */
  predicate ByteFrames(fs: seq<Frame>)
  {
    forall i :: 0 <= i < |fs| ==> 0 <= fs[i].value < 256
  }

  /** Round trip: the controller reassembles exactly the byte frames the
      driver sent, from any starting line levels. */
  lemma {:induction false} FramesRoundTrip(l: Lines, fs: seq<Frame>)
    requires ByteFrames(fs)
    ensures Assemble(Latched(l, FramesEvents(fs))) == fs
    decreases |fs|
  {
    if fs != [] {
      var a, rest := ByteEvents(fs[0].reg, fs[0].value), FramesEvents(fs[1..]);
      FrameLatched(l, fs[0], rest);
      assert ByteFrames(fs[1..]) by {
        forall i | 0 <= i < |fs[1..]| ensures 0 <= fs[1..][i].value < 256 {
          assert fs[1..][i] == fs[i + 1];
        }
      }
      FramesRoundTrip(Settle(l, a), fs[1..]);
    }
  }

  /** The controller reassembles a byte frame from its transmission, whatever follows it. */
  lemma FrameLatched(l: Lines, f: Frame, rest: seq<Event>)
    requires 0 <= f.value < 256
    ensures var a := ByteEvents(f.reg, f.value);
      Assemble(Latched(l, a + rest)) == [f] + Assemble(Latched(Settle(l, a), rest))
  {
    var a := ByteEvents(f.reg, f.value);
    var l2 := Settle(l, a);
    var hi, lo := Nibble(f.reg, HighNibble(f.value) % 16), Nibble(f.reg, LowNibble(f.value));
    calc {
      Assemble(Latched(l, a + rest));
      { LatchedAppend(l, a, rest); ByteLatched(l, f.reg, f.value); }
      Assemble([hi, lo] + Latched(l2, rest));
      { AssembleCons(hi, lo, Latched(l2, rest)); }
      [Frame(f.reg, hi.value * 16 + lo.value)] + Assemble(Latched(l2, rest));
      { NibbleSplit(f.value);
        assert hi.value == HighNibble(f.value);
        assert hi.value * 16 + lo.value == f.value; }
      [f] + Assemble(Latched(l2, rest));
    }
  }

  /** Reassembly takes the first two nibbles as one byte. */
  lemma AssembleCons(hi: Nibble, lo: Nibble, ns: seq<Nibble>)
    ensures Assemble([hi, lo] + ns) == [Frame(hi.reg, hi.value * 16 + lo.value)] + Assemble(ns)
  {
    assert ([hi, lo] + ns)[2..] == ns;
  }

  /** Byte frames concatenate to byte frames. */
  lemma ByteFramesAppend(a: seq<Frame>, b: seq<Frame>)
    requires ByteFrames(a) && ByteFrames(b)
    ensures ByteFrames(a + b)
  {
    forall i | 0 <= i < |a + b| ensures 0 <= (a + b)[i].value < 256 {
      if i < |a| { assert (a + b)[i] == a[i]; } else { assert (a + b)[i] == b[i - |a|]; }
    }
  }

  /** Reassembly works pairwise, so an even-length prefix reassembles on its own. */
  lemma {:induction false} AssembleAppend(a: seq<Nibble>, b: seq<Nibble>)
    requires |a| % 2 == 0
    ensures Assemble(a + b) == Assemble(a) + Assemble(b)
    decreases |a|
  {
    if a == [] {
      assert a + b == b;
    } else {
      assert (a + b)[2..] == a[2..] + b;
      assert (a + b)[0] == a[0] && (a + b)[1] == a[1];
      AssembleAppend(a[2..], b);
      Assoc([Frame(a[0].reg, a[0].value * 16 + a[1].value)], Assemble(a[2..]), Assemble(b));
    }
  }

  /** A wait after a trace latches nothing and leaves the lines as they were. */
  lemma DelaySnoc(l: Lines, x: seq<Event>, d: nat)
    ensures Latched(l, x + [Delay(d)]) == Latched(l, x)
    ensures Settle(l, x + [Delay(d)]) == Settle(l, x)
  {
    LatchedAppend(l, x, [Delay(d)]);
    LatchedCons(Settle(l, x), Delay(d), []);
    assert [Delay(d)] + [] == [Delay(d)];
  }

  /** A nibble transmission after a trace adds its nibble to what is latched. */
  lemma NibbleSnoc(l: Lines, x: seq<Event>, reg: Register, v: int)
    ensures Latched(l, x + NibbleEvents(reg, v)) == Latched(l, x) + [Nibble(reg, v % 16)]
  {
    LatchedAppend(l, x, NibbleEvents(reg, v));
    NibbleLatched(Settle(l, x), reg, v);
  }

  /** Events after a trace that latch one more pair of nibbles add one
      reassembled frame, and keep the nibbles paired. */
  lemma PairSnoc(l: Lines, x: seq<Event>, y: seq<Event>, hi: Nibble, lo: Nibble)
    requires |Latched(l, x)| % 2 == 0 && Latched(Settle(l, x), y) == [hi, lo]
    ensures Assemble(Latched(l, x + y)) == Assemble(Latched(l, x)) + [Frame(hi.reg, hi.value * 16 + lo.value)]
    ensures |Latched(l, x + y)| % 2 == 0
  {
    var a := Latched(l, x);
    LatchedAppend(l, x, y);
    calc {
      Assemble(Latched(l, x + y));
      Assemble(a + [hi, lo]);
      { AssembleAppend(a, [hi, lo]); }
      Assemble(a) + Assemble([hi, lo]);
      { AssemblePair(hi, lo); }
      Assemble(a) + [Frame(hi.reg, hi.value * 16 + lo.value)];
    }
  }

  /** Two nibbles reassemble into one frame. */
  lemma AssemblePair(hi: Nibble, lo: Nibble)
    ensures Assemble([hi, lo]) == [Frame(hi.reg, hi.value * 16 + lo.value)]
  {
    assert [hi, lo][2..] == [];
  }

  /** A byte transmission after a trace whose nibbles pair up adds its frame
      to what the controller reassembles, and keeps the nibbles paired. */
  lemma ByteSnoc(l: Lines, x: seq<Event>, f: Frame)
    requires 0 <= f.value < 256 && |Latched(l, x)| % 2 == 0
    ensures Assemble(Latched(l, x + ByteEvents(f.reg, f.value))) == Assemble(Latched(l, x)) + [f]
    ensures |Latched(l, x + ByteEvents(f.reg, f.value))| % 2 == 0
  {
    var hi, lo := Nibble(f.reg, HighNibble(f.value) % 16), Nibble(f.reg, LowNibble(f.value));
    ByteLatched(Settle(l, x), f.reg, f.value);
    PairSnoc(l, x, ByteEvents(f.reg, f.value), hi, lo);
    NibbleSplit(f.value);
    NibbleFits(HighNibble(f.value));
  }


}
