/** The driver: pin ownership, the nibble and byte transmitters, the
    controller initialisation, release of the pins, and the text writer.
    Every side effect is recorded, in order, in the `trace` of an Lcd. */
module Driver {
  import opened Bus
  import opened Controller
  import opened Writer

  /** The error number returned for a failed initialisation (as -EIO). */
  const EIO: int := 5

  function Min(a: nat, b: nat): nat
  {
    if a < b then a else b
  }

  /** The first k pins of the claim order, as a set. */
  function FirstPins(k: nat): set<Pin>
    requires k <= |LCD_PINS|
  {
    if k == 0 then {} else FirstPins(k - 1) + {LCD_PINS[k - 1]}
  }

  /** A pin is among the first k exactly when it sits at an index below k. */
  lemma {:induction false} FirstPinsIndex(k: nat, q: Pin)
    requires k <= |LCD_PINS|
    ensures q in FirstPins(k) <==> exists i :: 0 <= i < k && LCD_PINS[i] == q
  {
    if k > 0 {
      FirstPinsIndex(k - 1, q);
    }
  }

  /** The kernel's isprint table agrees with ASCII on bytes below 0x80. */
  ghost predicate AsciiPrintable(printable: set<Byte>)
  {
    forall b: Byte :: b < 0x80 ==> (b in printable <==> 0x20 <= b < 0x7F)
  }

  /** Whether claiming pin p for output fails: it is already claimed, the
      platform refuses the request, or it refuses output direction. */
  predicate Refused(claimed: set<Pin>, requestRefused: set<Pin>, directionRefused: set<Pin>, p: Pin)
  {
    p in claimed || p in requestRefused || p in directionRefused
  }

  /** The index of the first pin of ps whose claim fails, or |ps| if none does. */
  function FirstRefused(claimed: set<Pin>, requestRefused: set<Pin>, directionRefused: set<Pin>, ps: seq<Pin>): (k: nat)
    ensures k <= |ps|
    ensures forall i :: 0 <= i < k ==> !Refused(claimed, requestRefused, directionRefused, ps[i])
    ensures k < |ps| ==> Refused(claimed, requestRefused, directionRefused, ps[k])
  {
    if ps == [] then 0
    else if Refused(claimed, requestRefused, directionRefused, ps[0]) then 0
    else 1 + FirstRefused(claimed, requestRefused, directionRefused, ps[1..])
  }

  /** The events of claiming the first k pins in turn: claimed, then switched to output. */
  function ClaimEvents(k: nat): seq<Event>
    requires k <= |LCD_PINS|
  {
    if k == 0 then [] else ClaimEvents(k - 1) + [Claim(LCD_PINS[k - 1]), Output(LCD_PINS[k - 1])]
  }

  /** The events of releasing the first k pins, last claimed first. */
  function FreeEvents(k: nat): seq<Event>
    requires k <= |LCD_PINS|
  {
    if k == 0 then [] else [Free(LCD_PINS[k - 1])] + FreeEvents(k - 1)
  }

  /** The events of one attempt to claim pin p for output. */
  function AttemptEvents(claimed: set<Pin>, p: Pin, requestRefused: bool, directionRefused: bool): seq<Event>
  {
    if p in claimed || requestRefused then []
    else if directionRefused then [Claim(p), Free(p)]
    else [Claim(p), Output(p)]
  }

  /** The wake-up part of the initialisation: three 0x3 nibbles and a 0x2
      nibble, as commands, with the waits between them. */
  function WakeEvents(): seq<Event>
  {
    [Delay(15000)] + NibbleEvents(Command, 0x3) + [Delay(5000)] + NibbleEvents(Command, 0x3)
    + [Delay(100)] + NibbleEvents(Command, 0x3) + [Delay(5000)] + NibbleEvents(Command, 0x2) + [Delay(5000)]
  }

  /** The 4-bit part of the initialisation: function set (4 bits, 2 lines, 5x8
      font), clear, display on, row 2, then "Hi". */
  function ConfigEvents(): seq<Event>
  {
    ByteEvents(Command, 0x28) + [Delay(2000)] + ByteEvents(Command, 0x01) + [Delay(2000)]
    + ByteEvents(Command, 0x0C) + ByteEvents(Command, 0xC0) + ByteEvents(Data, 'H' as int) + ByteEvents(Data, 'i' as int)
  }

  /** The frames the controller receives after the wake-up nibbles. */
  const INIT_FRAMES: seq<Frame> :=
    [Frame(Command, 0x28), Frame(Command, 0x01), Frame(Command, 0x0C),
     Frame(Command, 0xC0), Frame(Data, 'H' as int), Frame(Data, 'i' as int)]

  /** What display_init emits, given which claims fail: on success the six
      claims, then the initialisation sequence; on a failed claim the claims
      before it, the failed attempt, and their release in reverse order. */
  function InitTrace(claimed: set<Pin>, requestRefused: set<Pin>, directionRefused: set<Pin>): seq<Event>
  {
    var k := FirstRefused(claimed, requestRefused, directionRefused, LCD_PINS);
    if k == |LCD_PINS| then ClaimEvents(k) + WakeEvents() + ConfigEvents()
    else ClaimEvents(k)
         + AttemptEvents(claimed, LCD_PINS[k], LCD_PINS[k] in requestRefused, LCD_PINS[k] in directionRefused)
         + FreeEvents(k)
  }

  /** The outcome display_init promises from claimed set c0 and trace t0:
      0 exactly when no claim is refused, and then all six pins are claimed;
      -EIO otherwise, with the claimed set as it was; the trace extended by
      InitTrace in both cases. */
  predicate InitOutcome(c0: set<Pin>, t0: seq<Event>, requestRefused: set<Pin>, directionRefused: set<Pin>,
                        r: int, c: set<Pin>, t: seq<Event>)
  {
    && r == (if FirstRefused(c0, requestRefused, directionRefused, LCD_PINS) == |LCD_PINS| then 0 else -EIO)
    && c == (if r == 0 then c0 + FirstPins(|LCD_PINS|) else c0)
    && t == t0 + InitTrace(c0, requestRefused, directionRefused)
  }

  /** A prefix of granted claims that ends at a refused one, or at the end, gives FirstRefused. */
  lemma FirstRefusedIs(claimed: set<Pin>, requestRefused: set<Pin>, directionRefused: set<Pin>, ps: seq<Pin>, j: nat)
    requires j <= |ps|
    requires forall i :: 0 <= i < j ==> !Refused(claimed, requestRefused, directionRefused, ps[i])
    requires j < |ps| ==> Refused(claimed, requestRefused, directionRefused, ps[j])
    ensures FirstRefused(claimed, requestRefused, directionRefused, ps) == j
  {
  }


  /** The state of display_init after its first j claims, starting from
      claimed set c0 and trace t0, have succeeded: claimed set c, trace t. */
  predicate ClaimsDone(c0: set<Pin>, t0: seq<Event>, requestRefused: set<Pin>, directionRefused: set<Pin>,
                       j: nat, c: set<Pin>, t: seq<Event>)
  {
    j <= |LCD_PINS|
    && (forall i :: 0 <= i < j ==> !Refused(c0, requestRefused, directionRefused, LCD_PINS[i]))
    && c == c0 + FirstPins(j)
    && t == t0 + ClaimEvents(j)
  }

  /** The pin claimed at step j is not among those claimed before it. */
  lemma NextPinFresh(j: nat)
    requires j < |LCD_PINS|
    ensures LCD_PINS[j] !in FirstPins(j)
  {
    FirstPinsIndex(j, LCD_PINS[j]);
    assert j == 0 || j == 1 || j == 2 || j == 3 || j == 4 || j == 5;
  }

  /** A granted claim at step j completes the first j + 1 claims. */
  lemma ClaimGranted(c0: set<Pin>, t0: seq<Event>, requestRefused: set<Pin>, directionRefused: set<Pin>,
                     j: nat, c: set<Pin>, t: seq<Event>)
    requires j < |LCD_PINS| && ClaimsDone(c0, t0, requestRefused, directionRefused, j, c, t)
    requires !Refused(c0, requestRefused, directionRefused, LCD_PINS[j])
    ensures ClaimsDone(c0, t0, requestRefused, directionRefused, j + 1,
                       c + {LCD_PINS[j]}, t + [Claim(LCD_PINS[j]), Output(LCD_PINS[j])])
  {
    Assoc(t0, ClaimEvents(j), [Claim(LCD_PINS[j]), Output(LCD_PINS[j])]);
  }

  /** A refused claim at step j, followed by the release of the first j
      pins, gives back the claimed set and the trace display_init promises
      for a failure. */
  lemma ClaimRefused(c0: set<Pin>, t0: seq<Event>, requestRefused: set<Pin>, directionRefused: set<Pin>,
                     j: nat, c: set<Pin>, t: seq<Event>)
    requires j < |LCD_PINS| && ClaimsDone(c0, t0, requestRefused, directionRefused, j, c, t)
    requires Refused(c0, requestRefused, directionRefused, LCD_PINS[j])
    ensures var p := LCD_PINS[j];
      InitOutcome(c0, t0, requestRefused, directionRefused, -EIO, c - FirstPins(j),
                  t + AttemptEvents(c, p, p in requestRefused, p in directionRefused) + FreeEvents(j))
  {
    var p := LCD_PINS[j];
    NextPinFresh(j);
    FirstRefusedIs(c0, requestRefused, directionRefused, LCD_PINS, j);
    forall q | q in FirstPins(j) ensures q !in c0 {
      FirstPinsIndex(j, q);
      var i :| 0 <= i < j && LCD_PINS[i] == q;
      assert !Refused(c0, requestRefused, directionRefused, LCD_PINS[i]);
    }
    var at := AttemptEvents(c0, p, p in requestRefused, p in directionRefused);
    assert AttemptEvents(c, p, p in requestRefused, p in directionRefused) == at;
    Assoc(t0, ClaimEvents(j), at);
    Assoc(t0, ClaimEvents(j) + at, FreeEvents(j));
  }

  /** Once all six claims are done, appending the initialisation sequence
      gives the outcome display_init promises on success. */
  lemma AllClaimed(c0: set<Pin>, t0: seq<Event>, requestRefused: set<Pin>, directionRefused: set<Pin>,
                   c: set<Pin>, t1: seq<Event>, t: seq<Event>)
    requires ClaimsDone(c0, t0, requestRefused, directionRefused, |LCD_PINS|, c, t1)
    requires t == t1 + WakeEvents() + ConfigEvents()
    ensures InitOutcome(c0, t0, requestRefused, directionRefused, 0, c, t)
  {
    FirstRefusedIs(c0, requestRefused, directionRefused, LCD_PINS, |LCD_PINS|);
    Assoc(t0, ClaimEvents(|LCD_PINS|), WakeEvents());
    Assoc(t0, ClaimEvents(|LCD_PINS|) + WakeEvents(), ConfigEvents());
  }

  /** Claims go in the claim order: event 2i claims pin i, event 2i + 1 switches it to output. */
  lemma {:induction false} ClaimOrder(k: nat)
    requires k <= |LCD_PINS|
    ensures |ClaimEvents(k)| == 2 * k
    ensures forall i :: 0 <= i < k ==>
      ClaimEvents(k)[2 * i] == Claim(LCD_PINS[i]) && ClaimEvents(k)[2 * i + 1] == Output(LCD_PINS[i])
  {
    if k > 0 {
      ClaimOrder(k - 1);
    }
  }

  /** Releases go in the reverse claim order: event i frees pin k - 1 - i. */
  lemma {:induction false} FreeOrder(k: nat)
    requires k <= |LCD_PINS|
    ensures |FreeEvents(k)| == k
    ensures forall i :: 0 <= i < k ==> FreeEvents(k)[i] == Free(LCD_PINS[k - 1 - i])
  {
    if k > 0 {
      FreeOrder(k - 1);
    }
  }

  /** All six pins of the claim order. */
  lemma AllPins()
    ensures FirstPins(|LCD_PINS|) == {PIN_RS, PIN_E, PIN_D7, PIN_D6, PIN_D5, PIN_D4}
  {
    assert FirstPins(1) == {PIN_RS};
    assert FirstPins(2) == {PIN_RS, PIN_E};
    assert FirstPins(3) == {PIN_RS, PIN_E, PIN_D7};
    assert FirstPins(4) == {PIN_RS, PIN_E, PIN_D7, PIN_D6};
    assert FirstPins(5) == {PIN_RS, PIN_E, PIN_D7, PIN_D6, PIN_D5};
  }

  /** Sending one more frame after the frames fs extends the trace by its byte transmission. */
  lemma SendOne(t: seq<Event>, fs: seq<Frame>, f: Frame)
    ensures t + FramesEvents(fs) + ByteEvents(f.reg, f.value) == t + FramesEvents(fs + [f])
  {
    FramesEventsAppend(fs, [f]);
    SingleFrame(f);
    Assoc(t, FramesEvents(fs), ByteEvents(f.reg, f.value));
  }

  /** Sending frames vs after frames fs extends the trace by their transmissions. */
  lemma SendMany(t: seq<Event>, fs: seq<Frame>, vs: seq<Frame>)
    ensures t + FramesEvents(fs) + FramesEvents(vs) == t + FramesEvents(fs + vs)
  {
    FramesEventsAppend(fs, vs);
    Assoc(t, FramesEvents(fs), FramesEvents(vs));
  }

  lemma SingleFrame(f: Frame)
    ensures FramesEvents([f]) == ByteEvents(f.reg, f.value)
  {
    assert [f][1..] == [];
  }

  /** Four 4-bit command nibbles separated by waits are latched as those four nibbles. */
  lemma FourNibblesLatched(l: Lines, t: seq<Event>, d0: nat, d1: nat, d2: nat, d3: nat, d4: nat, a: int, b: int, c: int, e: int)
    requires 0 <= a < 16 && 0 <= b < 16 && 0 <= c < 16 && 0 <= e < 16
    requires t == [Delay(d0)] + NibbleEvents(Command, a) + [Delay(d1)] + NibbleEvents(Command, b)
                  + [Delay(d2)] + NibbleEvents(Command, c) + [Delay(d3)] + NibbleEvents(Command, e) + [Delay(d4)]
    ensures Latched(l, t) == [Nibble(Command, a), Nibble(Command, b), Nibble(Command, c), Nibble(Command, e)]
  {
    var ma, mb, mc, me := Nibble(Command, a), Nibble(Command, b), Nibble(Command, c), Nibble(Command, e);
    NibbleFits(a); NibbleFits(b); NibbleFits(c); NibbleFits(e);
    var x0 := [Delay(d0)];
    assert [] + x0 == x0;
    DelaySnoc(l, [], d0);
    var x1 := x0 + NibbleEvents(Command, a);
    NibbleSnoc(l, x0, Command, a);
    var x2 := x1 + [Delay(d1)];
    DelaySnoc(l, x1, d1);
    var x3 := x2 + NibbleEvents(Command, b);
    NibbleSnoc(l, x2, Command, b);
    var x4 := x3 + [Delay(d2)];
    DelaySnoc(l, x3, d2);
    var x5 := x4 + NibbleEvents(Command, c);
    NibbleSnoc(l, x4, Command, c);
    var x6 := x5 + [Delay(d3)];
    DelaySnoc(l, x5, d3);
    var x7 := x6 + NibbleEvents(Command, e);
    NibbleSnoc(l, x6, Command, e);
    DelaySnoc(l, x7, d4);
    assert [] + [ma] + [mb] + [mc] + [me] == [ma, mb, mc, me];
  }

  /** The controller latches the wake-up sequence as three 0x3 nibbles and
      a 0x2 nibble, all for the command register, whatever the lines were. */
  lemma WakeDecodes(l: Lines)
    ensures Latched(l, WakeEvents())
         == [Nibble(Command, 0x3), Nibble(Command, 0x3), Nibble(Command, 0x3), Nibble(Command, 0x2)]
  {
    FourNibblesLatched(l, WakeEvents(), 15000, 5000, 100, 5000, 5000, 0x3, 0x3, 0x3, 0x2);
  }

  /** Six byte transmissions, with waits after the first two, are
      reassembled as those six frames. */
  lemma SixFramesAssembled(l: Lines, t: seq<Event>, d0: nat, d1: nat,
                           f1: Frame, f2: Frame, f3: Frame, f4: Frame, f5: Frame, f6: Frame)
    requires 0 <= f1.value < 256 && 0 <= f2.value < 256 && 0 <= f3.value < 256
    requires 0 <= f4.value < 256 && 0 <= f5.value < 256 && 0 <= f6.value < 256
    requires t == ByteEvents(f1.reg, f1.value) + [Delay(d0)] + ByteEvents(f2.reg, f2.value) + [Delay(d1)]
                  + ByteEvents(f3.reg, f3.value) + ByteEvents(f4.reg, f4.value)
                  + ByteEvents(f5.reg, f5.value) + ByteEvents(f6.reg, f6.value)
    ensures Assemble(Latched(l, t)) == [f1, f2, f3, f4, f5, f6]
  {
    var x1 := ByteEvents(f1.reg, f1.value);
    assert [] + x1 == x1;
    ByteSnoc(l, [], f1);
    var x2 := x1 + [Delay(d0)];
    DelaySnoc(l, x1, d0);
    var x3 := x2 + ByteEvents(f2.reg, f2.value);
    ByteSnoc(l, x2, f2);
    var x4 := x3 + [Delay(d1)];
    DelaySnoc(l, x3, d1);
    var x5 := x4 + ByteEvents(f3.reg, f3.value);
    ByteSnoc(l, x4, f3);
    var x6 := x5 + ByteEvents(f4.reg, f4.value);
    ByteSnoc(l, x5, f4);
    var x7 := x6 + ByteEvents(f5.reg, f5.value);
    ByteSnoc(l, x6, f5);
    ByteSnoc(l, x7, f6);
    assert Assemble(Latched(l, [])) == [];
    SixJoin(f1, f2, f3, f4, f5, f6);
  }

  /** Six frames appended one at a time form the six-frame list; kept out
      of SixFramesAssembled to keep that proof small. */
  lemma SixJoin<T>(a: T, b: T, c: T, d: T, e: T, f: T)
    ensures [] + [a] + [b] + [c] + [d] + [e] + [f] == [a, b, c, d, e, f]
  {
  }

  /** After the wake-up nibbles, the controller reassembles the 4-bit part
      of the initialisation as the frames INIT_FRAMES, whatever the lines were. */
  lemma ConfigDecodes(l: Lines)
    ensures Assemble(Latched(l, ConfigEvents())) == INIT_FRAMES
  {
    SixFramesAssembled(l, ConfigEvents(), 2000, 2000,
                       Frame(Command, 0x28), Frame(Command, 0x01), Frame(Command, 0x0C),
                       Frame(Command, 0xC0), Frame(Data, 'H' as int), Frame(Data, 'i' as int));
  }

  /** Data frames carry bytes. */
  lemma {:induction false} DataFramesBytes(bs: seq<Byte>)
    ensures ByteFrames(DataFrames(bs))
  {
    if bs != [] {
      DataFramesBytes(bs[1..]);
      ByteFramesAppend([Frame(Data, bs[0])], DataFrames(bs[1..]));
    }
  }

  /** The layout of a write carries bytes only. */
  lemma LayoutBytes(p: seq<Byte>, printable: set<Byte>)
    ensures ByteFrames(Layout(p, printable))
  {
    if |p| < COLUMNS {
      DataFramesBytes(Printables(p, printable));
    } else {
      var a, b := DataFrames(Printables(p[..COLUMNS], printable)), DataFrames(Printables(p[COLUMNS..], printable));
      DataFramesBytes(Printables(p[..COLUMNS], printable));
      DataFramesBytes(Printables(p[COLUMNS..], printable));
      ByteFramesAppend(a, [Frame(Command, SET_ROW2)]);
      ByteFramesAppend(a + [Frame(Command, SET_ROW2)], b);
    }
  }

  /** What a write puts on the bus is read back by the controller as the
      row-1 address followed by the layout of the text, whatever the lines were. */
  lemma WriteDecodes(l: Lines, p: seq<Byte>, printable: set<Byte>)
    ensures var fs := [Frame(Command, SET_ROW1)] + Layout(p, printable);
      Assemble(Latched(l, FramesEvents(fs))) == fs
  {
    LayoutBytes(p, printable);
    ByteFramesAppend([Frame(Command, SET_ROW1)], Layout(p, printable));
    FramesRoundTrip(l, [Frame(Command, SET_ROW1)] + Layout(p, printable));
  }

  /** Claiming pins emits only claims and switches to output. */
  lemma {:induction false} ClaimEventsOnlyPins(k: nat)
    requires k <= |LCD_PINS|
    ensures forall e :: e in ClaimEvents(k) ==> e.Claim? || e.Output?
  {
    if k > 0 {
      ClaimEventsOnlyPins(k - 1);
    }
  }

  /** Releasing pins emits only releases. */
  lemma {:induction false} FreeEventsOnlyPins(k: nat)
    requires k <= |LCD_PINS|
    ensures forall e :: e in FreeEvents(k) ==> e.Free?
  {
    if k > 0 {
      FreeEventsOnlyPins(k - 1);
    }
  }

  /** When a claim fails, display_init never calls gpio_set_value, NibbleWrite,
      LcdWrite, msleep or udelay: its events are pin claims, switches to
      output and releases only. A switch to output still drives the line
      low, so it can be a falling edge of E. */
  lemma InitFailureQuiet(claimed: set<Pin>, requestRefused: set<Pin>, directionRefused: set<Pin>)
    requires FirstRefused(claimed, requestRefused, directionRefused, LCD_PINS) < |LCD_PINS|
    ensures forall e :: e in InitTrace(claimed, requestRefused, directionRefused) ==> !e.Set? && !e.Delay?
  {
    var k := FirstRefused(claimed, requestRefused, directionRefused, LCD_PINS);
    ClaimEventsOnlyPins(k);
    FreeEventsOnlyPins(k);
  }

  /** A second display_init while all six lines are still claimed fails at
      the first claim and emits nothing: the first initialisation's lines
      and the trace are left as they were. */
  lemma InitTwiceFails(claimed: set<Pin>, trace: seq<Event>, requestRefused: set<Pin>, directionRefused: set<Pin>)
    requires FirstPins(|LCD_PINS|) <= claimed
    ensures FirstRefused(claimed, requestRefused, directionRefused, LCD_PINS) == 0
    ensures InitTrace(claimed, requestRefused, directionRefused) == []
    ensures InitOutcome(claimed, trace, requestRefused, directionRefused, -EIO, claimed, trace)
  {
    AllPins();
    assert PIN_RS in claimed;
    assert Refused(claimed, requestRefused, directionRefused, LCD_PINS[0]);
  }

  /** Appending nine pieces one by one appends their concatenation. */
  lemma Regroup9<T>(t: seq<T>, a: seq<T>, b: seq<T>, c: seq<T>, d: seq<T>, e: seq<T>, f: seq<T>, g: seq<T>, h: seq<T>, i: seq<T>)
    ensures t + a + b + c + d + e + f + g + h + i == t + (a + b + c + d + e + f + g + h + i)
  {
    Regroup8(t, a, b, c, d, e, f, g, h);
    Assoc(t, a + b + c + d + e + f + g + h, i);
  }

  /** Appending eight pieces one by one appends their concatenation. */
  lemma Regroup8<T>(t: seq<T>, a: seq<T>, b: seq<T>, c: seq<T>, d: seq<T>, e: seq<T>, f: seq<T>, g: seq<T>, h: seq<T>)
    ensures t + a + b + c + d + e + f + g + h == t + (a + b + c + d + e + f + g + h)
  {
    Assoc(t, a, b);
    Assoc(t, a + b, c);
    Assoc(t, a + b + c, d);
    Assoc(t, a + b + c + d, e);
    Assoc(t, a + b + c + d + e, f);
    Assoc(t, a + b + c + d + e + f, g);
    Assoc(t, a + b + c + d + e + f + g, h);
  }

  class Lcd {
    /** Every side effect so far, in order. */
    var trace: seq<Event>
    /** The GPIO lines currently claimed, by anyone. */
    var claimed: set<Pin>
    /** The static text buffer; it keeps its contents between writes. */
    const textbuffer: array<Byte>
    /** The bytes the kernel's isprint accepts. */
    const printable: set<Byte>

    ghost predicate Valid()
      reads this
    {
      textbuffer.Length == BUFFER_SIZE && AsciiPrintable(printable)
    }

    /** The state at module load: nothing emitted yet, the lines in `held`
        claimed by other code, the static buffer zeroed. */
    constructor (printable: set<Byte>, held: set<Pin>)
      requires AsciiPrintable(printable)
      ensures Valid() && fresh(textbuffer)
      ensures trace == [] && claimed == held && this.printable == printable
      ensures textbuffer[..] == Zeros(BUFFER_SIZE)
    {
      trace := [];
      claimed := held;
      textbuffer := new Byte[BUFFER_SIZE](_ => 0);
      this.printable := printable;
    }

    /** gpio_set_value: a non-zero level drives the line high. */
    method GpioSetValue(pin: Pin, high: bool)
      modifies this
      ensures trace == old(trace) + [Set(pin, high)] && claimed == old(claimed)
    {
      trace := trace + [Set(pin, high)];
    }

    /** udelay */
    method Udelay(us: nat)
      modifies this
      ensures trace == old(trace) + [Delay(us)] && claimed == old(claimed)
    {
      trace := trace + [Delay(us)];
    }

    /** msleep, recorded in microseconds. */
    method Msleep(ms: nat)
      modifies this
      ensures trace == old(trace) + [Delay(ms * 1000)] && claimed == old(claimed)
    {
      trace := trace + [Delay(ms * 1000)];
    }

    /** gpio_request: fails on a pin already claimed, or when the platform refuses. */
    method GpioRequest(nr: Pin, refused: bool) returns (err: bool)
      modifies this
      ensures err == (nr in old(claimed) || refused)
      ensures !err ==> claimed == old(claimed) + {nr} && trace == old(trace) + [Claim(nr)]
      ensures err ==> claimed == old(claimed) && trace == old(trace)
    {
      err := nr in claimed || refused;
      if !err {
        claimed := claimed + {nr};
        trace := trace + [Claim(nr)];
      }
    }

    /** gpio_direction_output(nr, 0): fails when the platform refuses. */
    method GpioDirectionOutput(nr: Pin, refused: bool) returns (err: bool)
      modifies this
      ensures err == refused && claimed == old(claimed)
      ensures trace == old(trace) + if err then [] else [Output(nr)]
    {
      err := refused;
      if !err {
        trace := trace + [Output(nr)];
      }
    }

    /** gpio_free */
    method GpioFree(nr: Pin)
      modifies this
      ensures claimed == old(claimed) - {nr} && trace == old(trace) + [Free(nr)]
    {
      claimed := claimed - {nr};
      trace := trace + [Free(nr)];
    }

    /** NibbleWrite: register select, D4..D7 from bits 0..3, then the enable pulse. */
    method NibbleWrite(reg: Register, value: int)
      modifies this
      ensures trace == old(trace) + NibbleEvents(reg, value) && claimed == old(claimed)
    {
      GpioSetValue(PIN_RS, reg == Data);
      GpioSetValue(PIN_D4, Bit(value, 0));
      GpioSetValue(PIN_D5, Bit(value, 1));
      GpioSetValue(PIN_D6, Bit(value, 2));
      GpioSetValue(PIN_D7, Bit(value, 3));
      GpioSetValue(PIN_E, true);
      Udelay(PULSE_US);
      GpioSetValue(PIN_E, false);
    }

    /** LcdWrite: the high nibble, then the low nibble. */
    method LcdWrite(reg: Register, value: int)
      modifies this
      ensures trace == old(trace) + ByteEvents(reg, value) && claimed == old(claimed)
    {
      NibbleWrite(reg, HighNibble(value));
      NibbleWrite(reg, LowNibble(value));
    }

    /** gpio_request_output: 0 when the pin is claimed and set to output; -1
        otherwise, and then nothing new stays claimed. */
    method GpioRequestOutput(nr: Pin, requestRefused: bool, directionRefused: bool) returns (r: int)
      modifies this
      ensures r == (if nr in old(claimed) || requestRefused || directionRefused then -1 else 0)
      ensures claimed == if r == 0 then old(claimed) + {nr} else old(claimed)
      ensures trace == old(trace) + AttemptEvents(old(claimed), nr, requestRefused, directionRefused)
    {
      var err := GpioRequest(nr, requestRefused);
      if err {
        return -1;
      }
      err := GpioDirectionOutput(nr, directionRefused);
      if err {
        GpioFree(nr);
        return -1;
      }
      return 0;
    }

    /** The release chain of display_init entered after k pins were claimed:
        frees them, last claimed first. */
    method Unwind(k: nat)
      requires k <= |LCD_PINS|
      modifies this
      ensures trace == old(trace) + FreeEvents(k)
      ensures claimed == old(claimed) - FirstPins(k)
      decreases k
    {
      if k > 0 {
        GpioFree(LCD_PINS[k - 1]);
        Unwind(k - 1);
      }
    }

    /** The wake-up part of display_init, once all pins are claimed: three
        0x3 nibbles and a 0x2 nibble, as commands, with the waits the
        controller needs between them. */
    method WakeUp()
      modifies this
      ensures trace == old(trace) + WakeEvents() && claimed == old(claimed)
    {
      ghost var t1 := trace;
      Msleep(15);
      NibbleWrite(Command, 0x3);
      Msleep(5);
      NibbleWrite(Command, 0x3);
      Udelay(100);
      NibbleWrite(Command, 0x3);
      Msleep(5);
      NibbleWrite(Command, 0x2);
      Msleep(5);
      ghost var n3, n2 := NibbleEvents(Command, 0x3), NibbleEvents(Command, 0x2);
      calc {
        trace;
        t1 + [Delay(15000)] + n3 + [Delay(5000)] + n3 + [Delay(100)] + n3 + [Delay(5000)] + n2 + [Delay(5000)];
        { Regroup9(t1, [Delay(15000)], n3, [Delay(5000)], n3, [Delay(100)], n3, [Delay(5000)], n2, [Delay(5000)]); }
        t1 + WakeEvents();
      }
    }

    /** The 4-bit part of display_init: function set, clear, display on,
        row 2, then "Hi" as data. */
    method Configure()
      modifies this
      ensures trace == old(trace) + ConfigEvents() && claimed == old(claimed)
    {
      ghost var t2 := trace;
      LcdWrite(Command, 0x28);
      Msleep(2);
      LcdWrite(Command, 0x01);
      Msleep(2);
      LcdWrite(Command, 0x0C);
      LcdWrite(Command, 0xC0);
      LcdWrite(Data, 'H' as int);
      LcdWrite(Data, 'i' as int);
      ghost var b28, b01, b0c := ByteEvents(Command, 0x28), ByteEvents(Command, 0x01), ByteEvents(Command, 0x0C);
      ghost var bc0, bh, bi := ByteEvents(Command, 0xC0), ByteEvents(Data, 'H' as int), ByteEvents(Data, 'i' as int);
      calc {
        trace;
        t2 + b28 + [Delay(2000)] + b01 + [Delay(2000)] + b0c + bc0 + bh + bi;
        { Regroup8(t2, b28, [Delay(2000)], b01, [Delay(2000)], b0c, bc0, bh, bi); }
        t2 + ConfigEvents();
      }
    }

    /** The part of display_init after all six claims: the wake-up
        nibbles, then the 4-bit configuration. */
    method InitSequence(ghost requestRefused: set<Pin>, ghost directionRefused: set<Pin>,
                        ghost c0: set<Pin>, ghost t0: seq<Event>)
      requires ClaimsDone(c0, t0, requestRefused, directionRefused, |LCD_PINS|, claimed, trace)
      modifies this
      ensures InitOutcome(c0, t0, requestRefused, directionRefused, 0, claimed, trace)
    {
      ghost var t1 := trace;
      WakeUp();
      Configure();
      AllClaimed(c0, t0, requestRefused, directionRefused, claimed, t1, trace);
    }

    /** One line of display_init's claim chain: claims LCD_PINS[j] for
        output and, when that fails, takes the release path that frees the
        j pins claimed before it, last claimed first. Starting from the
        claimed set c0 and trace t0 of the call, with the first j claims
        done. */
    method ClaimOrUnwind(j: nat, requestRefused: set<Pin>, directionRefused: set<Pin>,
                         ghost c0: set<Pin>, ghost t0: seq<Event>) returns (ok: bool)
      requires j < |LCD_PINS| && ClaimsDone(c0, t0, requestRefused, directionRefused, j, claimed, trace)
      modifies this
      ensures ok ==> ClaimsDone(c0, t0, requestRefused, directionRefused, j + 1, claimed, trace)
      ensures !ok ==> InitOutcome(c0, t0, requestRefused, directionRefused, -EIO, claimed, trace)
    {
      var p := LCD_PINS[j];
      ghost var c, t := claimed, trace;
      NextPinFresh(j);
      var err := GpioRequestOutput(p, p in requestRefused, p in directionRefused);
      if err == -1 {
        Unwind(j);
        ClaimRefused(c0, t0, requestRefused, directionRefused, j, c, t);
        return false;
      }
      ClaimGranted(c0, t0, requestRefused, directionRefused, j, c, t);
      return true;
    }

    /** display_init: claims RS, E, D7, D6, D5, D4 in that order, releasing
        what it claimed on the first failure, then runs the initialisation
        sequence. */
    method DisplayInit(requestRefused: set<Pin>, directionRefused: set<Pin>) returns (r: int)
      modifies this
      ensures InitOutcome(old(claimed), old(trace), requestRefused, directionRefused, r, claimed, trace)
    {
      ghost var c0, t0 := claimed, trace;
      var ok := ClaimOrUnwind(0, requestRefused, directionRefused, c0, t0);
      if !ok {
        return -EIO;
      }
      ok := ClaimOrUnwind(1, requestRefused, directionRefused, c0, t0);
      if !ok {
        return -EIO;
      }
      ok := ClaimOrUnwind(2, requestRefused, directionRefused, c0, t0);
      if !ok {
        return -EIO;
      }
      ok := ClaimOrUnwind(3, requestRefused, directionRefused, c0, t0);
      if !ok {
        return -EIO;
      }
      ok := ClaimOrUnwind(4, requestRefused, directionRefused, c0, t0);
      if !ok {
        return -EIO;
      }
      ok := ClaimOrUnwind(5, requestRefused, directionRefused, c0, t0);
      if !ok {
        return -EIO;
      }
      InitSequence(requestRefused, directionRefused, c0, t0);
      return 0;
    }
    /** display_exit: gives back D4, D5, D6, D7, E and RS, the reverse of
        the claim order, and reports success. */
    method DisplayExit() returns (r: int)
      modifies this
      ensures r == 0
      ensures trace == old(trace) + FreeEvents(|LCD_PINS|)
      ensures claimed == old(claimed) - FirstPins(|LCD_PINS|)
    {
      ghost var t0 := trace;
      GpioFree(PIN_D4);
      GpioFree(PIN_D5);
      GpioFree(PIN_D6);
      GpioFree(PIN_D7);
      GpioFree(PIN_E);
      GpioFree(PIN_RS);
      FreeOrder(|LCD_PINS|);
      assert trace[|t0|..] == FreeEvents(|LCD_PINS|);
      assert trace == t0 + trace[|t0|..];
      AllPins();
      return 0;
    }
    /** copy_from_user into the text buffer: of the n bytes asked for, the
        last `fault` cannot be read from user space; those are zero-filled
        and their count is returned. The rest of the buffer is untouched. */
    method CopyFromUser(user: seq<Byte>, n: nat, fault: nat) returns (notCopied: nat)
      requires Valid() && n <= |user| && n <= BUFFER_SIZE && fault <= n
      modifies textbuffer
      ensures notCopied == fault
      ensures textbuffer[..n] == user[..n - fault] + Zeros(fault)
      ensures textbuffer[n..] == old(textbuffer[n..])
    {
      forall k | 0 <= k < n {
        textbuffer[k] := if k < n - fault then user[k] else 0;
      }
      return fault;
    }

    /** One iteration of driver_write's loop, for the byte b at index i:
        the byte as data if isprint accepts it, then the row-2 address after
        index COLUMNS - 1. */
    method WriteStep(b: Byte, i: nat)
      modifies this
      ensures trace == old(trace) + FramesEvents(Visit(b, i, printable)) && claimed == old(claimed)
    {
      ghost var t0 := trace;
      ghost var shown := if b in printable then [Frame(Data, b)] else [];
      ghost var row := if i == COLUMNS - 1 then [Frame(Command, SET_ROW2)] else [];
      if b in printable {
        LcdWrite(Data, b);
        SendOne(t0, [], Frame(Data, b));
      } else {
        assert shown == [];
      }
      if i == COLUMNS - 1 {
        LcdWrite(Command, SET_ROW2);
        SendOne(t0, shown, Frame(Command, SET_ROW2));
      } else {
        assert shown + row == shown;
      }
    }

    /** The display part of driver_write, over the first n bytes of the
        text buffer: row 1, then each byte up to the first NUL. */
    method ShowText(n: nat)
      requires Valid() && n <= BUFFER_SIZE
      modifies this
      ensures claimed == old(claimed)
      ensures trace == old(trace) + FramesEvents([Frame(Command, SET_ROW1)] + Layout(Processed(textbuffer[..n]), printable))
    {
      ghost var buf := textbuffer[..n];
      ghost var t0 := trace;
      LcdWrite(Command, SET_ROW1);
      SendOne(t0, [], Frame(Command, SET_ROW1));
      ghost var sent := [Frame(Command, SET_ROW1)];
      var i := 0;
      while i < n && textbuffer[i] != 0
        invariant 0 <= i <= n
        invariant NulFree(buf[..i])
        invariant sent == [Frame(Command, SET_ROW1)] + Stream(buf[..i], printable)
        invariant trace == t0 + FramesEvents(sent) && claimed == old(claimed)
      {
        var b := textbuffer[i];
        NulFreeSnoc(buf, i);
        WriteStep(b, i);
        SendMany(t0, sent, Visit(b, i, printable));
        StreamStep(buf, i, printable);
        Assoc([Frame(Command, SET_ROW1)], Stream(buf[..i], printable), Visit(b, i, printable));
        sent := sent + Visit(b, i, printable);
        i := i + 1;
      }
      ProcessedUnique(buf, i);
      StreamIsLayout(buf[..i], printable);
    }

    /** driver_write: copies up to BUFFER_SIZE bytes of the user's text,
        moves to row 1, sends the printable bytes up to the first NUL,
        moving to row 2 after raw index COLUMNS - 1, and returns the number
        of bytes copied. */
    method DriverWrite(user: seq<Byte>, fault: nat) returns (written: int)
      requires Valid() && fault <= Min(|user|, BUFFER_SIZE)
      modifies this, textbuffer
      ensures claimed == old(claimed)
      ensures written == Min(|user|, BUFFER_SIZE) - fault
      ensures textbuffer[..Min(|user|, BUFFER_SIZE)] == user[..written] + Zeros(fault)
      ensures textbuffer[Min(|user|, BUFFER_SIZE)..] == old(textbuffer[Min(|user|, BUFFER_SIZE)..])
      ensures trace == old(trace) + FramesEvents([Frame(Command, SET_ROW1)] + Layout(Processed(user[..written]), printable))
    {
      var toCopy := Min(|user|, BUFFER_SIZE);
      var notCopied := CopyFromUser(user, toCopy, fault);
      ghost var copied := textbuffer[..toCopy];
      ShowText(toCopy);
      assert textbuffer[..toCopy] == copied;
      ProcessedZeroPad(user[..toCopy - notCopied], notCopied);
      return toCopy - notCopied;
    }
  }
}
