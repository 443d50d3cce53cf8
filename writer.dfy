/** What one write to the display sends, as a function of the buffered
    text: the part of the buffer that is processed, the printable filter,
    and the placement of the row-2 address command. */
module Writer {
  import opened Bus

  /** Capacity of the text buffer. */
  const BUFFER_SIZE: nat := 1024

  /** Columns on a row; the raw index at which the writer moves to row 2 is COLUMNS - 1. */
  const COLUMNS: nat := 16

  /** Set DDRAM address 0x00 (row 1, column 1). */
  const SET_ROW1: Byte := 0x80

  /** Set DDRAM address 0x40 (row 2, column 1). */
  const SET_ROW2: Byte := 0xC0

  /** Whether s contains no NUL byte. */
  predicate NulFree(s: seq<Byte>)
  {
    forall i :: 0 <= i < |s| ==> s[i] != 0
  }

  /** A NUL-free prefix grows by a non-NUL byte. */
  lemma NulFreeSnoc(s: seq<Byte>, i: nat)
    requires i < |s| && NulFree(s[..i]) && s[i] != 0
    ensures NulFree(s[..i + 1])
  {
    assert s[..i + 1] == s[..i] + [s[i]];
  }

  /** The longest NUL-free prefix of s: the bytes the write loop visits. */
  function Processed(s: seq<Byte>): (p: seq<Byte>)
    ensures p <= s && NulFree(p)
    ensures |p| < |s| ==> s[|p|] == 0
  {
    if s == [] || s[0] == 0 then [] else [s[0]] + Processed(s[1..])
  }

  /** A prefix that is NUL-free and ends at a NUL or at the end of s is the processed part. */
  lemma {:induction false} ProcessedUnique(s: seq<Byte>, n: nat)
    requires n <= |s| && NulFree(s[..n])
    requires n == |s| || s[n] == 0
    ensures Processed(s) == s[..n]
  {
    var p := Processed(s);
    var m := |p|;
    assert forall i :: 0 <= i < n ==> s[i] == s[..n][i] != 0;
    assert forall i :: 0 <= i < m ==> s[i] == p[i] != 0;
  }

  /** `n` NUL bytes. */
  function Zeros(n: nat): (z: seq<Byte>)
    ensures |z| == n && forall i :: 0 <= i < n ==> z[i] == 0
  {
    if n == 0 then [] else [0] + Zeros(n - 1)
  }

  /** NUL padding after the text does not change what is processed. */
  lemma ProcessedZeroPad(s: seq<Byte>, n: nat)
    ensures Processed(s + Zeros(n)) == Processed(s)
  {
    var p := Processed(s);
    var t := s + Zeros(n);
    assert t[..|p|] == p;
    assert |p| < |t| ==> t[|p|] == 0;
    ProcessedUnique(t, |p|);
  }

  /** The bytes of p the display shows: those in the `printable` table, in order. */
  function Printables(p: seq<Byte>, printable: set<Byte>): (r: seq<Byte>)
    ensures |r| <= |p|
    ensures forall i :: 0 <= i < |r| ==> r[i] in printable
  {
    if p == [] then [] else (if p[0] in printable then [p[0]] else []) + Printables(p[1..], printable)
  }

  /** The filter distributes over concatenation. */
  lemma {:induction false} PrintablesAppend(a: seq<Byte>, b: seq<Byte>, printable: set<Byte>)
    ensures Printables(a + b, printable) == Printables(a, printable) + Printables(b, printable)
  {
    if a == [] {
      assert a + b == b;
    } else {
      assert (a + b)[1..] == a[1..] + b;
      PrintablesAppend(a[1..], b, printable);
    }
  }

  /** Printables(p) keeps every byte of p exactly when all of them are printable. */
  lemma {:induction false} PrintablesAll(p: seq<Byte>, printable: set<Byte>)
    ensures |Printables(p, printable)| == |p| <==> forall i :: 0 <= i < |p| ==> p[i] in printable
  {
    if p != [] {
      PrintablesAll(p[1..], printable);
      if |Printables(p, printable)| == |p| {
        forall i | 0 <= i < |p| ensures p[i] in printable {
          if i > 0 { assert p[i] == p[1..][i - 1]; }
        }
      }
    }
  }

  /** Data frames for a run of bytes. */
  function DataFrames(bs: seq<Byte>): seq<Frame>
  {
    if bs == [] then [] else [Frame(Data, bs[0])] + DataFrames(bs[1..])
  }

  /** What the write loop sends for the byte b at raw index i. */
  function Visit(b: Byte, i: nat, printable: set<Byte>): seq<Frame>
  {
    (if b in printable then [Frame(Data, b)] else [])
    + (if i == COLUMNS - 1 then [Frame(Command, SET_ROW2)] else [])
  }

  /** What the write loop has sent after visiting the bytes of p (not counting the row-1 command). */
  function Stream(p: seq<Byte>, printable: set<Byte>): seq<Frame>
  {
    if p == [] then [] else Stream(p[..|p| - 1], printable) + Visit(p[|p| - 1], |p| - 1, printable)
  }

  /** Visiting the byte at index i extends the stream by what the loop sends for it. */
  lemma StreamStep(s: seq<Byte>, i: nat, printable: set<Byte>)
    requires i < |s|
    ensures Stream(s[..i + 1], printable) == Stream(s[..i], printable) + Visit(s[i], i, printable)
  {
    assert s[..i + 1][..i] == s[..i];
  }

  /** The display layout driver_write produces for p: its printable bytes from the first
      COLUMNS raw positions on row 1, then the row-2 address command, then the
      printable bytes of the rest; no row-2 command when p is shorter. */
  function Layout(p: seq<Byte>, printable: set<Byte>): seq<Frame>
  {
    if |p| < COLUMNS then DataFrames(Printables(p, printable))
    else DataFrames(Printables(p[..COLUMNS], printable)) + [Frame(Command, SET_ROW2)]
         + DataFrames(Printables(p[COLUMNS..], printable))
  }

  lemma {:induction false} DataFramesAppend(a: seq<Byte>, b: seq<Byte>)
    ensures DataFrames(a + b) == DataFrames(a) + DataFrames(b)
  {
    if a == [] {
      assert a + b == b;
    } else {
      assert (a + b)[1..] == a[1..] + b;
      DataFramesAppend(a[1..], b);
    }
  }

  /** What the filter keeps of a single byte, as frames. */
  lemma VisitData(b: Byte, printable: set<Byte>)
    ensures DataFrames(Printables([b], printable)) == if b in printable then [Frame(Data, b)] else []
  {
    assert [b][1..] == [];
  }

  /** Filtering one more byte on the same row. */
  lemma RowSnoc(q: seq<Byte>, b: Byte, printable: set<Byte>)
    ensures DataFrames(Printables(q + [b], printable))
         == DataFrames(Printables(q, printable)) + (if b in printable then [Frame(Data, b)] else [])
  {
    PrintablesAppend(q, [b], printable);
    DataFramesAppend(Printables(q, printable), Printables([b], printable));
    VisitData(b, printable);
  }

  /** Visiting one more byte extends the layout by what the loop sends for it. */
  lemma LayoutSnoc(q: seq<Byte>, b: Byte, printable: set<Byte>)
    ensures Layout(q + [b], printable) == Layout(q, printable) + Visit(b, |q|, printable)
  {
    var p := q + [b];
    var d := if b in printable then [Frame(Data, b)] else [];
    var row2 := [Frame(Command, SET_ROW2)];
    if |q| < COLUMNS - 1 {
      RowSnoc(q, b, printable);
      assert Visit(b, |q|, printable) == d;
    } else if |q| == COLUMNS - 1 {
      RowSnoc(q, b, printable);
      assert p[..COLUMNS] == p && p[COLUMNS..] == [];
      assert Visit(b, |q|, printable) == d + row2;
      assert Layout(p, printable) == DataFrames(Printables(p, printable)) + row2 + [];
    } else {
      assert p[..COLUMNS] == q[..COLUMNS];
      assert p[COLUMNS..] == q[COLUMNS..] + [b];
      RowSnoc(q[COLUMNS..], b, printable);
      assert Visit(b, |q|, printable) == d;
      var head := DataFrames(Printables(q[..COLUMNS], printable)) + row2;
      assert Layout(p, printable) == head + (DataFrames(Printables(q[COLUMNS..], printable)) + d);
    }
  }

  /** The loop's output, byte by byte, is the layout. */
  lemma {:induction false} StreamIsLayout(p: seq<Byte>, printable: set<Byte>)
    ensures Stream(p, printable) == Layout(p, printable)
    decreases |p|
  {
    if p != [] {
      var q, b := p[..|p| - 1], p[|p| - 1];
      assert p == q + [b];
      StreamIsLayout(q, printable);
      LayoutSnoc(q, b, printable);
    }
  }

  /** The data bytes in a list of frames, in order. */
  function DataBytes(fs: seq<Frame>): seq<int>
  {
    if fs == [] then [] else (if fs[0].reg == Data then [fs[0].value] else []) + DataBytes(fs[1..])
  }

  /** The command bytes in a list of frames, in order. */
  function Commands(fs: seq<Frame>): seq<int>
  {
    if fs == [] then [] else (if fs[0].reg == Command then [fs[0].value] else []) + Commands(fs[1..])
  }

  lemma {:induction false} DataBytesAppend(a: seq<Frame>, b: seq<Frame>)
    ensures DataBytes(a + b) == DataBytes(a) + DataBytes(b)
  {
    if a == [] {
      assert a + b == b;
    } else {
      var x := if a[0].reg == Data then [a[0].value] else [];
      assert (a + b)[0] == a[0];
      assert (a + b)[1..] == a[1..] + b;
      calc {
        DataBytes(a + b);
        x + DataBytes(a[1..] + b);
        { DataBytesAppend(a[1..], b); }
        x + (DataBytes(a[1..]) + DataBytes(b));
        { Assoc(x, DataBytes(a[1..]), DataBytes(b)); }
        DataBytes(a) + DataBytes(b);
      }
    }
  }

  lemma {:induction false} CommandsAppend(a: seq<Frame>, b: seq<Frame>)
    ensures Commands(a + b) == Commands(a) + Commands(b)
  {
    if a == [] {
      assert a + b == b;
    } else {
      var x := if a[0].reg == Command then [a[0].value] else [];
      assert (a + b)[0] == a[0];
      assert (a + b)[1..] == a[1..] + b;
      calc {
        Commands(a + b);
        x + Commands(a[1..] + b);
        { CommandsAppend(a[1..], b); }
        x + (Commands(a[1..]) + Commands(b));
        { Assoc(x, Commands(a[1..]), Commands(b)); }
        Commands(a) + Commands(b);
      }
    }
  }

  lemma {:induction false} DataFramesFilters(bs: seq<Byte>)
    ensures DataBytes(DataFrames(bs)) == bs && Commands(DataFrames(bs)) == []
  {
    if bs != [] {
      assert DataFrames(bs)[1..] == DataFrames(bs[1..]);
      DataFramesFilters(bs[1..]);
    }
  }

  /** Filtering p is filtering its two parts at k. */
  lemma PrintablesSplit(p: seq<Byte>, k: nat, printable: set<Byte>)
    requires k <= |p|
    ensures Printables(p, printable) == Printables(p[..k], printable) + Printables(p[k..], printable)
  {
    assert p == p[..k] + p[k..];
    PrintablesAppend(p[..k], p[k..], printable);
  }

  /** The data sent is exactly the printable bytes of p, in order. */
  lemma LayoutData(p: seq<Byte>, printable: set<Byte>)
    ensures DataBytes(Layout(p, printable)) == Printables(p, printable)
  {
    if |p| < COLUMNS {
      DataFramesFilters(Printables(p, printable));
    } else {
      var a, b := Printables(p[..COLUMNS], printable), Printables(p[COLUMNS..], printable);
      var row2 := [Frame(Command, SET_ROW2)];
      calc {
        DataBytes(Layout(p, printable));
        DataBytes(DataFrames(a) + row2 + DataFrames(b));
        { DataBytesAppend(DataFrames(a) + row2, DataFrames(b)); }
        DataBytes(DataFrames(a) + row2) + DataBytes(DataFrames(b));
        { DataBytesAppend(DataFrames(a), row2); }
        DataBytes(DataFrames(a)) + DataBytes(row2) + DataBytes(DataFrames(b));
        { DataFramesFilters(a); DataFramesFilters(b); assert DataBytes(row2) == []; }
        a + b;
        { PrintablesSplit(p, COLUMNS, printable); }
        Printables(p, printable);
      }
    }
  }

  /** The only command sent is one row-2 address, exactly when p spans COLUMNS raw positions. */
  lemma LayoutCommands(p: seq<Byte>, printable: set<Byte>)
    ensures Commands(Layout(p, printable)) == if |p| < COLUMNS then [] else [SET_ROW2]
  {
    if |p| < COLUMNS {
      DataFramesFilters(Printables(p, printable));
    } else {
      var a, b := Printables(p[..COLUMNS], printable), Printables(p[COLUMNS..], printable);
      var row2 := [Frame(Command, SET_ROW2)];
      CommandsAppend(DataFrames(a) + row2, DataFrames(b));
      CommandsAppend(DataFrames(a), row2);
      DataFramesFilters(a);
      DataFramesFilters(b);
      assert Commands(row2) == [SET_ROW2];
    }
  }

  /** The row switch follows the raw index, not the count of shown
      characters: with a non-printable byte among the first COLUMNS, fewer
      than COLUMNS characters reach row 1 before the row-2 command. */
  lemma EarlyRowSwitch(p: seq<Byte>, printable: set<Byte>, j: nat)
    requires COLUMNS <= |p| && j < COLUMNS && p[j] !in printable
    ensures |Printables(p[..COLUMNS], printable)| < COLUMNS
  {
    PrintablesAll(p[..COLUMNS], printable);
  }
}
