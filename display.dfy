/**
 * The character LCD (src/hardware/display.rs): an HD44780-style controller
 * driven over a 4-bit bus. Every byte goes out as two nibbles, high nibble
 * first, each latched by one enable pulse; the RS line says whether the byte
 * is a command or character data. The pins are modelled as their levels, and
 * what the controller sees is the log of latched nibbles.
 */
module Display {
  import opened Base

  // Commands
  const ClearDisplay: byte := 0x01
  const ReturnHome: byte := 0x02
  const EntryModeSet: byte := 0x04
  const DisplayControl: byte := 0x08
  const FunctionSet: byte := 0x20
  const SetDdramAddr: byte := 0x80

  // Entry, control and function-set flags used by the driver
  const EntryLeft: byte := 0x02
  const EntryShiftDecrement: byte := 0x00
  const DisplayOn: byte := 0x04
  const CursorOff: byte := 0x00
  const BlinkOff: byte := 0x00
  const FourBitMode: byte := 0x00
  const OneLine: byte := 0x00
  const TwoLine: byte := 0x08
  const FiveByEightDots: byte := 0x00

  /** DDRAM address of the first column of each row. */
  const RowOffsets: seq<byte> := [0x00, 0x40, 0x14, 0x54]

  /** Bitwise `|` on `u8`. */
  function Or(a: byte, b: byte): byte
  {
    ((a as bv8) | (b as bv8)) as int
  }

  /** Bitwise `&` on `u8`. */
  function And(a: byte, b: byte): byte
  {
    ((a as bv8) & (b as bv8)) as int
  }

  // ---------------------------------------------------------------------
  // Bytes on the 4-bit bus
  // ---------------------------------------------------------------------

  /** One byte as the driver means it: a command (RS low) or character data (RS high). */
  datatype Write = Write(value: byte, rs: bool)

  /** What the controller latches on one enable pulse: RS and the levels of D4..D7. */
  datatype Latch = Latch(rs: bool, pins: seq<bool>)

  /** `x >> k`. */
  function Shr(x: nat, k: nat): nat
  {
    if k == 0 then x else Shr(x / 2, k - 1)
  }

  lemma BitIsShr(x: nat, k: nat)
    ensures Bit(x, k) == (Shr(x, k) % 2 == 1)
  {
  }

  /** Data pin `i` carries bit `offset + i` of the byte. */
  function Pins(x: nat, offset: nat): (p: seq<bool>)
    ensures |p| == 4
  {
    [Bit(x, offset), Bit(x, offset + 1), Bit(x, offset + 2), Bit(x, offset + 3)]
  }

  /** The two latches of one byte: high nibble, then low nibble, with the same RS level. */
  function Frame(w: Write): seq<Latch>
  {
    [Latch(w.rs, Pins(w.value, 4)), Latch(w.rs, Pins(w.value, 0))]
  }

  /** The latches of a sequence of bytes, in order. */
  function Encode(ws: seq<Write>): seq<Latch>
  {
    if ws == [] then [] else Frame(ws[0]) + Encode(ws[1..])
  }

  lemma {:induction false} EncodeSnoc(ws: seq<Write>, w: Write)
    ensures Encode(ws + [w]) == Encode(ws) + Frame(w)
  {
    if ws == [] {
      assert Encode([w]) == Frame(w) + Encode([]);
    } else {
      assert (ws + [w])[1..] == ws[1..] + [w];
      EncodeSnoc(ws[1..], w);
    }
  }

  /** The number a nibble's four pins stand for, pin `i` weighing `2^i`. */
  function NibbleValue(p: seq<bool>): (n: nat)
    ensures n < 16
  {
    (if |p| > 0 && p[0] then 1 else 0) + (if |p| > 1 && p[1] then 2 else 0) +
    (if |p| > 2 && p[2] then 4 else 0) + (if |p| > 3 && p[3] then 8 else 0)
  }

  /** The four pins from `offset` hold `(x >> offset) % 16`. */
  lemma PinsValue(x: nat, offset: nat)
    ensures NibbleValue(Pins(x, offset)) == Shr(x, offset) % 16
  {
    var y := Shr(x, offset);
    BitShr(x, offset, 0);
    BitShr(x, offset, 1);
    BitShr(x, offset, 2);
    BitShr(x, offset, 3);
    assert Pins(x, offset) == Pins(y, 0);
    LowNibble(y);
  }

  lemma {:induction false} BitShr(x: nat, a: nat, i: nat)
    ensures Bit(x, a + i) == Bit(Shr(x, a), i)
    decreases a
  {
    if a > 0 {
      BitShr(x / 2, a - 1, i);
    }
  }

  /** The low four bits, weighed by powers of two, are `y % 16`. */
  lemma LowNibble(y: nat)
    ensures NibbleValue(Pins(y, 0)) == y % 16
  {
    var y1 := y / 2;
    var y2 := y1 / 2;
    var y3 := y2 / 2;
    assert Bit(y, 1) == Bit(y1, 0);
    assert Bit(y, 2) == Bit(y1, 1) == Bit(y2, 0);
    assert Bit(y, 3) == Bit(y1, 2) == Bit(y2, 1) == Bit(y3, 0);
    HalvingSum(y);
  }

  /** Four halvings peel off the low four bits. */
  lemma HalvingSum(y: nat)
    ensures y % 16 == y % 2 + 2 * (y / 2 % 2) + 4 * (y / 2 / 2 % 2) + 8 * (y / 2 / 2 / 2 % 2)
  {
    var y1 := y / 2;
    var y2 := y1 / 2;
    var y3 := y2 / 2;
    assert y == 16 * (y3 / 2) + (y % 2 + 2 * (y1 % 2) + 4 * (y2 % 2) + 8 * (y3 % 2));
  }

  /** Shifting right by four bits divides by sixteen. */
  lemma ShrFour(y: nat)
    ensures Shr(y, 4) == y / 16
  {
    assert Shr(y, 4) == Shr(y / 2, 3) == Shr(y / 2 / 2, 2) == Shr(y / 2 / 2 / 2, 1) == y / 2 / 2 / 2 / 2;
  }

  /**
   * How the controller reassembles bytes in 4-bit mode: each pair of
   * latches is one byte, the first latch giving the high nibble and RS.
   */
  function Decode(ls: seq<Latch>): seq<Write>
    decreases |ls|
  {
    if |ls| < 2 then []
    else [Write(16 * NibbleValue(ls[0].pins) + NibbleValue(ls[1].pins), ls[0].rs)] + Decode(ls[2..])
  }

  /** One byte sent as two nibbles comes back whole, with its RS level. */
  lemma FrameRoundTrip(w: Write)
    ensures 16 * NibbleValue(Frame(w)[0].pins) + NibbleValue(Frame(w)[1].pins) == w.value
    ensures Decode(Frame(w)) == [w]
  {
    PinsValue(w.value, 4);
    PinsValue(w.value, 0);
    ShrFour(w.value);
    assert Frame(w)[2..] == [];
  }

  /** Decoding goes pair by pair. */
  lemma DecodePair(f: seq<Latch>, rest: seq<Latch>)
    requires |f| == 2
    ensures Decode(f + rest) == Decode(f) + Decode(rest)
  {
    assert (f + rest)[2..] == rest && f[2..] == [];
  }

  /** The controller reads back exactly the bytes the driver sent, in order. */
  lemma {:induction false} DecodeEncode(ws: seq<Write>)
    ensures Decode(Encode(ws)) == ws
  {
    if ws != [] {
      FrameRoundTrip(ws[0]);
      DecodePair(Frame(ws[0]), Encode(ws[1..]));
      DecodeEncode(ws[1..]);
    }
  }

  // ---------------------------------------------------------------------
  // Commands
  // ---------------------------------------------------------------------

  /** The flags `new` sets: display on, cursor and blink off; 4-bit, two lines, 5x8 dots; left entry. */
  const InitialControl: byte := Or(Or(DisplayOn, CursorOff), BlinkOff)
  const InitialFunction: byte := Or(Or(Or(FourBitMode, OneLine), TwoLine), FiveByEightDots)
  const InitialMode: byte := Or(EntryLeft, EntryShiftDecrement)

  function Command(value: byte): Write
  {
    Write(value, false)
  }

  /** The bytes `new` sends: the 4-bit wake-up pair, the three settings, and a clear. */
  function InitWrites(): seq<Write>
  {
    [Command(0x33), Command(0x32), Command(Or(DisplayControl, InitialControl)),
     Command(Or(FunctionSet, InitialFunction)), Command(Or(EntryModeSet, InitialMode)),
     Command(ClearDisplay)]
  }

  /** The initialisation is the command bytes 0x33, 0x32, 0x0C, 0x28, 0x06, 0x01, and the entry mode is left-to-right. */
  lemma InitWritesValues()
    ensures InitWrites() == [Command(0x33), Command(0x32), Command(0x0C), Command(0x28), Command(0x06), Command(0x01)]
    ensures And(InitialMode, EntryLeft) > 0
  {
  }

  /**
   * The DDRAM address `set_cursor` sends, or `None` where it panics: a row
   * index past the four offsets, `rows - 1` below zero, or a column plus
   * offset that overflows `u8`. As written, only `row > rows` is clamped to
   * the last row, so `row == rows` indexes one row past the display.
   */
  function CursorAddressAsWritten(col: nat, row: nat, rows: nat): Option<byte>
  {
    if row > rows && rows == 0 then None
    else
      var r := if row > rows then rows - 1 else row;
      AddressOf(col, r)
  }

  /** Which row clamp a cursor move uses: `set_cursor` as written, or the corrected one. */
  datatype Clamp = AsWritten | Corrected

  /** The cursor command under either clamp. */
  function Cursor(clamp: Clamp, col: nat, row: nat, rows: nat): Option<byte>
  {
    match clamp
    case AsWritten => CursorAddressAsWritten(col, row, rows)
    case Corrected => CursorAddress(col, row, rows)
  }

  /** `set_cursor` with every row from `rows` on clamped to the last row. */
  function CursorAddress(col: nat, row: nat, rows: nat): Option<byte>
  {
    if row >= rows && rows == 0 then None
    else
      var r := if row >= rows then rows - 1 else row;
      AddressOf(col, r)
  }

  /** `SET_DDRAM_ADDR | (col as u8 + ROW_OFFSETS[r])`, with `None` where that panics. */
  function AddressOf(col: nat, r: nat): Option<byte>
  {
    if r >= |RowOffsets| then None
    else if col % 256 + RowOffsets[r] > 255 then None
    else Some(Or(SetDdramAddr, col % 256 + RowOffsets[r]))
  }

  function Min(a: nat, b: nat): nat
  {
    if a <= b then a else b
  }

  /**
   * On a display of one to four rows and a column that fits a row, the
   * corrected cursor never panics and addresses the column on row `row`,
   * or on the last row when `row` is past it.
   */
  lemma CursorAddressInRange(col: nat, row: nat, rows: nat)
    requires 1 <= rows <= |RowOffsets| && col < 40
    ensures CursorAddress(col, row, rows) == Some(Or(SetDdramAddr, col + RowOffsets[Min(row, rows - 1)]))
  {
    var r := Min(row, rows - 1);
    assert RowOffsets[r] <= 0x54;
    assert col % 256 == col;
  }

  /**
   * As written, the row just past the display is not clamped: on four rows
   * the lookup panics, and on two rows the address lands on column 20 of the
   * first row instead of the start of the second.
   */
  lemma CursorAsWrittenSkipsClamp()
    ensures CursorAddressAsWritten(0, 4, 4) == None
    ensures CursorAddress(0, 4, 4) == Some(0xD4)
    ensures CursorAddressAsWritten(0, 2, 2) == Some(0x94)
    ensures CursorAddress(0, 2, 2) == Some(0xC0)
  {
    CursorAddressInRange(0, 4, 4);
    CursorAddressInRange(0, 2, 2);
  }

  // ---------------------------------------------------------------------
  // Messages
  // ---------------------------------------------------------------------

  /** `str::is_ascii`. */
  predicate IsAscii(msg: string)
  {
    forall i :: 0 <= i < |msg| ==> msg[i] as int < 128
  }

  /** The column a newline moves to: 0 when entry is left-to-right, else `cols - 1` (`None` where that underflows). */
  function NewlineCol(mode: byte, cols: nat): Option<nat>
  {
    if And(mode, EntryLeft) > 0 then Some(0)
    else if cols == 0 then None
    else Some(cols - 1)
  }

  /** The cursor command for the newline that starts line `line`, or `None` where it panics. */
  function NewlineCommand(mode: byte, cols: nat, line: nat, rows: nat, clamp: Clamp): Option<byte>
  {
    if NewlineCol(mode, cols).None? then None
    else Cursor(clamp, NewlineCol(mode, cols).value, line, rows)
  }

  /**
   * The byte one character of a message sends, or `None` where it panics:
   * an ordinary character as data, a newline as the cursor command for
   * line `line`, the number of newlines up to and including it.
   */
  function CharWrite(c: char, mode: byte, cols: nat, line: nat, rows: nat, clamp: Clamp): Option<Write>
    requires c as int < 128
  {
    if c != '\n' then Some(Write(c as int, true))
    else if NewlineCommand(mode, cols, line, rows, clamp).None? then None
    else Some(Command(NewlineCommand(mode, cols, line, rows, clamp).value))
  }

  /** What `write_message` sends, and whether it panicked before the end. */
  datatype Emission = Emission(writes: seq<Write>, panicked: bool)

  /**
   * The writes for an ASCII message, one character at a time; a character
   * that panics ends the message there.
   */
  function Emitted(msg: string, mode: byte, cols: nat, rows: nat, clamp: Clamp): Emission
    requires IsAscii(msg)
    decreases |msg|
  {
    if msg == [] then Emission([], false)
    else
      var prev := Emitted(msg[..|msg| - 1], mode, cols, rows, clamp);
      if prev.panicked then prev
      else
        match CharWrite(msg[|msg| - 1], mode, cols, multiset(msg)['\n'], rows, clamp)
        case None => Emission(prev.writes, true)
        case Some(w) => Emission(prev.writes + [w], false)
  }

  /** One more character of a message that has not panicked yet. */
  lemma EmittedStep(msg: string, i: nat, mode: byte, cols: nat, rows: nat, clamp: Clamp)
    requires IsAscii(msg) && i < |msg|
    requires !Emitted(msg[..i], mode, cols, rows, clamp).panicked
    ensures multiset(msg[..i + 1])['\n'] == multiset(msg[..i])['\n'] + (if msg[i] == '\n' then 1 else 0)
    ensures var prev := Emitted(msg[..i], mode, cols, rows, clamp).writes;
      var w := CharWrite(msg[i], mode, cols, multiset(msg[..i + 1])['\n'], rows, clamp);
      Emitted(msg[..i + 1], mode, cols, rows, clamp) ==
        if w.None? then Emission(prev, true) else Emission(prev + [w.value], false)
  {
    assert msg[..i + 1][..i] == msg[..i] && msg[..i + 1] == msg[..i] + [msg[i]];
  }

  /** Once the message has panicked, the characters after that change nothing. */
  lemma {:induction false} EmittedStopsAtPanic(msg: string, j: nat, mode: byte, cols: nat, rows: nat, clamp: Clamp)
    requires IsAscii(msg) && j <= |msg|
    requires Emitted(msg[..j], mode, cols, rows, clamp).panicked
    ensures Emitted(msg, mode, cols, rows, clamp) == Emitted(msg[..j], mode, cols, rows, clamp)
    decreases |msg|
  {
    if j < |msg| {
      var init := msg[..|msg| - 1];
      assert init[..j] == msg[..j];
      EmittedStopsAtPanic(init, j, mode, cols, rows, clamp);
    } else {
      assert msg[..j] == msg;
    }
  }

  /** A message that does not panic sends exactly one byte per character. */
  lemma {:induction false} EmittedLength(msg: string, mode: byte, cols: nat, rows: nat, clamp: Clamp)
    requires IsAscii(msg) && !Emitted(msg, mode, cols, rows, clamp).panicked
    ensures |Emitted(msg, mode, cols, rows, clamp).writes| == |msg|
    decreases |msg|
  {
    if msg != [] {
      EmittedLength(msg[..|msg| - 1], mode, cols, rows, clamp);
    }
  }

  /**
   * In a message that does not panic, byte `j` is what character `j` sends:
   * an ordinary character as data, and the `k`-th newline as a cursor
   * command to line `k`.
   */
  lemma {:induction false} EmittedAt(msg: string, j: nat, mode: byte, cols: nat, rows: nat, clamp: Clamp)
    requires IsAscii(msg) && j < |msg| && !Emitted(msg, mode, cols, rows, clamp).panicked
    ensures |Emitted(msg, mode, cols, rows, clamp).writes| == |msg|
    ensures msg[j] != '\n' ==> Emitted(msg, mode, cols, rows, clamp).writes[j] == Write(msg[j] as int, true)
    ensures msg[j] == '\n' ==> (
      !Emitted(msg, mode, cols, rows, clamp).writes[j].rs &&
      NewlineCommand(mode, cols, multiset(msg[..j + 1])['\n'], rows, clamp) == Some(Emitted(msg, mode, cols, rows, clamp).writes[j].value))
    decreases |msg|
  {
    EmittedLength(msg, mode, cols, rows, clamp);
    var init := msg[..|msg| - 1];
    if j < |init| {
      EmittedAt(init, j, mode, cols, rows, clamp);
      assert init[..j + 1] == msg[..j + 1];
    } else {
      assert msg[..j + 1] == msg;
    }
  }

  /**
   * With left-to-right entry (always the case after `new`) or a column that
   * fits a row, and one to four rows, no message makes the corrected cursor
   * panic.
   */
  lemma {:induction false} EmittedNeverPanics(msg: string, mode: byte, cols: nat, rows: nat)
    requires IsAscii(msg)
    requires And(mode, EntryLeft) > 0 || 1 <= cols <= 40
    requires 1 <= rows <= |RowOffsets|
    ensures !Emitted(msg, mode, cols, rows, Corrected).panicked
    decreases |msg|
  {
    if msg != [] {
      EmittedNeverPanics(msg[..|msg| - 1], mode, cols, rows);
      if msg[|msg| - 1] == '\n' {
        CursorAddressInRange(NewlineCol(mode, cols).value, multiset(msg)['\n'], rows);
      }
    }
  }

  /** The cursor bytes of the first four newlines on a 20x4 display in the initial entry mode. */
  lemma FourRowNewlines()
    ensures NewlineCommand(InitialMode, 20, 1, 4, AsWritten) == Some(0xC0)
    ensures NewlineCommand(InitialMode, 20, 2, 4, AsWritten) == Some(0x94)
    ensures NewlineCommand(InitialMode, 20, 3, 4, AsWritten) == Some(0xD4)
    ensures NewlineCommand(InitialMode, 20, 4, 4, AsWritten) == None
    ensures NewlineCommand(InitialMode, 20, 1, 4, Corrected) == Some(0xC0)
    ensures NewlineCommand(InitialMode, 20, 2, 4, Corrected) == Some(0x94)
    ensures NewlineCommand(InitialMode, 20, 3, 4, Corrected) == Some(0xD4)
    ensures NewlineCommand(InitialMode, 20, 4, 4, Corrected) == Some(0xD4)
  {
    InitWritesValues();
    assert NewlineCol(InitialMode, 20) == Some(0);
    assert Or(SetDdramAddr, 0x40) == 0xC0 && Or(SetDdramAddr, 0x14) == 0x94 && Or(SetDdramAddr, 0x54) == 0xD4;
    CursorAsWrittenSkipsClamp();
  }

  /** Each prefix of `"\n\n\n\n"` counts its own length in newlines. */
  lemma FourNewlinesCounted(msg: string)
    requires msg == "\n\n\n\n"
    ensures IsAscii(msg)
    ensures multiset(msg[..1])['\n'] == 1 && multiset(msg[..2])['\n'] == 2
    ensures multiset(msg[..3])['\n'] == 3 && multiset(msg[..4])['\n'] == 4
  {
    assert msg[..1] == ['\n'] && msg[..2] == msg[..1] + ['\n'];
    assert msg[..3] == msg[..2] + ['\n'] && msg[..4] == msg[..3] + ['\n'];
  }

  /** One more newline that moves the cursor to `addr` appends that cursor command. */
  lemma NewlineStep(msg: string, i: nat, clamp: Clamp, prev: seq<Write>, addr: byte)
    requires IsAscii(msg) && i < |msg| && msg[i] == '\n'
    requires Emitted(msg[..i], InitialMode, 20, 4, clamp) == Emission(prev, false)
    requires NewlineCommand(InitialMode, 20, multiset(msg[..i + 1])['\n'], 4, clamp) == Some(addr)
    ensures Emitted(msg[..i + 1], InitialMode, 20, 4, clamp) == Emission(prev + [Command(addr)], false)
  {
    EmittedStep(msg, i, InitialMode, 20, 4, clamp);
  }

  /** Under either clamp, the first three newlines move the cursor to rows 1, 2 and 3. */
  lemma ThreeNewlines(msg: string, clamp: Clamp)
    requires msg == "\n\n\n\n"
    ensures IsAscii(msg)
    ensures Emitted(msg[..3], InitialMode, 20, 4, clamp) ==
      Emission([Command(0xC0), Command(0x94), Command(0xD4)], false)
  {
    FourNewlinesCounted(msg);
    assert NewlineCommand(InitialMode, 20, 1, 4, clamp) == Some(0xC0) by { FourRowNewlines(); }
    assert NewlineCommand(InitialMode, 20, 2, 4, clamp) == Some(0x94) by { FourRowNewlines(); }
    assert NewlineCommand(InitialMode, 20, 3, 4, clamp) == Some(0xD4) by { FourRowNewlines(); }
    assert msg[..0] == [];
    NewlineStep(msg, 0, clamp, [], 0xC0);
    NewlineStep(msg, 1, clamp, [Command(0xC0)], 0x94);
    NewlineStep(msg, 2, clamp, [Command(0xC0), Command(0x94)], 0xD4);
  }

  /**
   * As written, a four-row display panics on the fourth newline of a
   * message: the first three move the cursor to rows 1, 2 and 3, and the
   * fourth indexes `ROW_OFFSETS[4]`. The corrected clamp keeps it on row 3.
   */
  lemma FourthNewlinePanicsAsWritten(msg: string)
    requires msg == "\n\n\n\n"
    ensures Emitted(msg, InitialMode, 20, 4, AsWritten) ==
      Emission([Command(0xC0), Command(0x94), Command(0xD4)], true)
    ensures Emitted(msg, InitialMode, 20, 4, Corrected) ==
      Emission([Command(0xC0), Command(0x94), Command(0xD4), Command(0xD4)], false)
  {
    FourRowNewlines();
    FourNewlinesCounted(msg);
    assert msg[..4] == msg;
    ThreeNewlines(msg, AsWritten);
    EmittedStep(msg, 3, InitialMode, 20, 4, AsWritten);
    ThreeNewlines(msg, Corrected);
    EmittedStep(msg, 3, InitialMode, 20, 4, Corrected);
  }

  // ---------------------------------------------------------------------
  // The driver
  // ---------------------------------------------------------------------

  /**
   * `LCDDisplay`: the RS and enable lines, the four data lines D4..D7, the
   * geometry and the three settings bytes. `log` is every nibble the
   * controller has latched, in order.
   */
  class LCDDisplay {
    var rs: bool
    var en: bool
    const dPins: array<bool>
    const cols: nat
    const rows: nat
    const displayControl: byte
    const displayFunction: byte
    const displayMode: byte
    var log: seq<Latch>

    predicate Valid()
      reads this
    {
      dPins.Length == 4
    }

    /**
     * `new`: the settings are display on, 4-bit two-line 5x8, left-to-right
     * entry; the controller is sent the initialisation bytes and a clear.
     */
    constructor (cols: nat, rows: nat)
      ensures Valid() && fresh(dPins) && this.cols == cols && this.rows == rows
      ensures displayControl == InitialControl && displayFunction == InitialFunction
      ensures displayMode == InitialMode
      ensures log == Encode(InitWrites()) && !en
    {
      this.cols, this.rows := cols, rows;
      displayControl, displayFunction, displayMode := InitialControl, InitialFunction, InitialMode;
      dPins := new bool[4];
      rs, en, log := false, false, [];
      new;
      var sent: seq<Write> := [];
      assert log == Encode(sent);
      WriteBit(0x33, false);
      EncodeSnoc(sent, Command(0x33));
      sent := sent + [Command(0x33)];
      WriteBit(0x32, false);
      EncodeSnoc(sent, Command(0x32));
      sent := sent + [Command(0x32)];
      WriteBit(Or(DisplayControl, displayControl), false);
      EncodeSnoc(sent, Command(Or(DisplayControl, displayControl)));
      sent := sent + [Command(Or(DisplayControl, displayControl))];
      WriteBit(Or(FunctionSet, displayFunction), false);
      EncodeSnoc(sent, Command(Or(FunctionSet, displayFunction)));
      sent := sent + [Command(Or(FunctionSet, displayFunction))];
      WriteBit(Or(EntryModeSet, displayMode), false);
      EncodeSnoc(sent, Command(Or(EntryModeSet, displayMode)));
      sent := sent + [Command(Or(EntryModeSet, displayMode))];
      Clear();
      EncodeSnoc(sent, Command(ClearDisplay));
      sent := sent + [Command(ClearDisplay)];
      assert sent == InitWrites();
    }

    /** `clear`: one clear-display command. */
    method Clear()
      requires Valid()
      modifies this, dPins
      ensures log == old(log) + Frame(Command(ClearDisplay)) && !en
    {
      WriteBit(ClearDisplay, false);
    }

    /** `cursor_home`: one return-home command. */
    method CursorHome()
      requires Valid()
      modifies this, dPins
      ensures log == old(log) + Frame(Command(ReturnHome)) && !en
    {
      WriteBit(ReturnHome, false);
    }

    /**
     * `set_cursor`, with rows from `rows` on clamped to the last row. It
     * panics, sending nothing, where the address cannot be formed.
     */
    method SetCursor(col: nat, row: nat) returns (panicked: bool)
      requires Valid()
      modifies this, dPins
      ensures panicked <==> CursorAddress(col, row, rows).None?
      ensures panicked ==> log == old(log)
      ensures !panicked ==> log == old(log) + Frame(Command(CursorAddress(col, row, rows).value))
    {
      var r: nat;
      if row >= rows {
        if rows == 0 {
          return true;
        }
        r := rows - 1;
      } else {
        r := row;
      }
      if r >= |RowOffsets| {
        return true;
      }
      var sum := col % 256 + RowOffsets[r];
      if sum > 255 {
        return true;
      }
      WriteBit(Or(SetDdramAddr, sum), false);
      return false;
    }

    /**
     * `write_message`: nothing at all for a non-ASCII message; otherwise the
     * bytes of `Emitted`, up to a cursor that panics.
     */
    method WriteMessage(message: string) returns (panicked: bool)
      requires Valid()
      modifies this, dPins
      ensures !IsAscii(message) ==> !panicked && log == old(log)
      ensures IsAscii(message) ==>
        panicked == Emitted(message, displayMode, cols, rows, Corrected).panicked &&
        log == old(log) + Encode(Emitted(message, displayMode, cols, rows, Corrected).writes)
    {
      var line := 0;
      if !IsAscii(message) {
        return false;
      }
      for i := 0 to |message|
        invariant line == multiset(message[..i])['\n']
        invariant !Emitted(message[..i], displayMode, cols, rows, Corrected).panicked
        invariant log == old(log) + Encode(Emitted(message[..i], displayMode, cols, rows, Corrected).writes)
      {
        ghost var prev := Emitted(message[..i], displayMode, cols, rows, Corrected).writes;
        EmittedStep(message, i, displayMode, cols, rows, Corrected);
        if message[i] == '\n' {
          line := line + 1;
        }
        ghost var w := CharWrite(message[i], displayMode, cols, line, rows, Corrected);
        panicked := PutChar(message[i], line);
        if panicked {
          EmittedStopsAtPanic(message, i + 1, displayMode, cols, rows, Corrected);
          return;
        }
        EncodeSnoc(prev, w.value);
      }
      assert message[..|message|] == message;
      return false;
    }

    /** One pass of the loop in `write_message`: a newline moves the cursor, any other character is written. */
    method PutChar(c: char, line: nat) returns (panicked: bool)
      requires Valid() && c as int < 128
      modifies this, dPins
      ensures panicked <==> CharWrite(c, displayMode, cols, line, rows, Corrected).None?
      ensures panicked ==> log == old(log)
      ensures !panicked ==> log == old(log) + Frame(CharWrite(c, displayMode, cols, line, rows, Corrected).value)
    {
      if c == '\n' {
        panicked := NewLine(line);
      } else {
        WriteBit(c as int, true);
        panicked := false;
      }
    }

    /**
     * The newline arm of `write_message`: column 0 for left-to-right entry,
     * else the last column, on line `line`.
     */
    method NewLine(line: nat) returns (panicked: bool)
      requires Valid()
      modifies this, dPins
      ensures panicked <==> NewlineCommand(displayMode, cols, line, rows, Corrected).None?
      ensures panicked ==> log == old(log)
      ensures !panicked ==> log == old(log) + Frame(Command(NewlineCommand(displayMode, cols, line, rows, Corrected).value))
    {
      var col: nat;
      if And(displayMode, EntryLeft) > 0 {
        col := 0;
      } else {
        if cols == 0 {
          return true;
        }
        col := cols - 1;
      }
      panicked := SetCursor(col, line);
    }

    /**
     * `write_bit`: RS set for data, the high nibble on D4..D7 and a pulse,
     * then the low nibble and a pulse.
     */
    method WriteBit(value: byte, charMode: bool)
      requires Valid()
      modifies this, dPins
      ensures log == old(log) + Frame(Write(value, charMode))
      ensures rs == charMode && !en && dPins[..] == Pins(value, 0)
    {
      rs := charMode;
      for i := 0 to 4
        modifies dPins
        invariant forall k :: 0 <= k < i ==> dPins[k] == Bit(value, 4 + k)
      {
        BitIsShr(value, i + 4);
        dPins[i] := Shr(value, i + 4) % 2 == 1;
      }
      assert dPins[..] == Pins(value, 4);
      PulseEnable();
      for i := 0 to 4
        modifies dPins
        invariant forall k :: 0 <= k < i ==> dPins[k] == Bit(value, k)
      {
        var shift := if i > 0 then Shr(value, i) else value;
        BitIsShr(value, i);
        dPins[i] := shift % 2 == 1;
      }
      assert dPins[..] == Pins(value, 0);
      PulseEnable();
    }

    /** `pulse_enable`: enable low, high, low; the controller latches RS and D4..D7 on the falling edge. */
    method PulseEnable()
      modifies this
      ensures log == old(log) + [Latch(rs, dPins[..])]
      ensures !en && rs == old(rs)
    {
      en := false;
      en := true;
      log := log + [Latch(rs, dPins[..])];
      en := false;
    }
  }
}
