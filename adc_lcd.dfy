/**
 * The voltmeter: a two-line character LCD driven over an 8-bit data port (LATB)
 * with a register-select line (RS) and an enable strobe, a 12-bit ADC whose
 * result is read from ADRESH:ADRESL, and an interrupt-on-change handler that
 * blinks the LED on RC3. Every latched LCD write is one `BusWrite`; XC8's plain
 * `char` is unsigned, so bytes are `bv8`.
 */
module AdcLcd {

  /** One byte latched by the LCD on the falling edge of EN, with the level of RS. */
  datatype BusWrite = BusWrite(rs: bool, data: bv8)

  /** An instruction-register write (RS = 0). */
  function Cmd(b: bv8): BusWrite {
    BusWrite(false, b)
  }

  /** A data-register write (RS = 1): one character at the cursor. */
  function Data(b: bv8): BusWrite {
    BusWrite(true, b)
  }

  /** `LCD_Init`: clear, 8-bit bus with two lines and 5x7 font, display on with cursor off, cursor moves right. */
  const InitSequence: seq<BusWrite> := [Cmd(0x01), Cmd(0x38), Cmd(0x0C), Cmd(0x06)]

  /** The characters of a C string: everything before the first NUL. */
  function UntilNul(msg: seq<bv8>): (text: seq<bv8>)
    ensures |text| <= |msg| && text == msg[..|text|]
    ensures 0 !in text
    ensures |text| < |msg| ==> msg[|text|] == 0
  {
    if |msg| == 0 || msg[0] == 0 then []
    else
      var rest := UntilNul(msg[1..]);
      assert msg[1..][..|rest|] == msg[1..|rest| + 1];
      [msg[0]] + rest
  }

  /** A prefix free of NUL and followed by a NUL (or by the end) is the string's text. */
  lemma UntilNulUnique(msg: seq<bv8>, n: nat)
    requires n <= |msg| && 0 !in msg[..n] && (n < |msg| ==> msg[n] == 0)
    ensures UntilNul(msg) == msg[..n]
  {
  }

  /** The character writes of a text, one per byte, in order. */
  function DataWrites(text: seq<bv8>): (w: seq<BusWrite>)
    ensures |w| == |text|
    ensures forall i :: 0 <= i < |text| ==> w[i] == Data(text[i])
    decreases |text|
  {
    if text == [] then [] else DataWrites(text[..|text| - 1]) + [Data(text[|text| - 1])]
  }

  /**
   * The DDRAM-address command of `LCD_String_xy`: 0x80 | (pos & 0x0F) for
   * row <= 1 (row 0 as well) and 0xC0 | (pos & 0x0F) otherwise.
   */
  function CursorCommand(row: bv8, pos: bv8): (cmd: bv8)
    ensures cmd & 0xF0 == (if row <= 1 then 0x80 else 0xC0) && cmd & 0x0F == pos & 0x0F
  {
    (if row <= 1 then 0x80 else 0xC0) | (pos & 0x0F)
  }

  /**
   * The command is 0x80 plus the address: the first line starts at address
   * 0x00 and the second at 0x40, and the column is `pos` modulo 16.
   */
  lemma CursorCommandAddress(row: bv8, pos: bv8)
    ensures CursorCommand(row, pos) as int == 0x80 + (if row <= 1 then 0x00 else 0x40) + pos as int % 16
  {
    var low := pos & 0x0F;
    assert low as int == pos as int % 16;
    assert low < 0x10;
    if row <= 1 {
      assert (0x80 as bv8 | low) == 0x80 + low;
    } else {
      assert (0xC0 as bv8 | low) == 0xC0 + low;
    }
  }

  /** The column is never clamped: it wraps modulo 16, so `pos` and `pos + 16` land on the same cell. */
  lemma CursorWraps(row: bv8, pos: bv8)
    ensures CursorCommand(row, pos) == CursorCommand(row, pos + 16)
  {
    CursorCommandAddress(row, pos);
    CursorCommandAddress(row, pos + 16);
  }

  /** Two cursor commands are equal exactly when they select the same line and the same column. */
  lemma CursorCommandInjective(row: bv8, pos: bv8, row': bv8, pos': bv8)
    ensures CursorCommand(row, pos) == CursorCommand(row', pos') <==>
              (row <= 1) == (row' <= 1) && pos as int % 16 == pos' as int % 16
  {
    CursorCommandAddress(row, pos);
    CursorCommandAddress(row', pos');
  }

  /** The "Voltage:" label `main` writes at row 1, position 0, with its NUL terminator. */
  const VoltageLabel: seq<bv8> := [0x56, 0x6F, 0x6C, 0x74, 0x61, 0x67, 0x65, 0x3A, 0x00]

  /** The label goes to the start of the first line, then its eight characters follow. */
  lemma VoltageLabelWrites()
    ensures CursorCommand(1, 0) == 0x80
    ensures DataWrites(UntilNul(VoltageLabel)) ==
      [Data(0x56), Data(0x6F), Data(0x6C), Data(0x74), Data(0x61), Data(0x67), Data(0x65), Data(0x3A)]
  {
    var text: seq<bv8> := [0x56, 0x6F, 0x6C, 0x74, 0x61, 0x67, 0x65, 0x3A];
    assert VoltageLabel[..8] == text;
    UntilNulUnique(VoltageLabel, 8);
  }

  /** The LCD and the writes it has latched so far. */
  class Lcd {
    var bus: seq<BusWrite>

    constructor ()
      ensures bus == []
    {
      bus := [];
    }

    /** `LCD_Command`: the byte on LATB with RS low, latched by an EN pulse. */
    method Command(cmd: bv8)
      modifies this
      ensures bus == old(bus) + [Cmd(cmd)]
    {
      bus := bus + [BusWrite(false, cmd)];
    }

    /** `LCD_Char`: the same strobe with RS high. */
    method Char(dat: bv8)
      modifies this
      ensures bus == old(bus) + [Data(dat)]
    {
      bus := bus + [BusWrite(true, dat)];
    }

    /** `LCD_Init`: the four set-up commands, in order. */
    method Init()
      modifies this
      ensures bus == old(bus) + InitSequence
    {
      Command(0x01);
      Command(0x38);
      Command(0x0C);
      Command(0x06);
    }

    /** `LCD_Clear`. */
    method Clear()
      modifies this
      ensures bus == old(bus) + [Cmd(0x01)]
    {
      Command(0x01);
    }

    /**
     * `LCD_String`: one character write per byte up to, and not including, the
     * NUL terminator; nothing for an empty string. The bytes `msg` holds are
     * the memory from the pointer on.
     */
    method String(msg: seq<bv8>)
      modifies this
      ensures bus == old(bus) + DataWrites(UntilNul(msg))
    {
      var i := 0;
      while i < |msg| && msg[i] != 0
        invariant 0 <= i <= |msg| && 0 !in msg[..i]
        invariant bus == old(bus) + DataWrites(msg[..i])
      {
        Char(msg[i]);
        assert msg[..i + 1][..i] == msg[..i];
        i := i + 1;
      }
      UntilNulUnique(msg, i);
    }

    /** `LCD_String_xy`: move the cursor to (row, pos), then write the string. */
    method StringXY(row: bv8, pos: bv8, msg: seq<bv8>)
      modifies this
      ensures bus == old(bus) + [Cmd(CursorCommand(row, pos))] + DataWrites(UntilNul(msg))
    {
      var location: bv8 := 0;
      if row <= 1 {
        location := 0x80 | (pos & 0x0F);
        Command(location);
      } else {
        location := 0xC0 | (pos & 0x0F);
        Command(location);
      }
      assert location == CursorCommand(row, pos);
      String(msg);
    }
  }

  /** Reading a 16-bit two's-complement `int` whose bits are `w`. */
  function Signed16(w: bv16): int {
    if w < 0x8000 then w as int else w as int - 0x1_0000
  }

  /**
   * `digital = (ADRESH*256) | (ADRESL)` in XC8's 16-bit `int`: the high byte
   * shifted up eight bits, the low byte or-ed in.
   */
  function AdcResult(adresh: bv8, adresl: bv8): (v: int)
    ensures -0x8000 <= v < 0x8000
  {
    Signed16((adresh as bv16 << 8) | adresl as bv16)
  }

  /**
   * The or adds the two bytes, since they share no bit; the result is the
   * unsigned reading `ADRESH * 256 + ADRESL` unless ADRESH has its top bit set,
   * when the `int` overflows to a negative value.
   */
  lemma AdcResultValue(adresh: bv8, adresl: bv8)
    ensures adresh < 0x80 ==> AdcResult(adresh, adresl) == adresh as int * 256 + adresl as int
    ensures adresh >= 0x80 ==> AdcResult(adresh, adresl) == adresh as int * 256 + adresl as int - 0x1_0000
  {
    var w := (adresh as bv16 << 8) | adresl as bv16;
    assert w == adresh as bv16 * 256 + adresl as bv16;
    assert w as int == adresh as int * 256 + adresl as int;
  }

  /**
   * With the result right-justified (`ADCON0bits.FM = 1`) the converter leaves
   * at most four bits in ADRESH: the reading is a 12-bit value, and it is one
   * exactly when ADRESH is at most 0x0F.
   */
  lemma AdcResultTwelveBits(adresh: bv8, adresl: bv8)
    ensures 0 <= AdcResult(adresh, adresl) < 4096 <==> adresh <= 0x0F
  {
    AdcResultValue(adresh, adresl);
  }

  /** `n` blinks of the LED: on, then off, `n` times. */
  function Blink(n: nat): (b: seq<bool>)
    ensures |b| == 2 * n
  {
    if n == 0 then [] else Blink(n - 1) + [true, false]
  }

  /** The LED writes alternate on, off, on, off, ..., so the LED is left off. */
  lemma {:induction false} BlinkAlternates(n: nat)
    ensures |Blink(n)| == 2 * n
    ensures forall k :: 0 <= k < |Blink(n)| ==> Blink(n)[k] == (k % 2 == 0)
    ensures n > 0 ==> !Blink(n)[2 * n - 1]
  {
    if n > 0 {
      BlinkAlternates(n - 1);
      var b := Blink(n - 1);
      assert Blink(n) == b + [true, false];
      forall k | 0 <= k < 2 * n
        ensures Blink(n)[k] == (k % 2 == 0)
      {
        if k < 2 * n - 2 {
          assert Blink(n)[k] == b[k];
        }
      }
    }
  }

  /** The interrupt-on-change flags and the LED on RC3. */
  class IocInterrupt {
    var ioccf2: bool      // IOCCFbits.IOCCF2: RC2 saw a falling edge
    var iocif: bool       // PIR0bits.IOCIF
    var led: seq<bool>    // the writes to LATC3 so far

    constructor (ioccf2: bool, iocif: bool)
      ensures this.ioccf2 == ioccf2 && this.iocif == iocif && led == []
    {
      this.ioccf2, this.iocif, led := ioccf2, iocif, [];
    }

    /**
     * `IOC_ISR`: when RC2 raised the interrupt, blink the LED 20 times and then
     * clear both flags; otherwise do nothing at all (IOCIF is left as it is).
     */
    method Isr()
      modifies this
      ensures old(ioccf2) ==> led == old(led) + Blink(20) && !ioccf2 && !iocif
      ensures !old(ioccf2) ==> led == old(led) && ioccf2 == old(ioccf2) && iocif == old(iocif)
    {
      if ioccf2 {
        for i := 0 to 20
          invariant led == old(led) + Blink(i)
          invariant ioccf2 == old(ioccf2) && iocif == old(iocif)
        {
          led := led + [true];
          led := led + [false];
        }
        ioccf2 := false;
        iocif := false;
      }
    }
  }
}
