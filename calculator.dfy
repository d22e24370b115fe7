/**
 * The 4x4-keypad calculator: two operands are keyed in digit by digit, an
 * operator key chooses A (add), B (subtract), C (multiply) or D (divide), '#'
 * evaluates and shows the result on the eight LEDs of PORTD, '*' clears
 * everything. The registers are XC8 `int`s, 16 bits wide.
 */
module Calculator {
  import Keypad

  /** The range of a 16-bit two's-complement `int`. */
  predicate IsInt16(v: int) {
    -0x8000 <= v < 0x8000
  }

  /** Result of storing `v` into a 16-bit `int`: wraps around modulo 2^16. */
  function Wrap16(v: int): (r: int)
    ensures IsInt16(r) && (v - r) % 0x1_0000 == 0
    ensures IsInt16(v) ==> r == v
  {
    (v + 0x8000) % 0x1_0000 - 0x8000
  }

  function Abs(v: int): nat {
    if v < 0 then -v else v
  }

  /**
   * C's `/`, which truncates toward zero: the remainder `a - q * b` is smaller
   * than the divisor in magnitude and, unless zero, has the sign of `a`.
   */
  function CDiv(a: int, b: int): (q: int)
    requires b != 0
    ensures 0 <= a && 0 < b ==> q == a / b
    ensures Abs(a - q * b) < Abs(b)
    ensures a - q * b == 0 || (a - q * b < 0 <==> a < 0)
  {
    var m := Abs(a) / Abs(b);
    assert Abs(a) - m * Abs(b) < Abs(b);
    if (a < 0) == (b < 0) then m else -m
  }

  /** The bitwise complement `~v` of a two's-complement value, which is `-v - 1`. */
  function Complement(v: int): int {
    -v - 1
  }

  /**
   * The byte `displayOnLEDs` writes to PORTD: a negative value is first replaced
   * by `~value + 1` (again a 16-bit `int`), then the low eight bits are kept.
   */
  function LedByte(v: int): (b: int)
    ensures 0 <= b < 256
  {
    var shown := if v < 0 then Wrap16(Complement(v) + 1) else v;
    shown % 256
  }

  /** Since `~v + 1 == -v`, a negative result lights the pattern of its magnitude. */
  lemma LedByteIsMagnitude(v: int)
    requires IsInt16(v)
    ensures LedByte(v) == Abs(v) % 256
  {
    if v == -0x8000 {
      assert Wrap16(Complement(v) + 1) == -0x8000;
    }
  }

  /** The key table of the 4x4 keypad, rows top to bottom, columns RB4..RB7. */
  const Keys: seq<seq<char>> := ["123A", "456B", "789C", "*0#D"]

  /**
   * `getKeyPressed`: the key of the first row, and within it the first column,
   * found down; `NoKey` when all four rows were scanned without a key.
   */
  method GetKeyPressed(down: Keypad.Pressed) returns (key: char)
    ensures Keypad.WellFormed(Keys, 4) && key == Keypad.ScanKey(Keys, 4, down)
    ensures key == Keypad.NoKey <==> Keypad.NoneBefore(down, 4, 4, 0)
    ensures key != Keypad.NoKey ==> exists r, c :: Keypad.FirstDown(down, 4, 4, r, c) && key == Keys[r][c]
  {
    var rows;
    key, rows := Keypad.Scan(Keys, 4, down);
  }

  /** The operator keys. */
  predicate IsOperator(k: char) {
    k == 'A' || k == 'B' || k == 'C' || k == 'D'
  }

  predicate IsDigit(k: char) {
    '0' <= k <= '9'
  }

  function DigitValue(k: char): int {
    k as int - '0' as int
  }

  /** The six global registers and the LED port. */
  datatype Regs = Regs(x: int, y: int, result: int, op: char, digitCount: int, isSecond: int, portD: int)

  /** The state after `resetAll`, and the initial values of the globals. */
  const Cleared := Regs(0, 0, 0, Keypad.NoKey, 0, 0, 0)

  /**
   * The states the calculator can reach. The first operand stops growing after
   * two digits (then `isSecond` is 1); the second operand is zero until then.
   */
  predicate Inv(s: Regs) {
    && IsInt16(s.y) && IsInt16(s.result) && 0 <= s.portD < 256
    && (s.op == Keypad.NoKey || IsOperator(s.op))
    && (s.digitCount == 0 || s.digitCount == 1)
    && (s.isSecond == 0 || s.isSecond == 1)
    && (s.isSecond == 0 ==> s.y == 0 && 0 <= s.x <= 9 && (s.digitCount == 0 ==> s.x == 0))
    && (s.isSecond == 1 ==> 0 <= s.x <= 99)
  }

  /** The value `calculate` leaves in `Display_Result_REG`. */
  function Evaluate(op: char, x: int, y: int, previous: int): int {
    if op == 'A' then Wrap16(x + y)
    else if op == 'B' then Wrap16(x - y)
    else if op == 'C' then Wrap16(x * y)
    else if op == 'D' && y != 0 then Wrap16(CDiv(x, y))
    else previous
  }

  /** The registers after `calculate`. */
  function Calculated(s: Regs): Regs {
    var r := Evaluate(s.op, s.x, s.y, s.result);
    s.(result := r, portD := LedByte(r), x := 0, y := 0, digitCount := 0, isSecond := 0)
  }

  /** The registers after `handleInput(key)`. */
  function HandleKey(s: Regs, key: char): Regs {
    if IsDigit(key) then
      var count := Wrap16(s.digitCount + 1);
      if s.isSecond == 0 then
        var x := Wrap16(s.x * 10 + DigitValue(key));
        if count == 2 then s.(x := x, isSecond := 1, digitCount := 0, portD := 0x01)
        else s.(x := x, digitCount := count)
      else
        var y := Wrap16(s.y * 10 + DigitValue(key));
        if count == 2 then s.(y := y, digitCount := 0, portD := 0x02)
        else s.(y := y, digitCount := count)
    else if IsOperator(key) then s.(op := key)
    else if key == '#' then Calculated(s.(portD := 0x00))
    else if key == '*' then Cleared
    else s
  }

  /** The registers after handling `keys` in order. */
  function RunKeys(s: Regs, keys: seq<char>): Regs
    decreases |keys|
  {
    if keys == [] then s else HandleKey(RunKeys(s, keys[..|keys| - 1]), keys[|keys| - 1])
  }

  /** The key the `i`-th scan of the main loop returns. */
  function ScanAt(scans: seq<Keypad.Pressed>, i: int): char
    requires 0 <= i < |scans|
  {
    assert Keypad.WellFormed(Keys, 4);
    Keypad.ScanKey(Keys, 4, scans[i])
  }

  /**
   * The keys `main` hands to `handleInput` over the scans `scans`: after a key
   * is handled, `main` keeps scanning until a scan finds no key, so a key is
   * handled exactly at a scan that finds it right after one that found none.
   */
  function Dispatched(scans: seq<Keypad.Pressed>): (keys: seq<char>)
    ensures |keys| <= |scans| && Keypad.NoKey !in keys
    decreases |scans|
  {
    if scans == [] then []
    else
      var n := |scans| - 1;
      var k := ScanAt(scans, n);
      Dispatched(scans[..n]) + if k != Keypad.NoKey && (n == 0 || ScanAt(scans, n - 1) == Keypad.NoKey) then [k] else []
  }

  /** One more scan hands at most its own key to `handleInput`. */
  lemma DispatchedSnoc(scans: seq<Keypad.Pressed>, i: int)
    requires 0 <= i < |scans|
    ensures Dispatched(scans[..i + 1]) == Dispatched(scans[..i]) +
      if ScanAt(scans, i) != Keypad.NoKey && (i == 0 || ScanAt(scans, i - 1) == Keypad.NoKey)
      then [ScanAt(scans, i)] else []
  {
    assert scans[..i + 1][..i] == scans[..i];
    assert ScanAt(scans[..i + 1], i) == ScanAt(scans, i);
    assert i > 0 ==> ScanAt(scans[..i + 1], i - 1) == ScanAt(scans, i - 1);
  }

  /** The same keypad state seen by `n` successive scans. */
  function Repeat(s: Keypad.Pressed, n: nat): (r: seq<Keypad.Pressed>)
    ensures |r| == n && forall i :: 0 <= i < n ==> r[i] == s
  {
    if n == 0 then [] else Repeat(s, n - 1) + [s]
  }

  // ---------------------------------------------------------------------------
  // Properties of the state machine.

  /** Every reachable state stays reachable after any key. */
  lemma HandleKeyKeepsInv(s: Regs, key: char)
    requires Inv(s)
    ensures Inv(HandleKey(s, key))
  {
    if IsDigit(key) {
      assert 0 <= DigitValue(key) <= 9;
    } else if key == '#' {
      var r := Evaluate(s.op, s.x, s.y, s.result);
      assert IsInt16(r);
    }
  }

  lemma {:induction false} RunKeysKeepsInv(s: Regs, keys: seq<char>)
    requires Inv(s)
    ensures Inv(RunKeys(s, keys))
    decreases |keys|
  {
    if keys != [] {
      RunKeysKeepsInv(s, keys[..|keys| - 1]);
      HandleKeyKeepsInv(RunKeys(s, keys[..|keys| - 1]), keys[|keys| - 1]);
    }
  }

  /** The first operand never exceeds 99, whatever keys follow a reset. */
  lemma FirstOperandAtMost99(keys: seq<char>)
    ensures 0 <= RunKeys(Cleared, keys).x <= 99
  {
    RunKeysKeepsInv(Cleared, keys);
  }

  /**
   * Two digits keyed while the first operand is empty make it their decimal
   * value; the second one hands over to the second operand and lights LED1.
   */
  lemma FirstOperandTwoDigits(s: Regs, d1: char, d2: char)
    requires Inv(s) && s.isSecond == 0 && s.digitCount == 0
    requires IsDigit(d1) && IsDigit(d2)
    ensures var t := HandleKey(s, d1);
      t == s.(x := DigitValue(d1), digitCount := 1)
    ensures var t := HandleKey(HandleKey(s, d1), d2);
      t == s.(x := 10 * DigitValue(d1) + DigitValue(d2), isSecond := 1, digitCount := 0, portD := 0x01)
  {
  }

  /**
   * The second operand is not capped at two digits: a third digit keeps
   * accumulating (`Y * 10 + d`); LED2 lights after every second digit, and the
   * first operand is left alone.
   */
  lemma SecondOperandKeepsAccumulating(s: Regs, d1: char, d2: char, d3: char)
    requires Inv(s) && s.isSecond == 1 && s.digitCount == 0 && s.y == 0
    requires IsDigit(d1) && IsDigit(d2) && IsDigit(d3)
    ensures var t := HandleKey(HandleKey(HandleKey(s, d1), d2), d3);
      t == s.(y := 100 * DigitValue(d1) + 10 * DigitValue(d2) + DigitValue(d3), digitCount := 1, portD := 0x02)
  {
  }

  /** An operator key only records the operator; keys without a meaning change nothing. */
  lemma OtherKeys(s: Regs, key: char)
    ensures IsOperator(key) ==> HandleKey(s, key) == s.(op := key)
    ensures !IsDigit(key) && !IsOperator(key) && key != '#' && key != '*' ==> HandleKey(s, key) == s
    ensures key == '*' ==> HandleKey(s, key) == Cleared
  {
  }

  /**
   * `calculate` from any reachable state: the operands and the entry state are
   * cleared, the operator is kept, and PORTD shows the magnitude of the result.
   * Division by zero and a missing operator keep the previous result; the four
   * operations give the mathematical value modulo 2^16 (C's truncating quotient
   * for D), and exactly that value when the second operand is within 0..330,
   * so that no product leaves 16 bits.
   */
  lemma CalculateOutcome(s: Regs)
    requires Inv(s)
    ensures var t := Calculated(s);
      && t.x == 0 && t.y == 0 && t.digitCount == 0 && t.isSecond == 0
      && t.op == s.op && IsInt16(t.result) && t.portD == Abs(t.result) % 256
    ensures var t := Calculated(s);
      && (!IsOperator(s.op) || (s.op == 'D' && s.y == 0) ==> t.result == s.result)
      && (s.op == 'A' ==> (s.x + s.y - t.result) % 0x1_0000 == 0)
      && (s.op == 'B' ==> (s.x - s.y - t.result) % 0x1_0000 == 0)
      && (s.op == 'C' ==> (s.x * s.y - t.result) % 0x1_0000 == 0)
      && (s.op == 'D' && s.y != 0 ==> (CDiv(s.x, s.y) - t.result) % 0x1_0000 == 0)
    ensures 0 <= s.y <= 330 ==>
      Calculated(s).result == (if s.op == 'A' then s.x + s.y
                               else if s.op == 'B' then s.x - s.y
                               else if s.op == 'C' then s.x * s.y
                               else if s.op == 'D' && s.y != 0 then s.x / s.y
                               else s.result)
  {
    var r := Evaluate(s.op, s.x, s.y, s.result);
    assert Calculated(s).result == r;
    LedByteIsMagnitude(r);
    EvaluateWraps(s.op, s.x, s.y, s.result);
    if 0 <= s.y <= 330 {
      EvaluateExact(s.op, s.x, s.y, s.result);
    }
  }

  /** Each operation stores its mathematical value modulo 2^16; the others keep the previous result. */
  lemma EvaluateWraps(op: char, x: int, y: int, previous: int)
    requires IsInt16(previous)
    ensures var r := Evaluate(op, x, y, previous);
      && IsInt16(r)
      && (!IsOperator(op) || (op == 'D' && y == 0) ==> r == previous)
      && (op == 'A' ==> (x + y - r) % 0x1_0000 == 0)
      && (op == 'B' ==> (x - y - r) % 0x1_0000 == 0)
      && (op == 'C' ==> (x * y - r) % 0x1_0000 == 0)
      && (op == 'D' && y != 0 ==> (CDiv(x, y) - r) % 0x1_0000 == 0)
  {
    var r := Evaluate(op, x, y, previous);
    var v := if op == 'A' then x + y else if op == 'B' then x - y
             else if op == 'C' then x * y else if op == 'D' && y != 0 then CDiv(x, y) else previous;
    if IsOperator(op) && !(op == 'D' && y == 0) {
      assert r == Wrap16(v);
      assert (v - r) % 0x1_0000 == 0;
    }
  }

  /** Without 16-bit overflow, the operators are the mathematical ones. */
  lemma EvaluateExact(op: char, x: int, y: int, previous: int)
    requires 0 <= x <= 99 && 0 <= y <= 330 && IsInt16(previous)
    ensures Evaluate(op, x, y, previous) ==
      (if op == 'A' then x + y
       else if op == 'B' then x - y
       else if op == 'C' then x * y
       else if op == 'D' && y != 0 then x / y
       else previous)
  {
    if op == 'C' {
      MulBound(x, y, 99, 330);
    } else if op == 'D' && y != 0 {
      assert CDiv(x, y) == x / y;
      DivBound(x, y);
    }
  }

  lemma DivBound(x: int, y: int)
    requires 0 <= x && 0 < y
    ensures 0 <= x / y <= x
  {
    var q := x / y;
    assert x == y * q + x % y;
    MulAtLeast(q, y);
  }

  lemma {:induction false} MulAtLeast(q: int, y: int)
    requires 0 <= q && 1 <= y
    ensures q <= y * q
    decreases y
  {
    if y > 1 {
      MulAtLeast(q, y - 1);
      assert y * q == (y - 1) * q + q;
    }
  }

  lemma MulBound(a: int, b: int, bigA: int, bigB: int)
    requires 0 <= a <= bigA && 0 <= b <= bigB
    ensures 0 <= a * b <= bigA * bigB
  {
    assert a * b <= bigA * b;
    assert bigA * b <= bigA * bigB;
  }

  /** Handling one more key is one more step of the state machine. */
  lemma RunKeysSnoc(s: Regs, keys: seq<char>, k: char)
    ensures RunKeys(s, keys + [k]) == HandleKey(RunKeys(s, keys), k)
  {
    assert (keys + [k])[..|keys|] == keys;
  }

  /** Keying 1, 2, 0, 7 gives the operands 12 and 7, with LED2 lit. */
  lemma TwelveAndSeven()
    ensures HandleKey(HandleKey(HandleKey(HandleKey(Cleared, '1'), '2'), '0'), '7')
              == Regs(12, 7, 0, Keypad.NoKey, 0, 1, 0x02)
  {
    var s1 := HandleKey(Cleared, '1');
    assert s1 == Regs(1, 0, 0, Keypad.NoKey, 1, 0, 0);
    var s2 := HandleKey(s1, '2');
    assert s2 == Regs(12, 0, 0, Keypad.NoKey, 0, 1, 0x01);
    var s3 := HandleKey(s2, '0');
    assert s3 == Regs(12, 0, 0, Keypad.NoKey, 1, 1, 0x01);
  }

  /** 12 and 7 give 19, 5, 84 and 1 under A, B, C and D, and the result is lit on PORTD. */
  lemma TwelveAndSevenResults(op: char)
    requires IsOperator(op)
    ensures var r := HandleKey(HandleKey(Regs(12, 7, 0, Keypad.NoKey, 0, 1, 0x02), op), '#');
      && r.result == (if op == 'A' then 19 else if op == 'B' then 5 else if op == 'C' then 84 else 1)
      && r.portD == r.result && r.op == op
  {
  }

  /** Then 3 - 9 leaves -6 in the result register and lights 6, its magnitude, on PORTD. */
  lemma ThreeMinusNine()
    ensures var r := HandleKey(HandleKey(HandleKey(HandleKey(HandleKey(HandleKey(
                       Cleared, '0'), '3'), '0'), '9'), 'B'), '#');
      r.result == -6 && r.portD == 6
  {
    var s1 := HandleKey(Cleared, '0');
    assert s1 == Regs(0, 0, 0, Keypad.NoKey, 1, 0, 0);
    var s2 := HandleKey(s1, '3');
    assert s2 == Regs(3, 0, 0, Keypad.NoKey, 0, 1, 0x01);
    var s3 := HandleKey(s2, '0');
    assert s3 == Regs(3, 0, 0, Keypad.NoKey, 1, 1, 0x01);
    var s4 := HandleKey(s3, '9');
    assert s4 == Regs(3, 9, 0, Keypad.NoKey, 0, 1, 0x02);
    var s5 := HandleKey(s4, 'B');
    assert s5 == Regs(3, 9, 0, 'B', 0, 1, 0x02);
    LedByteIsMagnitude(-6);
  }

  /**
   * A key held down for any number of scans, after a scan that found no key,
   * is handled once.
   */
  lemma {:induction false} HeldKeyHandledOnce(prefix: seq<Keypad.Pressed>, s: Keypad.Pressed, n: nat)
    requires Keypad.WellFormed(Keys, 4) && Keypad.ScanKey(Keys, 4, s) != Keypad.NoKey
    requires prefix == [] || ScanAt(prefix, |prefix| - 1) == Keypad.NoKey
    ensures Dispatched(prefix + Repeat(s, n + 1)) == Dispatched(prefix) + [Keypad.ScanKey(Keys, 4, s)]
  {
    var all := prefix + Repeat(s, n + 1);
    assert all[..|all| - 1] == prefix + Repeat(s, n);
    if n == 0 {
      assert prefix + Repeat(s, 0) == prefix;
    } else {
      HeldKeyHandledOnce(prefix, s, n - 1);
      assert ScanAt(all, |all| - 2) == Keypad.ScanKey(Keys, 4, s);
    }
  }

  /**
   * The calculator's registers and LED port. `main` clears them and then
   * feeds every key press to `handleInput`.
   */
  class Machine {
    var x: int           // X_Input_REG, the first operand
    var y: int           // Y_Input_REG, the second operand
    var result: int      // Display_Result_REG
    var op: char         // Operation_REG: 'A'..'D', or 0 before an operator is chosen
    var digitCount: int  // digits keyed into the current operand
    var isSecond: int    // 1 while keying the second operand
    var portD: int       // the byte on the eight LEDs

    function State(): Regs
      reads this
    {
      Regs(x, y, result, op, digitCount, isSecond, portD)
    }

    ghost predicate Valid()
      reads this
    {
      Inv(State())
    }

    /** The globals' initial values, after `setup` and `resetAll`. */
    constructor ()
      ensures Valid() && State() == Cleared
    {
      x, y, result, op, digitCount, isSecond, portD := 0, 0, 0, Keypad.NoKey, 0, 0, 0x00;
    }

    method ResetAll()
      modifies this
      ensures Valid() && State() == Cleared
    {
      x := 0;
      y := 0;
      result := 0;
      op := Keypad.NoKey;
      digitCount := 0;
      isSecond := 0;
      portD := 0x00;
    }

    method DisplayOnLEDs(value: int)
      modifies this`portD
      ensures portD == LedByte(value)
      ensures IsInt16(value) ==> portD == Abs(value) % 256
    {
      var v := value;
      if v < 0 {
        v := Wrap16(Complement(v) + 1);
      }
      portD := v % 256;
      if IsInt16(value) {
        LedByteIsMagnitude(value);
      }
    }

    method Calculate()
      requires Valid()
      modifies this
      ensures Valid() && State() == Calculated(old(State()))
    {
      if op == 'A' {
        result := Wrap16(x + y);
      } else if op == 'B' {
        result := Wrap16(x - y);
      } else if op == 'C' {
        result := Wrap16(x * y);
      } else if op == 'D' && y != 0 {
        result := Wrap16(CDiv(x, y));
      }
      DisplayOnLEDs(result);
      x := 0;
      y := 0;
      digitCount := 0;
      isSecond := 0;
    }

    method HandleInput(key: char)
      requires Valid()
      modifies this
      ensures Valid() && State() == HandleKey(old(State()), key)
    {
      HandleKeyKeepsInv(State(), key);
      if IsDigit(key) {
        if isSecond == 0 {
          x := Wrap16(x * 10 + DigitValue(key));
          digitCount := Wrap16(digitCount + 1);
          if digitCount == 2 {
            isSecond := 1;
            digitCount := 0;
            portD := 0x01;
          }
        } else {
          y := Wrap16(y * 10 + DigitValue(key));
          digitCount := Wrap16(digitCount + 1);
          if digitCount == 2 {
            digitCount := 0;
            portD := 0x02;
          }
        }
      } else if IsOperator(key) {
        op := key;
      } else if key == '#' {
        portD := 0x00;
        Calculate();
      } else if key == '*' {
        ResetAll();
      }
    }

    /**
     * One scan of `main`'s loop. While `releasing` (a key was handled and has
     * not been let go yet) the scan only checks for the release; otherwise a
     * key found is handled. The result says whether a key is still held.
     */
    method Poll(down: Keypad.Pressed, releasing: bool) returns (held: bool)
      requires Valid()
      modifies this
      ensures Valid()
      ensures Keypad.WellFormed(Keys, 4) && held == (Keypad.ScanKey(Keys, 4, down) != Keypad.NoKey)
      ensures State() == if !releasing && held then HandleKey(old(State()), Keypad.ScanKey(Keys, 4, down))
                         else old(State())
    {
      var key := GetKeyPressed(down);
      held := key != Keypad.NoKey;
      if !releasing && held {
        HandleInput(key);
      }
    }

    /**
     * `main`'s endless loop, run over the successive keypad scans `scans`: a
     * key found is handled, then `main` waits for a scan without a key before
     * it looks for the next one.
     */
    method Run(scans: seq<Keypad.Pressed>)
      requires Valid()
      modifies this
      ensures Valid() && State() == RunKeys(old(State()), Dispatched(scans))
    {
      var releasing := false;
      var i := 0;
      while i < |scans|
        invariant 0 <= i <= |scans|
        invariant Valid() && State() == RunKeys(old(State()), Dispatched(scans[..i]))
        invariant releasing == (i > 0 && ScanAt(scans, i - 1) != Keypad.NoKey)
      {
        DispatchedSnoc(scans, i);
        ghost var before := Dispatched(scans[..i]);
        RunKeysSnoc(old(State()), before, ScanAt(scans, i));
        assert before + [] == before;
        releasing := Poll(scans[i], releasing);
        i := i + 1;
      }
      assert scans[..i] == scans;
    }
  }
}
