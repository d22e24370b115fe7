/**
 * The safebox combination lock. Each photoresistor enters one digit of the
 * code (1..4), counted by covering it and confirmed with the RC4 button; once
 * two digits are confirmed the combined code is compared with the secret code
 * and either the motor (open) or the buzzer (wrong code) runs. Pressing '*' on
 * the 3x4 keypad sets a new secret code from two keypad digits 0..4.
 *
 * Pin levels and keypad states are inputs the firmware polls. They are given
 * as streams: `pins[0]` is the current level of the photoresistor and button
 * lines, and each spin of a polling loop moves on to the next sample; the
 * keypad stream holds the state seen by each successive scan. Past the end of
 * a stream the lines stay idle (uncovered, released, no key), so a method that
 * would then wait for ever returns reporting that it is still waiting.
 */
module Safebox {
  import Keypad

  /** Levels of RE0 (photoresistor 1), RE1 (photoresistor 2) and RC4 (confirm) at one instant. */
  datatype Sample = Sample(re0: bool, re1: bool, rc4: bool)

  const Idle := Sample(false, false, false)

  /** The output writes the firmware makes, in order. */
  datatype Output =
    | LatD(pattern: int)  // LATD: the 7-segment display (RD0..RD6 = segments a..g), or the LED walk
    | Rc3(high: bool)     // system LED
    | Rc6(high: bool)     // buzzer
    | Rc7(high: bool)     // motor relay

  /** The photoresistor lines a polling loop waits on. */
  datatype Watch = Pr1 | Pr2 | EitherPr

  predicate Covered(s: Sample, w: Watch) {
    match w
    case Pr1 => s.re0
    case Pr2 => s.re1
    case EitherPr => s.re0 || s.re1
  }

  function Now(pins: seq<Sample>): Sample {
    if pins == [] then Idle else pins[0]
  }

  function Tail<T>(s: seq<T>): seq<T> {
    if s == [] then [] else s[1..]
  }

  ghost predicate IsSuffix<T>(r: seq<T>, s: seq<T>) {
    |r| <= |s| && r == s[|s| - |r|..]
  }

  /** The samples left once `while (<w covered>);` has spun until the lines are uncovered. */
  function Uncovered(pins: seq<Sample>, w: Watch): (rest: seq<Sample>)
    ensures |rest| <= |pins| && !Covered(Now(rest), w)
    decreases |pins|
  {
    if Covered(Now(pins), w) then Uncovered(pins[1..], w) else pins
  }

  /** Waiting only consumes samples, and only covered ones. */
  lemma {:induction false} UncoveredSkipsCovered(pins: seq<Sample>, w: Watch)
    ensures var rest := Uncovered(pins, w);
      IsSuffix(rest, pins) && forall k :: 0 <= k < |pins| - |rest| ==> Covered(pins[k], w)
    decreases |pins|
  {
    if Covered(Now(pins), w) {
      UncoveredSkipsCovered(pins[1..], w);
      var rest := Uncovered(pins[1..], w);
      assert pins[1..][|pins| - 1 - |rest|..] == pins[|pins| - |rest|..];
      forall k | 0 < k < |pins| - |rest| ensures Covered(pins[k], w) {
        assert pins[k] == pins[1..][k - 1];
      }
    }
  }

  /** The segment pattern `display_digit` writes for a character. */
  function SegmentPattern(c: char): (p: int)
    ensures 0 <= p < 0x80
    ensures c !in "0123456789*#" ==> p == 0x49
  {
    match c
    case '0' => 0x3F
    case '1' => 0x06
    case '2' => 0x5B
    case '3' => 0x4F
    case '4' => 0x66
    case '5' => 0x6D
    case '6' => 0x7D
    case '7' => 0x07
    case '8' => 0x7F
    case '9' => 0x6F
    case '*' => 0x63
    case '#' => 0x79
    case 'E' => 0x49
    case _ => 0x49
  }

  /** The character of a decimal digit, `(char)(n + '0')`. */
  function DigitChar(n: int): char
    requires 0 <= n <= 9
  {
    (n + '0' as int) as char
  }

  /** Reading a digit back off the display; -1 for a pattern that is no digit. */
  function PatternDigit(p: int): int {
    match p
    case 0x3F => 0
    case 0x06 => 1
    case 0x5B => 2
    case 0x4F => 3
    case 0x66 => 4
    case 0x6D => 5
    case 0x7D => 6
    case 0x07 => 7
    case 0x7F => 8
    case 0x6F => 9
    case _ => -1
  }

  /** Every digit can be read back off its pattern, and none looks like the three-bar "E". */
  lemma DigitPatternRoundTrip(n: int)
    requires 0 <= n <= 9
    ensures PatternDigit(SegmentPattern(DigitChar(n))) == n
    ensures PatternDigit(SegmentPattern('E')) == -1
  {
    match n
    case 0 => case 1 => case 2 => case 3 => case 4 =>
    case 5 => case 6 => case 7 => case 8 => case 9 =>
  }

  /** The ten digits light ten different patterns, none of them the three-bar "E". */
  lemma DigitPatternsDistinct(m: int, n: int)
    requires 0 <= m <= 9 && 0 <= n <= 9
    ensures SegmentPattern(DigitChar(m)) != SegmentPattern('E')
    ensures m != n ==> SegmentPattern(DigitChar(m)) != SegmentPattern(DigitChar(n))
  {
    DigitPatternRoundTrip(m);
    DigitPatternRoundTrip(n);
  }

  /** What the display shows while a count climbs from 1 to `n`. */
  function Shown(n: nat): (s: seq<Output>)
    requires n <= 9
    ensures |s| == n && forall k :: 0 <= k < n ==> s[k] == LatD(SegmentPattern(DigitChar(k + 1)))
  {
    if n == 0 then [] else Shown(n - 1) + [LatD(SegmentPattern(DigitChar(n)))]
  }

  /** Assignment to a `uint8_t`: the value modulo 256. */
  function Byte(v: int): (r: int)
    ensures 0 <= r < 256 && (0 <= v < 256 ==> r == v)
  {
    v % 256
  }

  /** `v++` on a `uint8_t`. */
  function IncByte(v: int): (r: int)
    ensures 0 <= r < 256 && (0 <= v < 255 ==> r == v + 1) && (v == 255 ==> r == 0)
  {
    (v + 1) % 256
  }

  lemma ShownSnoc(n: nat)
    requires n < 9
    ensures Shown(n + 1) == Shown(n) + [LatD(SegmentPattern(DigitChar(n + 1)))]
  {
  }

  /** The writes of one spin of `input_digit`: the new count if it rose, then "E" if confirmed. */
  function Redisplay(count: int, count': int, confirmed: bool): seq<Output>
    requires 0 <= count' <= 9
  {
    (if count' > count then [LatD(SegmentPattern(DigitChar(count')))] else [])
    + (if confirmed then [LatD(SegmentPattern('E'))] else [])
  }

  /** The display trace of `input_digit`: the counts shown, then "E" once confirmed. */
  function CountTrace(count: nat, confirmed: bool): seq<Output>
    requires count <= 9
  {
    Shown(count) + if confirmed then [LatD(SegmentPattern('E'))] else []
  }

  lemma TraceStep(prefix: seq<Output>, count: nat, count': nat, confirmed: bool)
    requires count <= count' <= count + 1 && count' <= 9
    ensures prefix + Shown(count) + Redisplay(count, count', confirmed) == prefix + CountTrace(count', confirmed)
  {
    var e: seq<Output> := if confirmed then [LatD(SegmentPattern('E'))] else [];
    if count' > count {
      ShownSnoc(count);
      calc {
        prefix + Shown(count) + Redisplay(count, count', confirmed);
        prefix + Shown(count) + ([LatD(SegmentPattern(DigitChar(count')))] + e);
        { assert Shown(count) + ([LatD(SegmentPattern(DigitChar(count')))] + e) == Shown(count') + e; }
        prefix + (Shown(count') + e);
      }
    } else {
      assert Redisplay(count, count', confirmed) == e;
    }
  }

  /** The outcome of `input_digit`. */
  datatype Entry = Entry(count: int, confirmed: bool, rest: seq<Sample>)

  /** Whether sample `s` raises the count: the chosen sensor is covered and the count is below 4. */
  predicate Bumps(sensorPin: int, count: int, s: Sample) {
    ((sensorPin == 0 && s.re0) || (sensorPin == 1 && s.re1)) && count < 4
  }

  /** The samples left after a bump has waited for the sensor to be uncovered again. */
  function AfterBump(sensorPin: int, count: int, pins: seq<Sample>): (rest: seq<Sample>)
    ensures |rest| <= |pins|
  {
    if Bumps(sensorPin, count, Now(pins)) then Uncovered(pins, if sensorPin == 0 then Pr1 else Pr2) else pins
  }

  /**
   * The counting loop of `input_digit` for the sensor `sensorPin`, entered with
   * `count` on the display: covering the chosen sensor raises the count by one
   * (up to 4) once it is uncovered again, and the confirm button ends the entry.
   */
  function Counting(sensorPin: int, count: int, pins: seq<Sample>): (e: Entry)
    requires 1 <= count <= 4
    ensures count <= e.count <= 4 && |e.rest| <= |pins|
    ensures e.confirmed == Now(e.rest).rc4 && (!e.confirmed ==> e.rest == [])
    decreases |pins|
  {
    var count' := if Bumps(sensorPin, count, Now(pins)) then count + 1 else count;
    var pins' := AfterBump(sensorPin, count, pins);
    if Now(pins').rc4 then Entry(count', true, pins')
    else if pins' == [] then Entry(count', false, [])
    else Counting(sensorPin, count', pins'[1..])
  }

  lemma SuffixTrans<T>(a: seq<T>, b: seq<T>, c: seq<T>)
    requires IsSuffix(a, b) && IsSuffix(b, c)
    ensures IsSuffix(a, c)
  {
    assert c[|c| - |b|..][|b| - |a|..] == c[|c| - |a|..];
  }

  /** `input_digit`: wait until both sensors are uncovered, then count from 1. */
  function DigitEntry(sensorPin: int, pins: seq<Sample>): (e: Entry)
    ensures 1 <= e.count <= 4 && |e.rest| <= |pins|
  {
    Counting(sensorPin, 1, Uncovered(pins, EitherPr))
  }

  /** Counting one more only consumes samples from the front, and only covered ones. */
  lemma AfterBumpSkipsCovered(sensorPin: int, count: int, pins: seq<Sample>)
    ensures var rest := AfterBump(sensorPin, count, pins);
      && IsSuffix(rest, pins)
      && forall k :: 0 <= k < |pins| - |rest| ==> Covered(pins[k], if sensorPin == 0 then Pr1 else Pr2)
  {
    UncoveredSkipsCovered(pins, if sensorPin == 0 then Pr1 else Pr2);
  }

  /** A digit entry only consumes samples, from the front of the stream. */
  lemma {:induction false} CountingConsumes(sensorPin: int, count: int, pins: seq<Sample>)
    requires 1 <= count <= 4
    ensures IsSuffix(Counting(sensorPin, count, pins).rest, pins)
    decreases |pins|
  {
    var count' := if Bumps(sensorPin, count, Now(pins)) then count + 1 else count;
    var pins' := AfterBump(sensorPin, count, pins);
    AfterBumpSkipsCovered(sensorPin, count, pins);
    if !Now(pins').rc4 && pins' != [] {
      var rest := Counting(sensorPin, count', pins'[1..]).rest;
      CountingConsumes(sensorPin, count', pins'[1..]);
      SuffixTrans(rest, pins'[1..], pins');
      SuffixTrans(rest, pins', pins);
    }
  }

  lemma DigitEntryConsumes(sensorPin: int, pins: seq<Sample>)
    ensures IsSuffix(DigitEntry(sensorPin, pins).rest, pins)
  {
    var u := Uncovered(pins, EitherPr);
    UncoveredSkipsCovered(pins, EitherPr);
    CountingConsumes(sensorPin, 1, u);
    SuffixTrans(DigitEntry(sensorPin, pins).rest, u, pins);
  }

  /** The 3x4 keypad, rows top to bottom, columns RB5..RB7. */
  const Keys: seq<seq<char>> := ["123", "456", "789", "*0#"]

  /**
   * `get_keypad_key`: the key of the first row, and within it the first
   * column, found down; `NoKey` when no key is down.
   */
  method GetKeypadKey(down: Keypad.Pressed) returns (key: char)
    ensures Keypad.WellFormed(Keys, 3) && key == Keypad.ScanKey(Keys, 3, down)
    ensures key == Keypad.NoKey <==> Keypad.NoneBefore(down, 3, 4, 0)
    ensures key != Keypad.NoKey ==> exists r, c :: Keypad.FirstDown(down, 4, 3, r, c) && key == Keys[r][c]
  {
    var rows;
    key, rows := Keypad.Scan(Keys, 3, down);
  }

  function ScanOf(down: Keypad.Pressed): char {
    assert Keypad.WellFormed(Keys, 3);
    Keypad.ScanKey(Keys, 3, down)
  }

  /** The key the next scan finds; no key once the stream has ended. */
  function FirstKey(scans: seq<Keypad.Pressed>): char {
    if scans == [] then Keypad.NoKey else ScanOf(scans[0])
  }

  /** The keys a new secret code may be made of. */
  predicate IsCodeKey(k: char) {
    '0' <= k <= '4'
  }

  /**
   * A lock code: two decimal digits, each 0..4, the only codes the keypad and
   * the photoresistors can produce.
   */
  predicate IsLockCode(c: int) {
    0 <= c <= 44 && c % 10 <= 4
  }

  /** An entry that waited on the keypad: the value read and the scans it used; or still waiting. */
  datatype Wait = Accepted(value: int, used: nat) | Starved

  function Shift(w: Wait, n: nat): Wait {
    match w
    case Starved => Starved
    case Accepted(v, u) => Accepted(v, u + n)
  }

  /** The key the `j`-th scan finds. */
  function KeyAt(scans: seq<Keypad.Pressed>, j: int): char
    requires 0 <= j < |scans|
  {
    ScanOf(scans[j])
  }

  /**
   * `wait_for_keypad_digit` over the scans `scans`: the first scan that finds a
   * key '0'..'4' ends the wait with that digit; every other key is ignored.
   */
  function DigitWait(scans: seq<Keypad.Pressed>): (w: Wait)
    ensures w.Accepted? ==> 0 <= w.value <= 4 && 1 <= w.used <= |scans|
    decreases |scans|
  {
    if |scans| == 0 then Starved
    else if IsCodeKey(KeyAt(scans, 0)) then Accepted(KeyAt(scans, 0) as int - '0' as int, 1)
    else Shift(DigitWait(scans[1..]), 1)
  }

  /**
   * The wait ends at the first scan that finds a code key, with that key's
   * digit, and starves exactly when no scan finds one.
   */
  lemma {:induction false} DigitWaitFindsFirstCodeKey(scans: seq<Keypad.Pressed>)
    ensures var w := DigitWait(scans);
      && (w.Accepted? ==>
            && KeyAt(scans, w.used - 1) == DigitChar(w.value)
            && forall j :: 0 <= j < w.used - 1 ==> !IsCodeKey(KeyAt(scans, j)))
      && (w.Starved? <==> forall j :: 0 <= j < |scans| ==> !IsCodeKey(KeyAt(scans, j)))
    decreases |scans|
  {
    if |scans| > 0 && !IsCodeKey(KeyAt(scans, 0)) {
      DigitWaitFindsFirstCodeKey(scans[1..]);
      assert forall j :: 1 <= j < |scans| ==> KeyAt(scans[1..], j - 1) == KeyAt(scans, j);
    }
  }

  /** A scan that finds no code key only adds one to the scans used. */
  lemma DigitWaitSkips(scans: seq<Keypad.Pressed>)
    requires |scans| > 0 && !IsCodeKey(FirstKey(scans))
    ensures forall n: nat :: Shift(DigitWait(scans), n) == Shift(DigitWait(scans[1..]), n + 1)
  {
  }

  /** `set_new_secret_code`: two keypad digits, high then low, make `high * 10 + low`. */
  function CodeEntry(scans: seq<Keypad.Pressed>): (w: Wait)
    ensures w.Accepted? ==> IsLockCode(w.value) && w.used <= |scans|
  {
    match DigitWait(scans)
    case Starved => Starved
    case Accepted(high, n) =>
      match DigitWait(scans[n..])
      case Starved => Starved
      case Accepted(low, m) =>
        CodeDigitsRoundTrip(high, low);
        Accepted(high * 10 + low, n + m)
  }

  /** A code determines its two digits: the tens and units of `high * 10 + low`. */
  lemma CodeDigitsRoundTrip(high: int, low: int)
    requires 0 <= high <= 4 && 0 <= low <= 4
    ensures IsLockCode(high * 10 + low)
    ensures (high * 10 + low) / 10 == high && (high * 10 + low) % 10 == low
  {
  }

  /** The LED walk `wait_for_keypad_digit` shows before each scan. */
  const Walk: seq<Output> := [LatD(0x01), LatD(0x02), LatD(0x04), LatD(0x08), LatD(0x10), LatD(0x20)]

  /** `n` LED walks, one after the other. */
  function Walks(n: nat): (t: seq<Output>)
    ensures |t| == 6 * n
  {
    seq(6 * n, k => Walk[k % 6])
  }

  lemma WalksSnoc(prefix: seq<Output>, n: nat)
    ensures prefix + Walks(n) + Walk == prefix + Walks(n + 1)
  {
    assert Walks(n) + Walk == Walks(n + 1) by {
      forall k | 0 <= k < 6 * n + 6
        ensures (Walks(n) + Walk)[k] == Walks(n + 1)[k]
      {
        if k >= 6 * n {
          assert (k - 6 * n) == k % 6;
        }
      }
    }
  }

  const MotorRun: seq<Output> := [Rc7(true), Rc7(false)]
  const BuzzerRun: seq<Output> := [Rc6(true), Rc6(false)]

  /** One bar of `emergency_melody`. */
  const Bar: seq<Output> := [Rc3(false), Rc6(true), Rc3(true), Rc6(false)]

  /** `n` bars of the melody: LED off and buzzer on, then LED on and buzzer off. */
  function Melody(n: nat): (m: seq<Output>)
    ensures |m| == 4 * n
    ensures forall k :: 0 <= k < |m| ==> m[k] == Bar[k % 4]
  {
    if n == 0 then [] else Melody(n - 1) + Bar
  }

  /** The controller's globals and the streams it reads and writes. */
  class Safebox {
    var secretCode: int    // SECRET_CODE
    var highDigit: int     // high_digit, from photoresistor 1
    var lowDigit: int      // low_digit, from photoresistor 2
    var confirmation: int  // confirmation: digits confirmed since the last comparison
    var userCode: int      // user_code
    var int0Flag: bool     // PIR1bits.INT0IF

    var pins: seq<Sample>               // samples of RE0, RE1 and RC4 still to come
    var keypad: seq<Keypad.Pressed>     // keypad states the coming scans see
    var out: seq<Output>                // writes made so far

    /**
     * Digits are 0..4 and codes are lock codes. `confirmation` is a `uint8_t`.
     */
    ghost predicate Valid()
      reads this
    {
      && IsLockCode(secretCode) && IsLockCode(userCode)
      && 0 <= highDigit <= 4 && 0 <= lowDigit <= 4
      && 0 <= confirmation < 256
    }

    /** The globals' initial values; the pins and the keypad are given. */
    constructor (pins: seq<Sample>, keypad: seq<Keypad.Pressed>)
      ensures Valid()
      ensures secretCode == 0 && highDigit == 0 && lowDigit == 0 && confirmation == 0 && userCode == 0
      ensures !int0Flag && this.pins == pins && this.keypad == keypad && out == []
    {
      secretCode, highDigit, lowDigit, confirmation, userCode := 0, 0, 0, 0, 0;
      int0Flag := false;
      this.pins, this.keypad, out := pins, keypad, [];
    }

    /** `check_code`. */
    predicate CheckCode(code: int)
      reads this
    {
      code == secretCode
    }

    method DisplayDigit(c: char)
      modifies this`out
      ensures out == old(out) + [LatD(SegmentPattern(c))]
    {
      out := out + [LatD(SegmentPattern(c))];
    }

    method ActivateMotor()
      modifies this`out
      ensures out == old(out) + MotorRun
    {
      out := out + [Rc7(true)];
      out := out + [Rc7(false)];
    }

    method ActivateBuzzer()
      modifies this`out
      ensures out == old(out) + BuzzerRun
    {
      out := out + [Rc6(true)];
      out := out + [Rc6(false)];
    }

    /** Let the next pin sample arrive. */
    method Advance()
      modifies this`pins
      ensures pins == Tail(old(pins))
    {
      if pins != [] {
        pins := pins[1..];
      }
    }

    /** Spin while the watched lines are covered. */
    method WaitUncovered(w: Watch)
      modifies this`pins
      ensures pins == Uncovered(old(pins), w)
    {
      while Covered(Now(pins), w)
        invariant Uncovered(pins, w) == Uncovered(old(pins), w)
        decreases |pins|
      {
        Advance();
      }
    }

    /** One spin of `input_digit`'s loop up to the button test: maybe count one more. */
    method Bump(sensorPin: int, count: int) returns (count': int)
      requires 1 <= count <= 4
      modifies this`pins, this`out
      ensures var bumped := Bumps(sensorPin, count, Now(old(pins)));
        && count' == (if bumped then count + 1 else count)
        && pins == AfterBump(sensorPin, count, old(pins))
        && out == old(out) + if bumped then [LatD(SegmentPattern(DigitChar(count')))] else []
    {
      var s := Now(pins);
      count' := count;
      if sensorPin == 0 && s.re0 && count < 4 {
        count' := count + 1;
        WaitUncovered(Pr1);
        DisplayDigit(DigitChar(count'));
      } else if sensorPin == 1 && s.re1 && count < 4 {
        count' := count + 1;
        WaitUncovered(Pr2);
        DisplayDigit(DigitChar(count'));
      }
    }

    /**
     * One spin of `input_digit`'s loop: maybe count one more, then either stop
     * on the confirm button (or at the end of the samples) or go on polling.
     */
    method Spin(sensorPin: int, count: int) returns (count': int, stop: bool, confirmed: bool)
      requires 1 <= count <= 4
      modifies this`pins, this`out, this`confirmation
      ensures count <= count' <= count + 1 && count' <= 4
      ensures stop ==> Counting(sensorPin, count, old(pins)) == Entry(count', confirmed, pins)
      ensures !stop ==>
        && !confirmed && pins == Tail(AfterBump(sensorPin, count, old(pins))) && |pins| < |old(pins)|
        && Counting(sensorPin, count, old(pins)) == Counting(sensorPin, count', pins)
      ensures confirmation == if confirmed then IncByte(old(confirmation)) else old(confirmation)
      ensures out == old(out) + Redisplay(count, count', confirmed)
    {
      count' := Bump(sensorPin, count);
      if Now(pins).rc4 {
        confirmation := IncByte(confirmation);
        DisplayDigit('E');
        stop, confirmed := true, true;
      } else if pins == [] {
        stop, confirmed := true, false;
      } else {
        stop, confirmed := false, false;
        Advance();
      }
    }

    /**
     * `input_digit(sensorPin)`. The count shown climbs from 1 and stays within
     * 1..4; when the button confirms it, `confirmation` goes up by one and "E"
     * is shown. `confirmed` is false when the samples ran out first: the
     * firmware is then still polling.
     */
    method InputDigit(sensorPin: int) returns (count: int, confirmed: bool)
      modifies this`pins, this`out, this`confirmation
      ensures var e := DigitEntry(sensorPin, old(pins));
        count == e.count && confirmed == e.confirmed && pins == e.rest
      ensures 1 <= count <= 4
      ensures confirmation == if confirmed then IncByte(old(confirmation)) else old(confirmation)
      ensures out == old(out) + CountTrace(count, confirmed)
    {
      ghost var e := DigitEntry(sensorPin, pins);
      WaitUncovered(EitherPr);
      count := 1;
      DisplayDigit(DigitChar(count));
      ghost var start := out[..|old(out)|];
      assert start == old(out);
      ShownSnoc(0);
      while true
        invariant 1 <= count <= 4
        invariant e == Counting(sensorPin, count, pins)
        invariant confirmation == old(confirmation)
        invariant out == start + Shown(count)
        decreases |pins|
      {
        ghost var was := count;
        var stop;
        count, stop, confirmed := Spin(sensorPin, count);
        TraceStep(start, was, count, confirmed);
        if stop {
          return;
        }
      }
    }

    /** Scan the keypad once. */
    method ReadKeypad() returns (key: char)
      modifies this`keypad
      ensures key == FirstKey(old(keypad)) && keypad == Tail(old(keypad))
    {
      if keypad == [] {
        key := Keypad.NoKey;
      } else {
        key := GetKeypadKey(keypad[0]);
        keypad := keypad[1..];
      }
    }

    /** One pass of `wait_for_keypad_digit`'s loop: the LED walk, then one scan. */
    method WalkAndScan() returns (key: char)
      modifies this`keypad, this`out
      ensures out == old(out) + Walk
      ensures key == FirstKey(old(keypad)) && keypad == Tail(old(keypad))
    {
      out := out + Walk;
      key := ReadKeypad();
    }

    /**
     * `wait_for_keypad_digit`: walk the LEDs and scan, again and again, until a
     * key '0'..'4' is found; return its digit. `ok` is false when the scans ran
     * out first.
     */
    method WaitForKeypadDigit() returns (digit: int, ok: bool)
      modifies this`keypad, this`out
      ensures var w := DigitWait(old(keypad));
        && ok == w.Accepted?
        && (ok ==> digit == w.value && 0 <= digit <= 4 && keypad == old(keypad)[w.used..] && out == old(out) + Walks(w.used))
        && (!ok ==> keypad == [] && out == old(out) + Walks(if old(keypad) == [] then 1 else |old(keypad)|))
    {
      ghost var n := 0;
      while true
        invariant 0 <= n <= |old(keypad)| && keypad == old(keypad)[n..]
        invariant keypad == [] ==> n == 0
        invariant DigitWait(old(keypad)) == Shift(DigitWait(keypad), n)
        invariant out == old(out) + Walks(n)
        decreases |keypad|
      {
        ghost var before := keypad;
        var key := WalkAndScan();
        WalksSnoc(old(out), n);
        if IsCodeKey(key) {
          digit, ok := key as int - '0' as int, true;
          assert DigitWait(before) == Accepted(digit, 1);
          assert DigitWait(old(keypad)) == Accepted(digit, n + 1);
          return;
        }
        if keypad == [] {
          digit, ok := 0, false;
          assert DigitWait(old(keypad)) == Starved;
          assert (if old(keypad) == [] then 1 else |old(keypad)|) == n + 1;
          return;
        }
        DigitWaitSkips(before);
        assert keypad == old(keypad)[n + 1..];
        n := n + 1;
      }
    }

    /** One digit of `set_new_secret_code`: wait for it on the keypad, then show it. */
    method KeypadDigitShown() returns (digit: int, ok: bool)
      modifies this`keypad, this`out
      ensures var w := DigitWait(old(keypad));
        && ok == w.Accepted?
        && (ok ==> digit == w.value && keypad == old(keypad)[w.used..]
                   && out == old(out) + Walks(w.used) + [LatD(SegmentPattern(DigitChar(digit)))])
        && (!ok ==> keypad == [])
    {
      digit, ok := WaitForKeypadDigit();
      if ok {
        DisplayDigit(DigitChar(digit));
      }
    }

    /**
     * `set_new_secret_code`: the high digit, then the low digit, each shown
     * once read, then "E"; the code is `high * 10 + low`.
     */
    method SetNewSecretCode() returns (code: int, ok: bool)
      modifies this`keypad, this`out
      ensures var e := CodeEntry(old(keypad));
        && ok == e.Accepted?
        && (ok ==> code == e.value && IsLockCode(code) && keypad == old(keypad)[e.used..])
        && (!ok ==> keypad == [])
      ensures ok ==>
        var w1 := DigitWait(old(keypad));
        var w2 := DigitWait(old(keypad)[w1.used..]);
        && code == w1.value * 10 + w2.value
        && out == old(out) + Walks(w1.used) + [LatD(SegmentPattern(DigitChar(w1.value)))]
                           + Walks(w2.used) + [LatD(SegmentPattern(DigitChar(w2.value))), LatD(SegmentPattern('E'))]
    {
      var high, ok1 := KeypadDigitShown();
      if !ok1 {
        code, ok := 0, false;
        return;
      }
      var low, ok2 := KeypadDigitShown();
      if !ok2 {
        code, ok := 0, false;
        return;
      }
      DisplayDigit('E');
      CodeDigitsRoundTrip(high, low);
      code, ok := Byte(high * 10 + low), true;
    }

    /** `check_for_change_code_request`: only a '*' starts setting a new secret code. */
    method CheckForChangeCodeRequest() returns (done: bool)
      requires Valid()
      modifies this`keypad, this`out, this`secretCode
      ensures Valid()
      ensures FirstKey(old(keypad)) != '*' ==>
        done && secretCode == old(secretCode) && keypad == Tail(old(keypad)) && out == old(out)
      ensures FirstKey(old(keypad)) == '*' ==>
        var e := CodeEntry(Tail(old(keypad)));
        && done == e.Accepted? && secretCode == (if done then e.value else old(secretCode))
        && keypad == (if done then Tail(old(keypad))[e.used..] else [])
    {
      var key := ReadKeypad();
      done := true;
      if key == '*' {
        var code;
        code, done := SetNewSecretCode();
        if done {
          secretCode := code;
        }
      }
    }

    /** `user_code = (high_digit * 10) + low_digit`, a lock code. */
    method RecombineUserCode()
      requires 0 <= highDigit <= 4 && 0 <= lowDigit <= 4
      modifies this`userCode
      ensures userCode == highDigit * 10 + lowDigit && IsLockCode(userCode)
    {
      CodeDigitsRoundTrip(highDigit, lowDigit);
      userCode := Byte(highDigit * 10 + lowDigit);
    }

    /**
     * `check_for_PR_input`: a covered photoresistor 1 enters the high digit,
     * otherwise a covered photoresistor 2 the low digit, and the user code is
     * recombined; with neither covered nothing happens. `done` is false when
     * the samples ran out before the digit was confirmed.
     */
    method CheckForPRInput() returns (done: bool)
      requires Valid()
      modifies this`pins, this`out, this`confirmation, this`highDigit, this`lowDigit, this`userCode
      ensures Valid()
      ensures !Now(old(pins)).re0 && !Now(old(pins)).re1 ==>
        && done && pins == old(pins) && out == old(out) && confirmation == old(confirmation)
        && highDigit == old(highDigit) && lowDigit == old(lowDigit) && userCode == old(userCode)
      ensures Now(old(pins)).re0 || Now(old(pins)).re1 ==>
        var sensor := if Now(old(pins)).re0 then 0 else 1;
        var e := DigitEntry(sensor, old(pins));
        && done == e.confirmed && pins == e.rest && out == old(out) + CountTrace(e.count, done)
        && confirmation == (if done then IncByte(old(confirmation)) else old(confirmation))
        && highDigit == (if done && sensor == 0 then e.count else old(highDigit))
        && lowDigit == (if done && sensor == 1 then e.count else old(lowDigit))
        && userCode == (if done then highDigit * 10 + lowDigit else old(userCode))
    {
      var s := Now(pins);
      done := true;
      if s.re0 || s.re1 {
        if s.re0 {
          var count;
          count, done := InputDigit(0);
          if !done {
            return;
          }
          highDigit := count;
        } else if s.re1 {
          var count;
          count, done := InputDigit(1);
          if !done {
            return;
          }
          lowDigit := count;
        }
        RecombineUserCode();
      }
    }

    /**
     * `code_correct_or_wrong`: once two digits are confirmed, run the motor if
     * the user code is the secret code and the buzzer otherwise, then clear the
     * digits and the confirmation count. The codes themselves are kept.
     */
    method CodeCorrectOrWrong()
      requires Valid()
      modifies this`out, this`highDigit, this`lowDigit, this`confirmation
      ensures Valid()
      ensures old(confirmation) != 2 ==>
        out == old(out) && highDigit == old(highDigit) && lowDigit == old(lowDigit) && confirmation == old(confirmation)
      ensures old(confirmation) == 2 ==>
        && out == old(out) + (if userCode == secretCode then MotorRun else BuzzerRun)
        && highDigit == 0 && lowDigit == 0 && confirmation == 0
    {
      if confirmation == 2 {
        if CheckCode(userCode) {
          ActivateMotor();
        } else {
          ActivateBuzzer();
        }
        highDigit := 0;
        lowDigit := 0;
        confirmation := 0;
      }
    }

    /** The start of `main`: the system LED goes on and the first secret code is read. */
    method Start() returns (done: bool)
      requires Valid()
      modifies this`keypad, this`out, this`secretCode
      ensures Valid()
      ensures var e := CodeEntry(old(keypad));
        && done == e.Accepted? && secretCode == (if done then e.value else old(secretCode))
        && keypad == (if done then old(keypad)[e.used..] else [])
    {
      out := out + [Rc3(true)];
      var code;
      code, done := SetNewSecretCode();
      if done {
        secretCode := code;
      }
    }

    /**
     * One pass of `main`'s loop: the system LED, the keypad check, the
     * photoresistor check and the comparison; the pins are read at a later
     * instant on the next pass. Between passes at most one digit is pending,
     * since every pass confirms at most one digit and compares at two. A pass
     * that finds no '*' and neither photoresistor covered changes no global.
     * `done` is false when an input stream ran out inside the pass.
     */
    method Step() returns (done: bool)
      requires Valid() && confirmation <= 1
      modifies this`keypad, this`pins, this`out, this`secretCode, this`confirmation,
               this`highDigit, this`lowDigit, this`userCode
      ensures Valid()
      ensures done ==> confirmation <= 1
      ensures FirstKey(old(keypad)) == '*' ==>
        var e := CodeEntry(Tail(old(keypad)));
        && (e.Starved? ==> !done && keypad == [] && secretCode == old(secretCode))
        && (e.Accepted? ==> secretCode == e.value)
      ensures FirstKey(old(keypad)) != '*' ==> secretCode == old(secretCode)
      ensures FirstKey(old(keypad)) != '*' && !Now(old(pins)).re0 && !Now(old(pins)).re1 ==>
        && done && keypad == Tail(old(keypad)) && pins == Tail(old(pins)) && out == old(out) + [Rc3(true)]
        && highDigit == old(highDigit) && lowDigit == old(lowDigit)
        && userCode == old(userCode) && confirmation == old(confirmation)
    {
      out := out + [Rc3(true)];
      done := CheckForChangeCodeRequest();
      if !done {
        return;
      }
      done := CheckForPRInput();
      if !done {
        return;
      }
      CodeCorrectOrWrong();
      Advance();
    }

    /** `INT0_ISR`: five bars of the melody, then the INT0 flag is cleared. */
    method Int0Isr()
      modifies this`out, this`int0Flag
      ensures out == old(out) + Melody(5) && !int0Flag
    {
      for i := 0 to 5
        invariant out == old(out) + Melody(i)
      {
        out := out + [Rc3(false)];
        out := out + [Rc6(true)];
        out := out + [Rc3(true)];
        out := out + [Rc6(false)];
      }
      int0Flag := false;
    }
  }
}
