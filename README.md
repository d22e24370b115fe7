# EE310 microcontroller assignments: keypad calculator, safebox lock, LCD voltmeter

A Dafny model of three PIC18 firmware programs and proofs about them:

- **Calculator** (`calculator.dfy`, module `Calculator`): the 4x4-keypad
  calculator. Two operands are keyed in digit by digit; 'A'..'D' pick add,
  subtract, multiply or divide; '#' evaluates and shows the result on the eight
  LEDs of PORTD; '*' clears everything. The six globals and PORTD are the
  fields of the class `Machine`. Its methods (`ResetAll`, `DisplayOnLEDs`,
  `Calculate`, `HandleInput`) are proved against the pure transition function
  `HandleKey` on the value `Regs`. The properties of the state machine are
  lemmas about `HandleKey`. `Machine.Run` is `main`'s loop over a sequence of
  keypad scans. XC8's `int` is 16 bits wide, so every assignment wraps with
  `Wrap16`. C's truncating `/` is `CDiv`.
- **Safebox** (`safebox.dfy`, module `Safebox`): the combination lock.
  Photoresistor 1 enters the high digit and photoresistor 2 the low digit,
  each by covering it once per count from 1 up to 4. The RC4 button confirms a
  digit. After two confirmations the user code is compared with the secret
  code, and the motor runs on a match and the buzzer otherwise. A '*' on the
  3x4 keypad sets a new secret code from two keypad digits 0..4. The globals
  are fields of the class `Safebox`. The pin levels and the keypad states the
  firmware polls are input streams (`pins`, `keypad`). After `init_system`, every write to LATD,
  RC3, RC6 and RC7 is appended to the output trace `out`. Each polling method
  is proved against a pure function of the streams (`DigitEntry`,
  `DigitWait`, `CodeEntry`). `CheckCode` is the `check_code` comparison, used
  by `CodeCorrectOrWrong`.
- **Keypad scan** (`keypad.dfy`, module `Keypad`): the row-major,
  first-match scan both keypads use. It is written once over an abstract
  "pressed" matrix and instantiated with the 4x4 and the 4x3 key tables.
- **LCD and ADC** (`adc_lcd.dfy`, module `AdcLcd`): the HD44780-style
  two-line character LCD on an 8-bit bus. Every latched write is a `BusWrite(rs, data)` event on
  the trace `Lcd.bus`. The module also covers the cursor-address command, the
  NUL-terminated string output, the combination of the two ADC result
  registers in a 16-bit `int`, and the LED trace of the interrupt-on-change
  handler. XC8's plain `char` is unsigned, so these bytes are `bv8`.

The model follows the code in two places where a reader might expect
otherwise:

- The second operand of the calculator is not capped at two digits: every
  further digit keeps accumulating (`SecondOperandKeepsAccumulating`).
- `~value + 1` negates a negative result, so the LEDs show its magnitude, not
  its two's-complement byte (`LedByteIsMagnitude`, `ThreeMinusNine`).

Input streams are finite. Past their end the lines stay idle: uncovered,
released, no key. A method that would then wait for ever returns a flag
(`confirmed`, `ok`, `done`) saying it is still waiting.

## Model

| member | source | states |
|---|---|---|
| Keypad.FirstFromFinds | Assignments/Calculator.X/main.c:91-103 | A scan resumed at a row and column, with no key down before that point, returns no key exactly when no key at all is down; otherwise it returns the table entry of the first key down in row-major order. |
| Keypad.ScanKeyIsFirstMatch | Assignments/InterfacingWithSensors_A8.X/functions.h:131-146 | A whole scan returns the character 0 exactly when no key is down, and otherwise the key of the first row, and within it the first column, that is down. |
| Keypad.Scan | Assignments/Calculator.X/main.c:91-103 | The nested row/column loop with early return computes that first-match key. It drives every row when no key is found, and stops at the row of the key it finds. |
| Calculator.Wrap16 | Assignments/Calculator.X/main.c:107-112 | Storing into a 16-bit `int` gives the value congruent modulo 2^16 within -32768..32767, and leaves in-range values unchanged. |
| Calculator.CDiv | Assignments/Calculator.X/main.c:147 | C division truncates toward zero: the remainder is smaller than the divisor in magnitude and has the dividend's sign; for non-negative operands it is Dafny's `/`. |
| Calculator.LedByte | Assignments/Calculator.X/main.c:133-137 | The byte written to PORTD is always in 0..255. |
| Calculator.LedByteIsMagnitude | Assignments/Calculator.X/main.c:134-136 | For every 16-bit value, `displayOnLEDs` lights the low byte of its magnitude, so a negative result shows its absolute value. |
| Calculator.GetKeyPressed | Assignments/Calculator.X/main.c:80-104 | `getKeyPressed` on the 4x4 table returns 0 exactly when no key is down, and otherwise the first key down in row-major order over columns RB4..RB7. |
| Calculator.Evaluate | Assignments/Calculator.X/main.c:144-147 | The value `calculate` leaves in `Display_Result_REG`: the 16-bit sum, difference, product or truncated quotient, selected by the operator, or the previous value for division by zero and for no operator. Its properties are `EvaluateWraps` and `EvaluateExact`. |
| Calculator.Calculated | Assignments/Calculator.X/main.c:143-157 | The registers after `calculate`: the new result, PORTD showing it, and the operands and entry state cleared. Its properties are in `CalculateOutcome`. |
| Calculator.HandleKey | Assignments/Calculator.X/main.c:167-203 | The registers after `handleInput(key)`: a digit goes to the operand being keyed, an operator is recorded, '#' clears PORTD and calculates, '*' resets, anything else is ignored. Its properties are the lemmas below. |
| Calculator.HandleKeyKeepsInv | Assignments/Calculator.X/main.c:167-203 | Every key keeps the reachable-state invariant: X is at most 9 while keying the first operand and at most 99 after, Y is 0 until then, the digit count is 0 or 1, and the operator is 0 or one of 'A'..'D'. |
| Calculator.RunKeysKeepsInv | Assignments/Calculator.X/main.c:167-203 | The invariant holds after any sequence of keys. |
| Calculator.FirstOperandAtMost99 | Assignments/Calculator.X/main.c:170-177 | Whatever keys follow a reset, `X_Input_REG` stays within 0..99. |
| Calculator.FirstOperandTwoDigits | Assignments/Calculator.X/main.c:169-177 | The first digit of the first operand sets X to its value and counts it. The second sets X to the two-digit value and switches to the second operand, with the count reset and LED1 lit. Nothing else changes. |
| Calculator.SecondOperandKeepsAccumulating | Assignments/Calculator.X/main.c:178-184 | Three digits on the second operand give Y its three-digit value. LED2 is lit after the second digit, the count is back to 1 after the third, and X and `isSecond` are untouched. |
| Calculator.OtherKeys | Assignments/Calculator.X/main.c:189-202 | An operator key changes only the operator, '*' restores the cleared state, and any key that is not a digit, an operator, '#' or '*' changes nothing. |
| Calculator.CalculateOutcome | Assignments/Calculator.X/main.c:143-157 | From every reachable state '#' clears X, Y, the digit count and `isSecond`, keeps the operator, and PORTD shows the result's magnitude. With division by zero or no operator the previous result stays. A, B, C and D store X+Y, X-Y, X*Y and C's truncated X/Y modulo 2^16, and exactly those values whenever 0 <= Y <= 330 (Y is uncapped and can wrap to a negative value, which this bound excludes). |
| Calculator.EvaluateWraps | Assignments/Calculator.X/main.c:144-147 | Each of the four operations stores its mathematical value modulo 2^16 in the 16-bit result, and any other operator, or division by zero, keeps the previous result. |
| Calculator.EvaluateExact | Assignments/Calculator.X/main.c:144-147 | For 0 <= X <= 99 and 0 <= Y <= 330, the 16-bit arithmetic does not overflow and equals the mathematical operation. |
| Calculator.DivBound | Assignments/Calculator.X/main.c:147 | Arithmetic helper for `EvaluateExact`: a quotient of non-negative operands lies between 0 and the dividend. |
| Calculator.MulAtLeast | Assignments/Calculator.X/main.c:146 | Arithmetic helper for `DivBound`: multiplying by a positive factor does not decrease a non-negative value. |
| Calculator.MulBound | Assignments/Calculator.X/main.c:146 | Arithmetic helper for `EvaluateExact`: a product of bounded non-negative factors is bounded by the product of the bounds. |
| Calculator.TwelveAndSeven | Assignments/Calculator.X/main.c:169-184 | Keying 1, 2, 0, 7 from the cleared state gives X = 12 and Y = 7, with LED2 lit. |
| Calculator.TwelveAndSevenResults | Assignments/Calculator.X/main.c:189-197 | With 12 and 7 keyed, each operator followed by '#' gives 19, 5, 84 or 1, shows it on PORTD, and keeps the operator. |
| Calculator.ThreeMinusNine | Assignments/Calculator.X/main.c:133-147 | 03 - 09 leaves -6 in the result register and lights 6 on PORTD. |
| Calculator.Dispatched | Assignments/Calculator.X/main.c:216-222 | The keys `main` hands to `handleInput` over a sequence of scans are at most one per scan, and never the no-key character 0. |
| Calculator.DispatchedSnoc | Assignments/Calculator.X/main.c:216-222 | One more scan hands its key to `handleInput` exactly when it finds a key and the scan before it found none. |
| Calculator.RunKeysSnoc | Assignments/Calculator.X/main.c:216-222 | Handling one more key is one more step of the state machine. |
| Calculator.HeldKeyHandledOnce | Assignments/Calculator.X/main.c:217-221 | A key held down for any number of scans after a release is handled exactly once. |
| Calculator.Machine.constructor | Assignments/Calculator.X/main.c:107-112 | The globals start in the cleared state. |
| Calculator.Machine.ResetAll | Assignments/Calculator.X/main.c:119-127 | `resetAll` zeroes the six registers and PORTD. |
| Calculator.Machine.DisplayOnLEDs | Assignments/Calculator.X/main.c:133-137 | Only PORTD changes. It gets the LED byte of the value, which is the low byte of the magnitude for every 16-bit value. |
| Calculator.Machine.Calculate | Assignments/Calculator.X/main.c:143-157 | `calculate` moves the registers to `Calculated` of the old state and keeps the invariant. |
| Calculator.Machine.HandleInput | Assignments/Calculator.X/main.c:167-203 | `handleInput(key)` moves the registers to `HandleKey(old, key)` and keeps the invariant. |
| Calculator.Machine.Poll | Assignments/Calculator.X/main.c:217-221 | One scan reports whether a key is down, and handles the scanned key only when no earlier key is still waiting to be released. |
| Calculator.Machine.Run | Assignments/Calculator.X/main.c:212-224 | `main`'s loop over a sequence of scans leaves the registers as if exactly the dispatched keys (one per press) had been handled in order. |
| Safebox.Uncovered | Assignments/InterfacingWithSensors_A8.X/functions.h:34 | The busy-wait ends on a sample where the watched lines are uncovered, having consumed no more samples than there were. |
| Safebox.UncoveredSkipsCovered | Assignments/InterfacingWithSensors_A8.X/functions.h:42 | The wait consumes only covered samples, from the front of the stream. |
| Safebox.SegmentPattern | Assignments/InterfacingWithSensors_A8.X/functions.h:65-82 | Every pattern fits in the seven segment bits. Every character other than '0'..'9', '*' and '#' gets the three-bar pattern 0b01001001. |
| Safebox.DigitPatternRoundTrip | Assignments/InterfacingWithSensors_A8.X/functions.h:67-79 | Each digit 0..9 can be read back off its segment pattern, and the "E" pattern reads as no digit. |
| Safebox.DigitPatternsDistinct | Assignments/InterfacingWithSensors_A8.X/functions.h:67-79 | The ten digits light ten different patterns, none equal to the "E" pattern. |
| Safebox.Shown | Assignments/InterfacingWithSensors_A8.X/functions.h:35-51 | While a count climbs from 1 to n, the display shows the digits 1, 2, ..., n in order. |
| Safebox.Byte | Assignments/InterfacingWithSensors_A8.X/functions.h:225 | Assigning to a `uint8_t` gives a byte, and leaves in-range values unchanged. |
| Safebox.IncByte | Assignments/InterfacingWithSensors_A8.X/functions.h:57 | `++` on a `uint8_t` adds one below 255 and wraps 255 to 0. |
| Safebox.ShownSnoc | Assignments/InterfacingWithSensors_A8.X/functions.h:41-44 | Raising the count by one shows exactly one more digit. |
| Safebox.TraceStep | Assignments/InterfacingWithSensors_A8.X/functions.h:37-60 | After one more spin of `input_digit`'s loop, the display trace is still the digits counted so far, followed by "E" once confirmed. |
| Safebox.AfterBump | Assignments/InterfacingWithSensors_A8.X/functions.h:39-52 | Counting one more never leaves more samples than there were. |
| Safebox.AfterBumpSkipsCovered | Assignments/InterfacingWithSensors_A8.X/functions.h:39-52 | Counting one more consumes samples only from the front of the stream, and only ones on which the chosen sensor is covered. |
| Safebox.Counting | Assignments/InterfacingWithSensors_A8.X/functions.h:37-61 | The count never decreases and never exceeds 4. The entry ends confirmed exactly when the button is down on the sample it stops at. An unconfirmed entry has used up all samples. |
| Safebox.DigitEntry | Assignments/InterfacingWithSensors_A8.X/functions.h:32-62 | `input_digit` returns a count in 1..4. |
| Safebox.CountingConsumes | Assignments/InterfacingWithSensors_A8.X/functions.h:37-61 | The counting loop only consumes samples: the samples left are a suffix of those it started with. |
| Safebox.DigitEntryConsumes | Assignments/InterfacingWithSensors_A8.X/functions.h:32-62 | `input_digit` only consumes samples, from the front of the stream. |
| Safebox.GetKeypadKey | Assignments/InterfacingWithSensors_A8.X/functions.h:123-147 | `get_keypad_key` returns 0 exactly when no key is down, and otherwise the first key down in row-major order over the 4x3 table (columns RB5..RB7). |
| Safebox.DigitWait | Assignments/InterfacingWithSensors_A8.X/functions.h:152-170 | An accepted keypad digit lies in 0..4 and uses at least one scan, and no more scans than were made. |
| Safebox.DigitWaitFindsFirstCodeKey | Assignments/InterfacingWithSensors_A8.X/functions.h:154-169 | The wait ends at the first scan whose key is in '0'..'4', and returns that key's digit. Every earlier scan found some other key or none. The wait goes on for ever exactly when no scan finds such a key. |
| Safebox.DigitWaitSkips | Assignments/InterfacingWithSensors_A8.X/functions.h:168 | A scan without a code key only adds one scan to the wait. |
| Safebox.CodeEntry | Assignments/InterfacingWithSensors_A8.X/functions.h:213-227 | A code entered on the keypad is a lock code: at most 44, with each decimal digit at most 4. |
| Safebox.CodeDigitsRoundTrip | Assignments/InterfacingWithSensors_A8.X/functions.h:194 | `high * 10 + low` with both digits in 0..4 is a lock code whose tens and units are `high` and `low` again. |
| Safebox.Walks | Assignments/InterfacingWithSensors_A8.X/functions.h:154-167 | `n` passes of the LED walk write six patterns each. |
| Safebox.WalksSnoc | Assignments/InterfacingWithSensors_A8.X/functions.h:154-168 | One more pass appends exactly one more walk. |
| Safebox.Melody | Assignments/InterfacingWithSensors_A8.X/functions.h:104-113 | `n` bars of the melody write LED off, buzzer on, LED on, buzzer off, repeated, four writes per bar. |
| Safebox.Safebox.constructor | Assignments/InterfacingWithSensors_A8.X/functions.h:12-16 | The globals start at 0 and satisfy the invariant. |
| Safebox.Safebox.DisplayDigit | Assignments/InterfacingWithSensors_A8.X/functions.h:65-82 | `display_digit` writes the character's pattern to LATD. |
| Safebox.Safebox.ActivateMotor | Assignments/InterfacingWithSensors_A8.X/functions.h:90-94 | The motor relay goes on, then off. |
| Safebox.Safebox.ActivateBuzzer | Assignments/InterfacingWithSensors_A8.X/functions.h:97-101 | The buzzer goes on, then off. |
| Safebox.Safebox.Advance | Assignments/InterfacingWithSensors_A8.X/functions.h:37 | One spin of a polling loop moves to the next sample. |
| Safebox.Safebox.WaitUncovered | Assignments/InterfacingWithSensors_A8.X/functions.h:34 | The `while (covered);` loop leaves exactly the samples `Uncovered` predicts. |
| Safebox.Safebox.Bump | Assignments/InterfacingWithSensors_A8.X/functions.h:39-52 | The chosen covered sensor, with the count below 4, raises the count by one, waits for the sensor to be uncovered, and shows the new count. Otherwise nothing happens. |
| Safebox.Safebox.Spin | Assignments/InterfacingWithSensors_A8.X/functions.h:39-60 | One spin of the loop raises the count by at most one, up to 4. The button ends the entry, increments `confirmation` as a byte and shows "E". Otherwise the loop goes on from the sample after the one the bump's wait stopped at, and the entry is the same as counting on from there. |
| Safebox.Safebox.InputDigit | Assignments/InterfacingWithSensors_A8.X/functions.h:32-62 | `input_digit` returns the count `DigitEntry` predicts, in 1..4. It increments `confirmation` by exactly one when it returns. The display shows 1, 2, ..., count and then "E". |
| Safebox.Safebox.ReadKeypad | Assignments/InterfacingWithSensors_A8.X/functions.h:123-147 | One keypad scan returns the key of the current keypad state and moves to the next. |
| Safebox.Safebox.WalkAndScan | Assignments/InterfacingWithSensors_A8.X/functions.h:155-167 | One pass of the do-while writes the six-step LED walk, then scans once. |
| Safebox.Safebox.WaitForKeypadDigit | Assignments/InterfacingWithSensors_A8.X/functions.h:152-170 | `wait_for_keypad_digit` returns the digit 0..4 `DigitWait` predicts. It consumes exactly the scans used and shows one LED walk per scan. |
| Safebox.Safebox.KeypadDigitShown | Assignments/InterfacingWithSensors_A8.X/functions.h:215-220 | A digit is read from the keypad, then shown on the display. |
| Safebox.Safebox.SetNewSecretCode | Assignments/InterfacingWithSensors_A8.X/functions.h:213-227 | `set_new_secret_code` returns `high * 10 + low` from the next two keypad digits, a lock code. The display shows the walks, the high digit, the walks, the low digit and "E". |
| Safebox.Safebox.CheckForChangeCodeRequest | Assignments/InterfacingWithSensors_A8.X/functions.h:173-179 | A scanned key other than '*' changes nothing but the one scan. A '*' replaces `SECRET_CODE` with the code entered next, and the keypad stream continues after the scans that entry used. |
| Safebox.Safebox.RecombineUserCode | Assignments/InterfacingWithSensors_A8.X/functions.h:194 | `user_code` becomes `high_digit * 10 + low_digit`, a lock code. |
| Safebox.Safebox.CheckForPRInput | Assignments/InterfacingWithSensors_A8.X/functions.h:182-196 | With neither photoresistor covered nothing changes. RE0 covered enters only the high digit. Otherwise RE1 covered enters only the low digit. Once the digit is confirmed, `confirmation` goes up by one and `user_code` is recombined from both digits; samples that run out first leave the digits and the code as they were. |
| Safebox.Safebox.CheckCode | Assignments/InterfacingWithSensors_A8.X/functions.h:85-87 | `check_code(u)` holds exactly when `u == SECRET_CODE`. It chooses between motor and buzzer in `CodeCorrectOrWrong`. |
| Safebox.Safebox.CodeCorrectOrWrong | Assignments/InterfacingWithSensors_A8.X/functions.h:199-210 | Nothing happens unless `confirmation == 2`. Then the motor runs if the user code equals `SECRET_CODE`, and the buzzer otherwise (exactly one of them). The digits and `confirmation` are cleared, and both codes are kept. |
| Safebox.Safebox.Start | Assignments/InterfacingWithSensors_A8.X/mainA8.c:57-58 | The system LED goes on and `SECRET_CODE` becomes the first code entered. The keypad stream continues after the scans that entry used. |
| Safebox.Safebox.Step | Assignments/InterfacingWithSensors_A8.X/mainA8.c:60-68 | A pass of `main`'s loop keeps the invariant and leaves at most one digit confirmed. `SECRET_CODE` changes only after a '*', to the code entered then. A pass with no '*' and neither photoresistor covered lights the system LED, moves on one scan and one pin sample, and changes no global. |
| Safebox.Safebox.Int0Isr | Assignments/InterfacingWithSensors_A8.X/functions.h:116-120 | The INT0 handler plays five bars of the melody, then clears INT0IF. |
| AdcLcd.UntilNul | Assignments/A9_ADC_LCD.X/ACD_LCD_main.c:274 | The text of a C string is the prefix before its first NUL, and contains no NUL. |
| AdcLcd.UntilNulUnique | Assignments/A9_ADC_LCD.X/ACD_LCD_main.c:274-278 | Any NUL-free prefix followed by a NUL (or the end) is that text. |
| AdcLcd.DataWrites | Assignments/A9_ADC_LCD.X/ACD_LCD_main.c:276 | The character writes of a text, built one byte at a time, are exactly one data write per byte, in order. |
| AdcLcd.CursorCommand | Assignments/A9_ADC_LCD.X/ACD_LCD_main.c:284-293 | The command byte of `LCD_String_xy` has high nibble 0x8 for row <= 1 and 0xC otherwise, and the low nibble of `pos` as its low nibble. |
| AdcLcd.CursorCommandAddress | Assignments/A9_ADC_LCD.X/ACD_LCD_main.c:284-293 | The cursor command is 0x80 plus the DDRAM address: line 1 at 0x00 for row <= 1 (row 0 included) and line 2 at 0x40 otherwise, plus `pos` modulo 16. |
| AdcLcd.CursorWraps | Assignments/A9_ADC_LCD.X/ACD_LCD_main.c:286-291 | The column is never clamped: for every byte `pos`, `pos` and `pos + 16` (as a byte) select the same cell. |
| AdcLcd.CursorCommandInjective | Assignments/A9_ADC_LCD.X/ACD_LCD_main.c:284-293 | Two cursor commands are equal exactly when they select the same line and the same column modulo 16. |
| AdcLcd.VoltageLabelWrites | Assignments/A9_ADC_LCD.X/ACD_LCD_main.c:192 | The "Voltage:" label goes to the start of line 1 as its eight characters. |
| AdcLcd.Lcd.constructor | Assignments/A9_ADC_LCD.X/ACD_LCD_main.c:235-239 | Nothing has been written to the LCD yet. |
| AdcLcd.Lcd.Command | Assignments/A9_ADC_LCD.X/ACD_LCD_main.c:251-259 | `LCD_Command` latches its byte with RS low. |
| AdcLcd.Lcd.Char | Assignments/A9_ADC_LCD.X/ACD_LCD_main.c:261-269 | `LCD_Char` latches its byte with RS high. |
| AdcLcd.Lcd.Init | Assignments/A9_ADC_LCD.X/ACD_LCD_main.c:235-244 | `LCD_Init` sends exactly the commands 0x01, 0x38, 0x0C, 0x06, in that order. |
| AdcLcd.Lcd.Clear | Assignments/A9_ADC_LCD.X/ACD_LCD_main.c:246-249 | `LCD_Clear` sends the clear-display command. |
| AdcLcd.Lcd.String | Assignments/A9_ADC_LCD.X/ACD_LCD_main.c:272-279 | `LCD_String` writes each character of the string in order, stops before the NUL, and writes nothing for an empty string. |
| AdcLcd.Lcd.StringXY | Assignments/A9_ADC_LCD.X/ACD_LCD_main.c:281-296 | `LCD_String_xy` writes exactly one cursor command, followed by the string's characters. |
| AdcLcd.AdcResult | Assignments/A9_ADC_LCD.X/ACD_LCD_main.c:198 | The combined reading `(ADRESH*256) or ADRESL`, stored in a 16-bit `int`, lies within -32768..32767. |
| AdcLcd.AdcResultValue | Assignments/A9_ADC_LCD.X/ACD_LCD_main.c:198 | `ADRESH*256 | ADRESL` equals `ADRESH*256 + ADRESL` when ADRESH is below 0x80. If ADRESH is 0x80 or more, the 16-bit `int` turns that sum negative. |
| AdcLcd.AdcResultTwelveBits | Assignments/A9_ADC_LCD.X/ACD_LCD_main.c:198 | The reading is a 12-bit value in 0..4095 exactly when ADRESH is at most 0x0F, as the right-justified result leaves it. |
| AdcLcd.Blink | Assignments/A9_ADC_LCD.X/ACD_LCD_main.c:141-146 | `n` passes of the blink loop are 2n writes to LATC3. |
| AdcLcd.BlinkAlternates | Assignments/A9_ADC_LCD.X/ACD_LCD_main.c:141-146 | `n` blinks are 2n LED writes, alternating on and off and ending off. |
| AdcLcd.IocInterrupt.constructor | Assignments/A9_ADC_LCD.X/ACD_LCD_main.c:137 | The handler starts with the given flags and no LED writes yet. |
| AdcLcd.IocInterrupt.Isr | Assignments/A9_ADC_LCD.X/ACD_LCD_main.c:137-150 | With IOCCF2 set, the LED is written on, off 20 times and both IOCCF2 and IOCIF are cleared. With IOCCF2 clear nothing changes, IOCIF included. |

## Left out

- Delays (`__delay_ms`, `MSdelay`) are busy-wait timing and are not modelled. The 300 ms delay after a key in the calculator's `main` is left out too.
- The `#pragma config` block, `init.h`, `setup`, `ADC_Init` and `IOCC2_Init` are register configuration with no behaviour to state.
- The floating-point voltage conversion, the `sprintf`/`strcat` formatting and `main`'s endless voltage loop in the LCD program are left out, because they are floating point and library formatting. Of that `main`, only the label it writes is modelled (`VoltageLabelWrites`). The commented-out second part is not code.
- Interrupt vectors and preemption are not modelled: the two interrupt handlers are sequential routines called on their own.
- The `PORTE = 0` writes in `input_digit` are not modelled. The photoresistor levels come from the sample stream, so those writes have no effect on what is read.
- Keypad row drive is not modelled at the level of `LATB` values: a scan is the order in which rows are driven and columns are read. Electrical debounce is left out.
- The LCD's EN strobe and `NOP` are not modelled separately: each latched write is one bus event.
- A string without a NUL in the modelled bytes ends at the end of the sequence. The firmware would go on reading memory.
- A finite input stream stands for the inputs a run sees. When a polling method reports it is still waiting, the firmware would still be polling.
- Safebox.Safebox.Step: its contract states the whole effect only for a pass with no '*' and neither photoresistor covered. For other passes it states the invariant, the pending-confirmation bound and the secret code. The rest of their effect is the composition of the contracts of `CheckForChangeCodeRequest`, `CheckForPRInput` and `CodeCorrectOrWrong`, which it calls in order.
- Safebox.Safebox.SetNewSecretCode: the display trace is not stated when the keypad stream runs out before two digits are read.
- Safebox.Safebox.CheckForChangeCodeRequest: its contract does not state the display trace of a code entry after '*', only the keypad stream left. That trace is the one `SetNewSecretCode` states.
- Safebox.Safebox.Start: its contract does not state the output trace, only the keypad stream left. Only the system-LED write comes before `SetNewSecretCode`, whose contract states the rest.
