/**
 * Matrix-keypad scanning, as both keypad programs do it: drive one row low at
 * a time, top to bottom, and test the column inputs of that row left to right;
 * the first key found is returned, and the character 0 when no key is down.
 */
module Keypad {

  /**
   * The electrical state of the keypad during one scan: `down(r, c)` holds when
   * column input `c` reads low while row `r` is driven low, i.e. when the key
   * at row `r`, column `c` is held.
   */
  type Pressed = (int, int) -> bool

  /** What a scan returns when no key is down (the C character 0). */
  const NoKey: char := 0 as char

  /** A key table whose rows all have `cols` keys, none of them `NoKey`. */
  predicate WellFormed(table: seq<seq<char>>, cols: nat) {
    forall r :: 0 <= r < |table| ==> |table[r]| == cols && NoKey !in table[r]
  }

  /** No key strictly before position (r, c), in row-major order, is down. */
  ghost predicate NoneBefore(down: Pressed, cols: nat, r: int, c: int) {
    forall i, j :: 0 <= i && 0 <= j < cols && (i < r || (i == r && j < c)) ==> !down(i, j)
  }

  /** (r, c) is the first key that is down, in row-major order. */
  ghost predicate FirstDown(down: Pressed, rows: nat, cols: nat, r: int, c: int) {
    0 <= r < rows && 0 <= c < cols && down(r, c) && NoneBefore(down, cols, r, c)
  }

  /** The key a scan finds when it resumes at row `r`, column `c`. */
  function FirstFrom(table: seq<seq<char>>, cols: nat, down: Pressed, r: nat, c: nat): char
    requires WellFormed(table, cols) && c <= cols
    decreases |table| - r, cols - c
  {
    if r >= |table| then NoKey
    else if c == cols then FirstFrom(table, cols, down, r + 1, 0)
    else if down(r, c) then table[r][c]
    else FirstFrom(table, cols, down, r, c + 1)
  }

  /** The key one whole scan returns. */
  function ScanKey(table: seq<seq<char>>, cols: nat, down: Pressed): char
    requires WellFormed(table, cols)
  {
    FirstFrom(table, cols, down, 0, 0)
  }

  lemma {:induction false} FirstFromFinds(table: seq<seq<char>>, cols: nat, down: Pressed, r: nat, c: nat)
    requires WellFormed(table, cols) && c <= cols && r <= |table|
    requires NoneBefore(down, cols, r, c)
    ensures FirstFrom(table, cols, down, r, c) == NoKey <==> NoneBefore(down, cols, |table|, 0)
    ensures FirstFrom(table, cols, down, r, c) != NoKey ==>
              exists i, j :: FirstDown(down, |table|, cols, i, j) && FirstFrom(table, cols, down, r, c) == table[i][j]
    decreases |table| - r, cols - c
  {
    if r == |table| {
    } else if c == cols {
      FirstFromFinds(table, cols, down, r + 1, 0);
    } else if down(r, c) {
      assert FirstDown(down, |table|, cols, r, c);
    } else {
      FirstFromFinds(table, cols, down, r, c + 1);
    }
  }

  /**
   * A scan returns `NoKey` exactly when no key is down, and otherwise the
   * table entry of the first key down in row-major order (no chording).
   */
  lemma ScanKeyIsFirstMatch(table: seq<seq<char>>, cols: nat, down: Pressed)
    requires WellFormed(table, cols)
    ensures ScanKey(table, cols, down) == NoKey <==> NoneBefore(down, cols, |table|, 0)
    ensures ScanKey(table, cols, down) != NoKey ==>
              exists i, j :: FirstDown(down, |table|, cols, i, j) && ScanKey(table, cols, down) == table[i][j]
  {
    FirstFromFinds(table, cols, down, 0, 0);
  }

  /**
   * The scanning loop. `rowsDriven` is the number of rows driven low before
   * the scan returned: all of them when no key is down, and up to and
   * including the row of the key found otherwise.
   */
  method Scan(table: seq<seq<char>>, cols: nat, down: Pressed) returns (key: char, rowsDriven: nat)
    requires WellFormed(table, cols)
    ensures key == ScanKey(table, cols, down)
    ensures rowsDriven <= |table|
    ensures key == NoKey <==> rowsDriven == |table| && NoneBefore(down, cols, |table|, 0)
    ensures key != NoKey ==>
              exists r, c :: r == rowsDriven - 1 && FirstDown(down, |table|, cols, r, c) && key == table[r][c]
  {
    var row := 0;
    while row < |table|
      invariant 0 <= row <= |table|
      invariant NoneBefore(down, cols, row, 0)
      invariant FirstFrom(table, cols, down, row, 0) == ScanKey(table, cols, down)
    {
      var col := 0;
      while col < cols
        invariant 0 <= col <= cols
        invariant NoneBefore(down, cols, row, col)
        invariant FirstFrom(table, cols, down, row, col) == ScanKey(table, cols, down)
      {
        if down(row, col) {
          key, rowsDriven := table[row][col], row + 1;
          assert FirstDown(down, |table|, cols, row, col);
          return;
        }
        col := col + 1;
      }
      row := row + 1;
    }
    key, rowsDriven := NoKey, |table|;
  }
}
