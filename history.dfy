/**
 * The recorded driving log both controllers keep: a table of rows (a pandas
 * DataFrame in the client) whose first five cells name the camera images of
 * the frame, and whose high-level-command cell is filled in afterwards, when
 * the driver announces the manoeuvre the car has just been making.
 */
module History {

  /** A cell of the log: a file reference, a number, or a tuple of numbers. */
  datatype Cell = Text(text: string) | Int(value: int) | Num(num: real) | Tuple(items: seq<real>)

  type Row = seq<Cell>

  datatype Table = Table(columns: seq<string>, rows: seq<Row>)

  /** Both controllers keep the high-level command in the tenth column. */
  const HlcColumn: nat := 9

  /** How many of the newest rows a command is written back to. */
  const LookBack: nat := 70

  /** `int(row[col]) == 0`: the command cell of the row is still unset. */
  predicate IsUnset(row: Row, col: nat)
  {
    col < |row| && row[col] == Int(0)
  }

  /** Row `i` of `n` is one of the `LookBack` newest. */
  predicate InWindow(i: int, n: int)
  {
    i >= n - LookBack
  }

  /**
   * The rows after writing `command` back: the unset command cells of the
   * newest `LookBack` rows become `command`; every other cell is kept.
   */
  function WriteBack(rows: seq<Row>, col: nat, command: int): (r: seq<Row>)
    ensures |r| == |rows|
    ensures forall i :: 0 <= i < |rows| ==> |r[i]| == |rows[i]|
    ensures forall i, j :: 0 <= i < |rows| && 0 <= j < |rows[i]| && j != col ==> r[i][j] == rows[i][j]
    ensures forall i :: 0 <= i < |rows| && !InWindow(i, |rows|) ==> r[i] == rows[i]
    ensures forall i :: 0 <= i < |rows| && col < |rows[i]| ==>
              r[i][col] == if InWindow(i, |rows|) && IsUnset(rows[i], col) then Int(command) else rows[i][col]
  {
    seq(|rows|, i requires 0 <= i < |rows| =>
      if InWindow(i, |rows|) && IsUnset(rows[i], col) then rows[i][col := Int(command)] else rows[i])
  }

  /** Writing the same command back twice changes nothing the first write did not. */
  lemma WriteBackIdempotent(rows: seq<Row>, col: nat, command: int)
    ensures WriteBack(WriteBack(rows, col, command), col, command) == WriteBack(rows, col, command)
  {
    var once := WriteBack(rows, col, command);
    var twice := WriteBack(once, col, command);
    forall i | 0 <= i < |rows|
      ensures twice[i] == once[i]
    {
      if col < |rows[i]| {
        assert twice[i][col] == once[i][col];
        assert forall j :: 0 <= j < |rows[i]| ==> twice[i][j] == once[i][j];
      } else {
        assert IsUnset(rows[i], col) == false && IsUnset(once[i], col) == false;
      }
    }
  }

  /**
   * A command written back to a row is not overwritten by a later command
   * while the row stays in the window: only unset cells are ever written.
   */
  lemma WriteBackKeepsEarlierCommand(rows: seq<Row>, col: nat, first: int, second: int, i: nat)
    requires first != 0
    requires i < |rows| && IsUnset(rows[i], col) && InWindow(i, |rows|)
    ensures WriteBack(WriteBack(rows, col, first), col, second)[i][col] == Int(first)
  {
  }

  /** The cameras whose images are saved each recorded frame, in the order they are saved. */
  datatype Camera = RgbCenter | RgbLeft | RgbRight | Depth | SemSeg {
    function Name(): (s: string)
      ensures |s| > 0 && '_' !in s[..1]
    {
      match this
      case RgbCenter => "rgb_center"
      case RgbLeft => "rgb_left"
      case RgbRight => "rgb_right"
      case Depth => "depth"
      case SemSeg => "sem_seg"
    }
  }

  const Cameras: seq<Camera> := [RgbCenter, RgbLeft, RgbRight, Depth, SemSeg]

  /** Different cameras have different names (their lengths already differ). */
  lemma CameraNamesDistinct(c1: Camera, c2: Camera)
    requires c1 != c2
    ensures c1.Name() != c2.Name()
  {
    assert |c1.Name()| != |c2.Name()|;
  }

  predicate IsDigit(c: char)
  {
    '0' <= c <= '9'
  }

  /** Python's `str(n)` for a natural number: its decimal digits. */
  function NatToString(n: nat): (s: string)
    ensures |s| > 0
    ensures forall i :: 0 <= i < |s| ==> IsDigit(s[i])
  {
    if n < 10 then [('0' as int + n) as char]
    else NatToString(n / 10) + [('0' as int + n % 10) as char]
  }

  /** Reading decimal digits back as a number: the inverse of `NatToString`. */
  function DigitsValue(s: string): (n: nat)
    requires forall i :: 0 <= i < |s| ==> IsDigit(s[i])
  {
    if |s| == 0 then 0
    else
      assert IsDigit(s[|s| - 1]);
      DigitsValue(s[..|s| - 1]) * 10 + (s[|s| - 1] as int - '0' as int)
  }

  lemma {:induction false} NatToStringRoundTrip(n: nat)
    ensures DigitsValue(NatToString(n)) == n
  {
    if n >= 10 {
      var s := NatToString(n);
      assert s[..|s| - 1] == NatToString(n / 10);
      NatToStringRoundTrip(n / 10);
    }
  }

  lemma NatToStringInjective(m: nat, n: nat)
    requires NatToString(m) == NatToString(n)
    ensures m == n
  {
    NatToStringRoundTrip(m);
    NatToStringRoundTrip(n);
  }

  /** The name an image of `frame` taken by `camera` is written under: `{frame}_{camera}.png`. */
  function ImageFileName(frame: nat, camera: Camera): (name: string)
    ensures |name| > |NatToString(frame)|
    ensures name[..|NatToString(frame)|] == NatToString(frame)
    ensures name[|NatToString(frame)|] == '_'
  {
    NatToString(frame) + "_" + camera.Name() + ".png"
  }

  /** The reference to that image a log row holds: `imgs/{frame}_{camera}.png`. */
  function ImageReference(frame: nat, camera: Camera): (ref: string)
    ensures ref == "imgs/" + ImageFileName(frame, camera)
  {
    "imgs/" + NatToString(frame) + "_" + camera.Name() + ".png"
  }

  /** No two images of a recording share a file name: the name encodes frame and camera. */
  lemma ImageFileNamesDistinct(f1: nat, c1: Camera, f2: nat, c2: Camera)
    requires (f1, c1) != (f2, c2)
    ensures ImageFileName(f1, c1) != ImageFileName(f2, c2)
  {
    if f1 == f2 && c1 != c2 {
      CameraNamesDistinct(c1, c2);
    }
    if f1 != f2 {
      NatToStringRoundTrip(f1);
      NatToStringRoundTrip(f2);
    }
  }
}
