/** Lines of text in a sequence of bytes: looking for a text, and what counts as the rest of its line. */
module TextLines {
  import opened Bytes

  const NEWLINE: Byte := 10
  const NOWHERE := -1

  /** The first place from i on where a text stands. */
  function FindText(x: seq<Byte>, text: seq<Byte>, i: nat): (found: int)
    ensures found == NOWHERE || i <= found <= |x| - |text|
    decreases |x| - i
  {
    if i + |text| > |x| then NOWHERE else if x[i..i + |text|] == text then i else FindText(x, text, i + 1)
  }

  /** The bytes from a place on, up to and with the newline, or all of them if there is none. */
  function RestOfLine(x: seq<Byte>, k: nat): (n: nat)
    ensures k <= |x| ==> k + n <= |x|
    ensures k < |x| ==> 0 < n
    decreases |x| - k
  {
    if k >= |x| then 0 else if x[k] == NEWLINE then 1 else 1 + RestOfLine(x, k + 1)
  }

  /** The bytes that make up whole lines: all those up to and with the last newline. */
  function WholeLines(x: seq<Byte>): (n: nat)
    ensures n <= |x|
    ensures n > 0 ==> x[n - 1] == NEWLINE
    ensures forall i :: n <= i < |x| ==> x[i] != NEWLINE
  {
    if x == [] then 0 else if x[|x| - 1] == NEWLINE then |x| else WholeLines(x[..|x| - 1])
  }

  /** They are the same bytes after a part of them has been taken. */
  lemma WholeLinesAreLeft(x: seq<Byte>, c: nat)
    requires c <= WholeLines(x)
    ensures WholeLines(x[c..]) == WholeLines(x) - c
  {
    var n, m := WholeLines(x), WholeLines(x[c..]);
    if m > 0 {
      assert x[c..][m - 1] == x[c + m - 1];
    }
    if n > c {
      assert x[c..][n - c - 1] == x[n - 1];
    }
  }

  /** Taking a line, or the beginning of one, leaves what follows the last line alone. */
  lemma OneLineLess(x: seq<Byte>, end: nat, c: nat)
    requires end < |x| && x[end] == NEWLINE && 0 < c <= end + 1
    ensures WholeLines(x[c..]) < WholeLines(x)
    ensures x[c..][WholeLines(x[c..])..] == x[WholeLines(x)..]
  {
    WholeLinesAreLeft(x, c);
    assert x[c..][WholeLines(x) - c..] == x[WholeLines(x)..];
  }
}
