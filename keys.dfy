/**
 * Key codes and the escape-sequence decoder of editorReadKey.
 *
 * The decoder is a function of the byte the blocking read finally delivered
 * and of the bytes that the following reads would deliver; a read that
 * fails is the end of that sequence.
 */
module Keys {

  /** A byte as a read into a C `char` delivers it: a code below 256. */
  type Byte = c: char | c as int < 256 witness '\0'

  /** The escape byte. */
  const Esc: Byte := '\U{1B}'
  const EscKey := 27

  /** enum editorKey */
  const ArrowLeft := 1000
  const ArrowRight := 1001
  const ArrowUp := 1002
  const ArrowDown := 1003
  const DelKey := 1004
  const HomeKey := 1005
  const EndKey := 1006
  const PageUp := 1007
  const PageDown := 1008

  /** CTRL_KEY('q'): 'q' with the upper three bits cleared. */
  const CtrlQ := 0x71 % 0x20

  /** The key a call returns and how many bytes after the first one it consumed. */
  datatype KeyRead = KeyRead(key: int, consumed: nat)

  /** ESC [ d ~ : the digit selects the key. */
  function TildeKey(d: char): int
  {
    match d
    case '1' => HomeKey
    case '3' => DelKey
    case '4' => EndKey
    case '5' => PageUp
    case '6' => PageDown
    case '7' => HomeKey
    case '8' => EndKey
    case _ => EscKey
  }

  /** ESC [ x : the letter selects the key. */
  function BracketKey(x: char): int
  {
    match x
    case 'A' => ArrowUp
    case 'B' => ArrowDown
    case 'C' => ArrowRight
    case 'D' => ArrowLeft
    case 'H' => HomeKey
    case 'F' => EndKey
    case _ => EscKey
  }

  /** ESC O x */
  function OKey(x: char): int
  {
    match x
    case 'H' => HomeKey
    case 'F' => EndKey
    case _ => EscKey
  }

  predicate IsDigit(c: char)
  {
    '0' <= c <= '9'
  }

  /**
   * editorReadKey after its first byte `c`: `pending` holds the bytes the
   * next reads would return.
   */
  function ReadKey(c: Byte, pending: seq<Byte>): (r: KeyRead)
    ensures r.consumed <= |pending| && r.consumed <= 3
    ensures c != Esc ==> r == KeyRead(c as int, 0) && r.key < 256
    ensures c == Esc ==> r.key == EscKey || ArrowLeft <= r.key <= PageDown
  {
    if c != Esc then KeyRead(c as int, 0)
    else if |pending| < 2 then KeyRead(EscKey, |pending|)
    else if pending[0] == '[' then
      if IsDigit(pending[1]) then
        if |pending| < 3 then KeyRead(EscKey, 2)
        else if pending[2] == '~' then KeyRead(TildeKey(pending[1]), 3)
        else KeyRead(EscKey, 3)
      else KeyRead(BracketKey(pending[1]), 2)
    else if pending[0] == 'O' then KeyRead(OKey(pending[1]), 2)
    else KeyRead(EscKey, 2)
  }

  /** The recognised escape sequences (the bytes after ESC) and their keys. */
  const Sequences: map<seq<char>, int> := map[
    "[1~" := HomeKey, "[3~" := DelKey, "[4~" := EndKey, "[5~" := PageUp,
    "[6~" := PageDown, "[7~" := HomeKey, "[8~" := EndKey,
    "[A" := ArrowUp, "[B" := ArrowDown, "[C" := ArrowRight, "[D" := ArrowLeft,
    "[H" := HomeKey, "[F" := EndKey,
    "OH" := HomeKey, "OF" := EndKey]

  /** Every recognised sequence decodes to its key, whatever follows it. */
  lemma DecodesSequences(p: seq<Byte>, rest: seq<Byte>)
    requires p in Sequences
    ensures ReadKey(Esc, p + rest) == KeyRead(Sequences[p], |p|)
  {
    var s := p + rest;
    assert s[..|p|] == p;
  }

  /** A decoded key other than ESC always comes from a recognised sequence at the head of the pending bytes. */
  lemma DecodesOnlySequences(pending: seq<Byte>)
    ensures var r := ReadKey(Esc, pending);
      r.key != EscKey ==> pending[..r.consumed] in Sequences && Sequences[pending[..r.consumed]] == r.key
  {
    if |pending| >= 2 {
      assert pending[..2] == [pending[0], pending[1]];
      if |pending| >= 3 {
        assert pending[..3] == [pending[0], pending[1], pending[2]];
      }
    }
  }

  /** A bare ESC means that no prefix of the pending bytes is a recognised sequence. */
  lemma EscapeMeansNoSequence(pending: seq<Byte>)
    requires ReadKey(Esc, pending).key == EscKey
    ensures forall n :: 0 <= n <= |pending| ==> pending[..n] !in Sequences
  {
    assert forall k :: k in Sequences ==> |k| == 2 || |k| == 3;
    forall n | 0 <= n <= |pending|
      ensures pending[..n] !in Sequences
    {
      if n == 2 {
        assert pending[..n] == [pending[0], pending[1]];
      } else if n == 3 {
        assert pending[..n] == [pending[0], pending[1], pending[2]];
      }
    }
  }

  /** Fewer than two bytes after ESC, or ESC [ digit with nothing after it, yield a bare ESC. */
  lemma TruncatedIsEscape(pending: seq<Byte>)
    requires |pending| < 2 || (|pending| == 2 && pending[0] == '[' && IsDigit(pending[1]))
    ensures ReadKey(Esc, pending) == KeyRead(EscKey, |pending|)
  {
  }
}
