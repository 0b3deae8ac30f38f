/**
 Line buffering of WinRM keystrokes, services/remote_winrm.go (processWinRMKeystrokes), over bytes.
 */
module Keystrokes {

  newtype Byte = b: int | 0 <= b < 256

  const CTRL_C: Byte := 0x03
  const BACKSPACE: Byte := 0x08
  const LF: Byte := 0x0A
  const CR: Byte := 0x0D
  const DELETE: Byte := 0x7F

  type Bytes = seq<Byte>

  datatype Typed = Typed(lines: seq<Bytes>, pending: Bytes)

  function DropLast(buf: Bytes): Bytes {
    if |buf| > 0 then buf[..|buf| - 1] else buf
  }

  /** What follows the line end that the data begins with: a CR-LF pair is one line end. */
  function AfterLineEnd(data: Bytes): (rest: Bytes)
    requires data != []
    ensures |rest| < |data|
  {
    if data[0] == CR && |data| > 1 && data[1] == LF then data[2..] else data[1..]
  }

  /** The lines completed by the data and the buffer it leaves. */
  function Type(buf: Bytes, data: Bytes): Typed
    decreases |data|
  {
    if data == [] then Typed([], buf)
    else
      var b, rest := data[0], data[1..];
      if b == CTRL_C then Type(buf, rest)
      else if b == DELETE || b == BACKSPACE then Type(DropLast(buf), rest)
      else if b == CR || b == LF then
        var after := Type([], AfterLineEnd(data));
        Typed([buf] + after.lines, after.pending)
      else Type(buf + [b], rest)
  }

  method ProcessWinRMKeystrokes(start: Bytes, data: Bytes) returns (completedLines: seq<Bytes>, buf: Bytes)
    ensures Typed(completedLines, buf) == Type(start, data)
  {
    completedLines, buf := [], start;
    var i := 0;
    while i < |data|
      invariant i <= |data|
      invariant Type(start, data) ==
                Typed(completedLines + Type(buf, data[i..]).lines, Type(buf, data[i..]).pending)
    {
      var b := data[i];
      assert data[i..][1..] == data[i + 1..];
      if b == CTRL_C {
      } else if b == DELETE || b == BACKSPACE {
        if |buf| > 0 {
          buf := buf[..|buf| - 1];
        }
      } else if b == CR || b == LF {
        ghost var before := completedLines;
        completedLines := completedLines + [buf];
        assert before + Type(buf, data[i..]).lines == completedLines + Type([], AfterLineEnd(data[i..])).lines;
        buf := [];
        if b == CR && i + 1 < |data| && data[i + 1] == LF {
          assert data[i..][2..] == data[i + 2..];
          i := i + 1;
        }
      } else {
        buf := buf + [b];
      }
      i := i + 1;
    }
    assert data[|data|..] == [];
  }

  // ----- chunking -----

  /** A cut between the CR and the LF of one line end. */
  predicate SplitsCRLF(d1: Bytes, d2: Bytes) {
    d1 != [] && d1[|d1| - 1] == CR && d2 != [] && d2[0] == LF
  }

  /** Feeding d1 and then d2 leaves the buffer that d1 + d2 leaves. It completes the same lines, but for
      one more (empty) line when the cut splits a CR-LF pair. */
  ghost predicate Joins(buf: Bytes, d1: Bytes, d2: Bytes) {
    var first := Type(buf, d1);
    var second := Type(first.pending, d2);
    var whole := Type(buf, d1 + d2);
    && second.pending == whole.pending
    && if SplitsCRLF(d1, d2)
       then second.lines != [] && second.lines[0] == [] && whole.lines == first.lines + second.lines[1..]
       else whole.lines == first.lines + second.lines
  }

  lemma {:induction false} TwoChunks(buf: Bytes, d1: Bytes, d2: Bytes)
    ensures Joins(buf, d1, d2)
    decreases |d1|
  {
    if d1 == [] {
      assert d1 + d2 == d2;
    } else {
      var b, rest := d1[0], d1[1..];
      if b == CR || b == LF {
        TwoChunks([], AfterLineEnd(d1), d2);
        LineEndJoins(buf, d1, d2);
      } else {
        var buf' := if b == CTRL_C then buf
                    else if b == DELETE || b == BACKSPACE then DropLast(buf)
                    else buf + [b];
        TwoChunks(buf', rest, d2);
        assert (d1 + d2)[1..] == rest + d2;
      }
    }
  }

  lemma LineEndJoins(buf: Bytes, d1: Bytes, d2: Bytes)
    requires d1 != [] && (d1[0] == CR || d1[0] == LF)
    requires Joins([], AfterLineEnd(d1), d2)
    ensures Joins(buf, d1, d2)
  {
    AfterLineEndOfSum(d1, d2);
    if d1 == [CR] && SplitsCRLF(d1, d2) {
      SplitPairJoins(buf, d2);
    } else {
      var first, whole := Type([], AfterLineEnd(d1)), Type([], AfterLineEnd(d1) + d2);
      assert Type(buf, d1) == Typed([buf] + first.lines, first.pending);
      assert Type(buf, d1 + d2) == Typed([buf] + whole.lines, whole.pending);
      OneLineMore(buf, first.lines, Type(first.pending, d2).lines, whole.lines);
    }
  }

  lemma OneLineMore(line: Bytes, first: seq<Bytes>, second: seq<Bytes>, whole: seq<Bytes>)
    ensures whole == first + second ==> [line] + whole == [line] + first + second
    ensures second != [] && whole == first + second[1..] ==> [line] + whole == [line] + first + second[1..]
  {
  }

  lemma SplitPairJoins(buf: Bytes, d2: Bytes)
    requires d2 != [] && d2[0] == LF
    ensures Joins(buf, [CR], d2)
  {
    assert ([CR] + d2)[2..] == d2[1..];
    assert Type(buf, [CR]) == Typed([buf], []);
    assert Type([], d2).lines[0] == [];
  }

  lemma AfterLineEndOfSum(d1: Bytes, d2: Bytes)
    requires d1 != []
    ensures d1 == [CR] && SplitsCRLF(d1, d2) ==> AfterLineEnd(d1 + d2) == d2[1..]
    ensures !(d1 == [CR] && SplitsCRLF(d1, d2)) ==>
              && AfterLineEnd(d1 + d2) == AfterLineEnd(d1) + d2
              && (d1[0] == CR || d1[0] == LF ==> SplitsCRLF(d1, d2) == SplitsCRLF(AfterLineEnd(d1), d2))
  {
  }

  function Flatten(chunks: seq<Bytes>): Bytes {
    if chunks == [] then [] else Flatten(chunks[..|chunks| - 1]) + chunks[|chunks| - 1]
  }

  /** What successive calls, one per chunk, complete and leave. */
  function TypeChunks(buf: Bytes, chunks: seq<Bytes>): Typed {
    if chunks == [] then Typed([], buf)
    else
      var before := TypeChunks(buf, chunks[..|chunks| - 1]);
      var last := Type(before.pending, chunks[|chunks| - 1]);
      Typed(before.lines + last.lines, last.pending)
  }

  function SplitPairs(chunks: seq<Bytes>): nat {
    if chunks == [] then 0
    else
      var init := chunks[..|chunks| - 1];
      SplitPairs(init) + if SplitsCRLF(Flatten(init), chunks[|chunks| - 1]) then 1 else 0
  }

  lemma {:induction false} ChunksAddLines(buf: Bytes, chunks: seq<Bytes>)
    ensures TypeChunks(buf, chunks).pending == Type(buf, Flatten(chunks)).pending
    ensures |TypeChunks(buf, chunks).lines| == |Type(buf, Flatten(chunks)).lines| + SplitPairs(chunks)
    ensures SplitPairs(chunks) == 0 ==> TypeChunks(buf, chunks) == Type(buf, Flatten(chunks))
  {
    if chunks != [] {
      var init, last := chunks[..|chunks| - 1], chunks[|chunks| - 1];
      ChunksAddLines(buf, init);
      TwoChunks(buf, Flatten(init), last);
    }
  }

  /** Keystroke processing does not depend on how the input is cut, if and only if no cut splits a
      CR-LF pair. */
  lemma ChunkingIsInvisible(buf: Bytes, chunks: seq<Bytes>)
    ensures TypeChunks(buf, chunks) == Type(buf, Flatten(chunks)) <==> SplitPairs(chunks) == 0
  {
    ChunksAddLines(buf, chunks);
  }

  // ----- clean lines -----

  predicate Clean(line: Bytes) {
    CTRL_C !in line && BACKSPACE !in line && LF !in line && CR !in line && DELETE !in line
  }

  /** From a clean buffer, no completed line and no pending buffer ever holds a control key that the
      processing interprets. */
  lemma {:induction false} LinesAreClean(buf: Bytes, data: Bytes)
    requires Clean(buf)
    ensures Clean(Type(buf, data).pending) && forall l | l in Type(buf, data).lines :: Clean(l)
    decreases |data|
  {
    if data != [] {
      var b, rest := data[0], data[1..];
      if b == CTRL_C {
        LinesAreClean(buf, rest);
      } else if b == DELETE || b == BACKSPACE {
        LinesAreClean(DropLast(buf), rest);
      } else if b == CR || b == LF {
        LinesAreClean([], AfterLineEnd(data));
      } else {
        LinesAreClean(buf + [b], rest);
      }
    }
  }

  // ----- what each key does -----

  /** One key: Ctrl+C (0x03) does nothing, backspace (0x08) and delete (0x7F) take the last byte typed, CR (0x0D)
      and LF (0x0A) complete the line, and every other byte is added at the end. */
  lemma OneKey(buf: Bytes, b: Byte)
    ensures Type(buf, [b]) ==
            if b == 0x03 then Typed([], buf)
            else if b == 0x08 || b == 0x7F then Typed([], if buf == [] then [] else buf[..|buf| - 1])
            else if b == 0x0D || b == 0x0A then Typed([buf], [])
            else Typed([], buf + [b])
  {
    assert [b][1..] == [];
  }

  /** Text is added as it comes. */
  lemma {:induction false} TextIsAdded(buf: Bytes, data: Bytes)
    requires Clean(data)
    ensures Type(buf, data) == Typed([], buf + data)
    decreases |data|
  {
    if data == [] {
      assert buf + data == buf;
    } else {
      TextIsAdded(buf + [data[0]], data[1..]);
      assert buf + [data[0]] + data[1..] == buf + data;
    }
  }

  function Times(b: Byte, n: nat): Bytes {
    seq(n, _ => b)
  }

  /** Erasing as often as was typed leaves the buffer as it was before. */
  lemma {:induction false} ErasingUndoes(buf: Bytes, data: Bytes, erase: Byte)
    requires Clean(data) && (erase == 0x08 || erase == 0x7F)
    ensures Type(buf, data + Times(erase, |data|)) == Typed([], buf)
    decreases |data|
  {
    if data == [] {
      assert data + Times(erase, 0) == [];
    } else {
      TextIsAdded(buf, data);
      TwoChunks(buf, data, Times(erase, |data|));
      Erased(buf + data, |data|, erase);
      assert (buf + data)[..|buf|] == buf;
    }
  }

  lemma {:induction false} Erased(buf: Bytes, n: nat, erase: Byte)
    requires n <= |buf| && (erase == 0x08 || erase == 0x7F)
    ensures Type(buf, Times(erase, n)) == Typed([], buf[..|buf| - n])
  {
    if n == 0 {
      assert buf[..|buf|] == buf;
    } else {
      assert Times(erase, n)[1..] == Times(erase, n - 1);
      Erased(buf[..|buf| - 1], n - 1, erase);
      assert buf[..|buf| - 1][..|buf| - n] == buf[..|buf| - n];
    }
  }

  lemma EndCompletes(buf: Bytes, end: Bytes)
    requires end == [0x0D] || end == [0x0A] || end == [0x0D, 0x0A]
    ensures Type(buf, end) == Typed([buf], [])
  {
    assert AfterLineEnd(end) == [];
    assert Type([], []) == Typed([], []);
  }

  /** A line as it is sent: text and a line end, be it CR, LF or the pair. */
  lemma LineIsSent(text: Bytes, end: Bytes)
    requires Clean(text) && (end == [0x0D] || end == [0x0A] || end == [0x0D, 0x0A])
    ensures Type([], text + end) == Typed([text], [])
  {
    TextIsAdded([], text);
    assert [] + text == text;
    EndCompletes(text, end);
    assert text != [] ==> text[|text| - 1] in text;
    TwoChunks([], text, end);
  }
}
