/**
 * The line framing of the Arduino read loop in `listenToArduino`
 * (ProjectASL/src/SingleplayerGame/singleplayer.js): decoded text is appended to a buffer,
 * every complete newline-terminated line is cut off, trimmed and, when not blank, handed on;
 * the unterminated tail stays in the buffer for the next chunk.
 *
 * The specification reads the text one character at a time, carrying the unfinished line.
 */
module SerialFraming {
  import opened JsText

  /** The complete lines found and the unfinished text left over. */
  datatype Framed = Framed(lines: seq<string>, rest: string)

  /** Reads `s` after the unfinished line `pending`: a newline completes the pending line, any other character extends it. */
  function Scan(pending: string, s: string): Framed
    decreases |s|
  {
    if s == [] then Framed([], pending)
    else if s[0] == '\n' then
      var r := Scan("", s[1..]);
      Framed([pending] + r.lines, r.rest)
    else Scan(pending + [s[0]], s[1..])
  }

  /** The raw complete lines of `s`, without their newlines. */
  function CompleteLines(s: string): seq<string>
  {
    Scan("", s).lines
  }

  /** What stays buffered: the text after the last newline. */
  function Tail(s: string): string
  {
    Scan("", s).rest
  }

  /** A line as handed on: not blank, and neither starting nor ending with whitespace. */
  predicate Trimmed(line: string)
  {
    line != "" && !IsWhitespace(line[0]) && !IsWhitespace(line[|line| - 1])
  }

  /** What one raw line contributes: its trimmed text, or nothing when that is blank. */
  function FrameLine(raw: string): (r: seq<string>)
    ensures |r| <= 1
    ensures forall i :: 0 <= i < |r| ==> Trimmed(r[i])
  {
    var line := Trim(raw);
    TrimmedEnds(raw);
    if line == "" then [] else [line]
  }

  /** The raw lines trimmed, blank ones dropped. */
  function NonBlank(raw: seq<string>): seq<string>
  {
    if raw == [] then [] else FrameLine(raw[0]) + NonBlank(raw[1..])
  }

  /** The lines the read loop hands on for the text `s`. */
  function FramedLines(s: string): seq<string>
  {
    NonBlank(CompleteLines(s))
  }

  /** Each line followed by its newline, concatenated. */
  function Terminated(lines: seq<string>): string
  {
    if lines == [] then "" else lines[0] + "\n" + Terminated(lines[1..])
  }

  // ---------------------------------------------------------------------------
  // What the buffer keeps
  // ---------------------------------------------------------------------------

  /** The unfinished text never holds a newline. */
  lemma {:induction false} RestHasNoNewline(pending: string, s: string)
    requires '\n' !in pending
    ensures '\n' !in Scan(pending, s).rest
    decreases |s|
  {
    if s != [] {
      if s[0] == '\n' {
        RestHasNoNewline("", s[1..]);
      } else {
        RestHasNoNewline(pending + [s[0]], s[1..]);
      }
    }
  }

  /** The buffer left after framing holds no newline. */
  lemma TailHasNoNewline(s: string)
    ensures '\n' !in Tail(s)
  {
    RestHasNoNewline("", s);
  }

  lemma TerminatedCons(head: string, lines: seq<string>)
    ensures Terminated([head] + lines) == head + "\n" + Terminated(lines)
  {
    assert ([head] + lines)[1..] == lines;
  }

  /** Nothing is lost or invented: the pending text and the input are the complete lines with their newlines, then the rest. */
  lemma {:induction false} ScanReassembles(pending: string, s: string)
    ensures pending + s == Terminated(Scan(pending, s).lines) + Scan(pending, s).rest
    decreases |s|
  {
    if s == [] {
      assert pending + s == pending;
    } else if s[0] == '\n' {
      var r := Scan("", s[1..]);
      ScanReassembles("", s[1..]);
      assert "" + s[1..] == s[1..];
      NewlineStep(pending, s, r.lines, r.rest);
    } else {
      ScanReassembles(pending + [s[0]], s[1..]);
      assert pending + s == (pending + [s[0]]) + s[1..];
    }
  }

  /** A newline completes the pending line: the pending text, the newline and what follows regroup as one more terminated line. */
  lemma NewlineStep(pending: string, s: string, lines: seq<string>, rest: string)
    requires s != [] && s[0] == '\n' && s[1..] == Terminated(lines) + rest
    ensures pending + s == Terminated([pending] + lines) + rest
  {
    TerminatedCons(pending, lines);
    assert s == "\n" + s[1..];
    Regroup(pending, s, Terminated(lines), rest);
  }

  lemma Regroup(pending: string, s: string, t: string, rest: string)
    requires s == "\n" + (t + rest)
    ensures pending + s == (pending + "\n" + t) + rest
  {
  }

  /** The input is exactly its complete lines, each with its newline, followed by what stays buffered. */
  lemma Reassembly(s: string)
    ensures s == Terminated(CompleteLines(s)) + Tail(s)
  {
    ScanReassembles("", s);
    assert "" + s == s;
  }

  // ---------------------------------------------------------------------------
  // Chunks
  // ---------------------------------------------------------------------------

  /** Reading `a` and then `b` is reading `a + b`: the lines of `a`, then those found after its rest. */
  lemma {:induction false} ScanAppend(pending: string, a: string, b: string)
    ensures Scan(pending, a + b)
         == Framed(Scan(pending, a).lines + Scan(Scan(pending, a).rest, b).lines, Scan(Scan(pending, a).rest, b).rest)
    decreases |a|
  {
    if a == [] {
      assert a + b == b;
    } else {
      assert (a + b)[0] == a[0] && (a + b)[1..] == a[1..] + b;
      if a[0] == '\n' {
        ScanAppend("", a[1..], b);
        var r := Scan("", a[1..]);
        var second := Scan(r.rest, b);
        assert [pending] + (r.lines + second.lines) == ([pending] + r.lines) + second.lines;
      } else {
        ScanAppend(pending + [a[0]], a[1..], b);
      }
    }
  }

  /** Reading text without a newline only extends the pending line. */
  lemma {:induction false} PlainScan(pending: string, t: string)
    requires '\n' !in t
    ensures Scan(pending, t) == Framed([], pending + t)
    decreases |t|
  {
    if t == [] {
      assert pending + t == pending;
    } else {
      assert t[0] in t;
      assert t == [t[0]] + t[1..];
      PlainScan(pending + [t[0]], t[1..]);
      assert (pending + [t[0]]) + t[1..] == pending + t;
    }
  }

  /** Text without a newline can be read as the pending line or as input: the outcome is the same. */
  lemma PlainPending(t: string, b: string)
    requires '\n' !in t
    ensures Scan("", t + b) == Scan(t, b)
  {
    ScanAppend("", t, b);
    PlainScan("", t);
    assert "" + t == t;
  }

  /** Trimming and dropping blank lines distributes over concatenation. */
  lemma {:induction false} NonBlankAppend(x: seq<string>, y: seq<string>)
    ensures NonBlank(x + y) == NonBlank(x) + NonBlank(y)
    decreases |x|
  {
    if x == [] {
      assert x + y == y;
    } else {
      assert (x + y)[0] == x[0] && (x + y)[1..] == x[1..] + y;
      NonBlankAppend(x[1..], y);
      assert FrameLine(x[0]) + (NonBlank(x[1..]) + NonBlank(y)) == (FrameLine(x[0]) + NonBlank(x[1..])) + NonBlank(y);
    }
  }

  /**
   * Framing is incremental: a chunk boundary anywhere makes no difference. Receiving `a` and
   * then `b` hands on the lines of `a`, then the lines of the kept tail followed by `b`, which
   * together are the lines of `a + b`; and the buffer ends the same.
   */
  lemma FramingIsIncremental(a: string, b: string)
    ensures FramedLines(a + b) == FramedLines(a) + FramedLines(Tail(a) + b)
    ensures Tail(a + b) == Tail(Tail(a) + b)
  {
    ScanAppend("", a, b);
    TailHasNoNewline(a);
    PlainPending(Tail(a), b);
    NonBlankAppend(CompleteLines(a), Scan(Tail(a), b).lines);
  }

  // ---------------------------------------------------------------------------
  // The read loop's step
  // ---------------------------------------------------------------------------

  /** Cutting at the first newline, as the read loop does, takes off exactly the first complete line. */
  lemma {:induction false} CutAtFirstNewline(pending: string, s: string, k: nat)
    requires k < |s| && s[k] == '\n' && forall j :: 0 <= j < k ==> s[j] != '\n'
    ensures Scan(pending, s) == Framed([pending + s[..k]] + Scan("", s[k + 1..]).lines, Scan("", s[k + 1..]).rest)
    decreases k
  {
    if k == 0 {
      assert pending + s[..0] == pending;
    } else {
      assert forall j :: 0 <= j < k - 1 ==> s[1..][j] == s[j + 1];
      CutAtFirstNewline(pending + [s[0]], s[1..], k - 1);
      assert (pending + [s[0]]) + s[1..][..k - 1] == pending + s[..k];
      assert s[1..][k - 1 + 1..] == s[k + 1..];
    }
  }

  /** One turn of the read loop: the lines and the tail of the buffer are those of the first line and of what follows it. */
  lemma LoopStep(s: string)
    requires IndexOf(s, '\n') != -1
    ensures var k := IndexOf(s, '\n');
            && FramedLines(s) == FrameLine(s[..k]) + FramedLines(s[k + 1..])
            && Tail(s) == Tail(s[k + 1..])
  {
    var k := IndexOf(s, '\n');
    assert forall j :: 0 <= j < k ==> s[j] == s[..k][j];
    CutAtFirstNewline("", s, k);
    assert "" + s[..k] == s[..k];
    var raw := [s[..k]] + CompleteLines(s[k + 1..]);
    assert raw[0] == s[..k] && raw[1..] == CompleteLines(s[k + 1..]);
  }

  /** When the buffer holds no newline the loop stops: nothing is handed on and all of it is kept. */
  lemma LoopExit(s: string)
    requires IndexOf(s, '\n') == -1
    ensures FramedLines(s) == [] && Tail(s) == s
  {
    PlainScan("", s);
    assert "" + s == s;
  }

  /** Every line handed on is non-blank and trimmed at both ends. */
  lemma {:induction false} NonBlankTrimmed(raw: seq<string>)
    ensures forall i :: 0 <= i < |NonBlank(raw)| ==> Trimmed(NonBlank(raw)[i])
    decreases |raw|
  {
    if raw != [] {
      NonBlankTrimmed(raw[1..]);
      var x, y := FrameLine(raw[0]), NonBlank(raw[1..]);
      forall i | 0 <= i < |x + y|
        ensures Trimmed((x + y)[i])
      {
        if i < |x| {
          assert (x + y)[i] == x[i];
        } else {
          assert (x + y)[i] == y[i - |x|];
        }
      }
    }
  }

  /** Every line the read loop hands on is non-blank and trimmed. */
  lemma FramedLinesTrimmed(s: string)
    ensures forall i :: 0 <= i < |FramedLines(s)| ==> Trimmed(FramedLines(s)[i])
  {
    NonBlankTrimmed(CompleteLines(s));
  }
}
