/** Splitting text into lines that keep their newline, and joining them again. */
module LineText {
  import opened Bytes
  import Seqs

  type Line = Bytes

  const NEWLINE: Byte := 10

  function Text(lines: seq<Line>): (bytes: Bytes) {
    if lines == [] then [] else lines[0] + Text(lines[1..])
  }

  lemma {:induction false} TextConcat(a: seq<Line>, b: seq<Line>)
    ensures Text(a + b) == Text(a) + Text(b)
    decreases |a|
  {
    if a == [] {
      Seqs.Empty(b);
      Seqs.Empty(Text(b));
    } else {
      assert (a + b)[1..] == a[1..] + b;
      TextConcat(a[1..], b);
      Seqs.Assoc(a[0], Text(a[1..]), Text(b));
    }
  }

  ghost predicate NoNewline(bytes: Bytes, i: nat, j: nat)
    requires j <= |bytes|
  {
    j <= i || (bytes[j - 1] != '\n' as int && NoNewline(bytes, i, j - 1))
  }

  lemma {:induction false} NoNewlineFront(bytes: Bytes, i: nat, j: nat)
    requires i < j <= |bytes| && bytes[i] != NEWLINE && NoNewline(bytes, i + 1, j)
    ensures NoNewline(bytes, i, j)
    decreases j
  {
    if i + 1 < j {
      NoNewlineFront(bytes, i, j - 1);
    }
  }

  lemma {:induction false} NoNewlineConcat(a: Bytes, b: Bytes, j: nat)
    requires j <= |a| && NoNewline(a, 0, j)
    ensures NoNewline(a + b, 0, j)
    decreases j
  {
    if j > 0 {
      NoNewlineConcat(a, b, j - 1);
    }
  }

  lemma {:induction false} NoNewlineTake(bytes: Bytes, n: nat, j: nat)
    requires j <= n <= |bytes| && NoNewline(bytes, 0, j)
    ensures NoNewline(bytes[..n], 0, j)
    decreases j
  {
    if j > 0 {
      NoNewlineTake(bytes, n, j - 1);
    }
  }

  /** The length of the first line, its newline included; the first `i` bytes hold none. */
  function LineLength(bytes: Bytes, i: nat := 0): (n: nat)
    requires i < |bytes|
    ensures i < n <= |bytes|
    decreases |bytes| - i
  {
    if bytes[i] == NEWLINE || i + 1 == |bytes| then i + 1 else LineLength(bytes, i + 1)
  }

  lemma {:induction false} LineLengthExact(bytes: Bytes, i: nat)
    requires i < |bytes|
    ensures NoNewline(bytes, i, LineLength(bytes, i) - 1)
    ensures LineLength(bytes, i) < |bytes| ==> bytes[LineLength(bytes, i) - 1] == NEWLINE
    decreases |bytes| - i
  {
    if bytes[i] != NEWLINE && i + 1 < |bytes| {
      LineLengthExact(bytes, i + 1);
      NoNewlineFront(bytes, i, LineLength(bytes, i) - 1);
    }
  }

  function Split(bytes: Bytes): (lines: seq<Line>) {
    if bytes == [] then [] else [bytes[..LineLength(bytes)]] + Split(bytes[LineLength(bytes)..])
  }

  lemma {:induction false} TextOfSplit(bytes: Bytes)
    ensures Text(Split(bytes)) == bytes
    decreases |bytes|
  {
    if bytes != [] {
      TextOfSplit(bytes[LineLength(bytes)..]);
    }
  }

  /** Non-empty lines with a newline at the end of each, optional in the last, and nowhere else. */
  ghost predicate LineForm(lines: seq<Line>) {
    lines == [] ||
    (&& lines[0] != [] && NoNewline(lines[0], 0, |lines[0]| - 1)
     && (lines[1..] != [] ==> lines[0][|lines[0]| - 1] == '\n' as int)
     && LineForm(lines[1..]))
  }

  lemma {:induction false} SplitForm(bytes: Bytes)
    ensures LineForm(Split(bytes))
    decreases |bytes|
  {
    if bytes != [] {
      var n := LineLength(bytes);
      LineLengthExact(bytes, 0);
      SplitForm(bytes[n..]);
      NoNewlineTake(bytes, n, n - 1);
    }
  }

  lemma {:induction false} LineLengthFrom(bytes: Bytes, i: nat, j: nat)
    requires i <= j < |bytes| && NoNewline(bytes, i, j)
    ensures LineLength(bytes, i) == LineLength(bytes, j)
    decreases j
  {
    if i < j {
      LineLengthFrom(bytes, i, j - 1);
    }
  }

  lemma {:induction false} FirstLineOfText(lines: seq<Line>)
    requires LineForm(lines) && lines != []
    ensures Text(lines) != [] && LineLength(Text(lines)) == |lines[0]|
  {
    var head, bytes := lines[0], Text(lines);
    NoNewlineConcat(head, Text(lines[1..]), |head| - 1);
    LineLengthFrom(bytes, 0, |head| - 1);
  }

  /** Splitting the text of well-formed lines gives the lines back. */
  lemma {:induction false} SplitOfText(lines: seq<Line>)
    requires LineForm(lines)
    ensures Split(Text(lines)) == lines
    decreases |lines|
  {
    if lines != [] {
      FirstLineOfText(lines);
      var bytes := Text(lines);
      assert bytes[..|lines[0]|] == lines[0] && bytes[|lines[0]|..] == Text(lines[1..]);
      SplitOfText(lines[1..]);
    }
  }

  lemma {:induction false} LineLengthShift(bytes: Bytes, start: nat, i: nat)
    requires start <= i < |bytes|
    ensures LineLength(bytes[start..], i - start) + start == LineLength(bytes, i)
    decreases |bytes| - i
  {
    if bytes[i] != NEWLINE && i + 1 < |bytes| {
      LineLengthShift(bytes, start, i + 1);
    }
  }

  lemma {:induction false} ScannedLength(bytes: Bytes, start: nat, index: nat)
    requires start <= index < |bytes| && NoNewline(bytes, start, index)
    requires bytes[index] == NEWLINE || index + 1 == |bytes|
    ensures LineLength(bytes[start..]) == index + 1 - start
  {
    hide NoNewline;
    LineLengthFrom(bytes, start, index);
    LineLengthShift(bytes, start, start);
  }

  /** The first line of what is left, once the scan has reached `index` without a newline. */
  lemma {:induction false} SplitScanned(bytes: Bytes, start: nat, index: nat)
    requires start <= index < |bytes| && NoNewline(bytes, start, index)
    requires bytes[index] == NEWLINE || index + 1 == |bytes|
    ensures Split(bytes[start..]) == [bytes[start..index + 1]] + Split(bytes[index + 1..])
  {
    ScannedLength(bytes, start, index);
    hide LineLength, NoNewline;
    var rest := bytes[start..];
    assert rest[..index + 1 - start] == bytes[start..index + 1];
    assert rest[index + 1 - start..] == bytes[index + 1..];
  }

  method SplitLines(bytes: Bytes) returns (lines: seq<Line>)
    ensures lines == Split(bytes)
  {
    lines := [];
    var start := 0;
    assert bytes[0..] == bytes;
    ghost var goal := Split(bytes);
    ghost var rest := goal;
    Seqs.Empty(goal);
    for index := 0 to |bytes|
      invariant 0 <= start <= index && NoNewline(bytes, start, index)
      invariant rest == Split(bytes[start..]) && lines + rest == goal
    {
      if bytes[index] == NEWLINE {
        lines, rest := PushLine(bytes, start, index, lines, rest);
        start := index + 1;
      }
    }
    if start < |bytes| {
      lines, rest := PushLine(bytes, start, |bytes| - 1, lines, rest);
    }
    Seqs.Empty(lines);
  }

  method PushLine(bytes: Bytes, start: nat, index: nat, lines: seq<Line>, ghost rest: seq<Line>)
    returns (pushed: seq<Line>, ghost left: seq<Line>)
    requires start <= index < |bytes| && NoNewline(bytes, start, index)
    requires bytes[index] == NEWLINE || index + 1 == |bytes|
    requires rest == Split(bytes[start..])
    ensures left == Split(bytes[index + 1..]) && pushed == lines + [bytes[start..index + 1]]
    ensures pushed + left == lines + rest
  {
    SplitScanned(bytes, start, index);
    left := Split(bytes[index + 1..]);
    Seqs.Assoc(lines, [bytes[start..index + 1]], left);
    pushed := lines + [bytes[start..index + 1]];
  }

  /** Parts of well-formed lines are well-formed. */
  lemma {:induction false} LineFormParts(a: seq<Line>, b: seq<Line>)
    requires LineForm(a + b)
    ensures LineForm(a) && LineForm(b)
    decreases |a|
  {
    if a == [] {
      Seqs.Empty(b);
    } else {
      assert (a + b)[0] == a[0] && (a + b)[1..] == a[1..] + b;
      LineFormParts(a[1..], b);
    }
  }

  /** Different well-formed lines are different text. */
  lemma {:induction false} TextTellsApart(a: seq<Line>, b: seq<Line>)
    requires LineForm(a) && LineForm(b)
    ensures Text(a) == Text(b) <==> a == b
  {
    SplitOfText(a);
    SplitOfText(b);
  }
}
