/**
 The text of a journal stream: splitting at newlines, verifying lines, and the
 two ways the repository turns a text into rows. `ReplayText` is the full replay
 (journal.py); `CompleteRows` is what the newline-terminated lines alone hold,
 the value every incremental read must reproduce.
 */
module JournalText {
  import opened Wrappers

  type Bytes = seq<char>

  const NL := '\n'

  /** One journal row. The caller's flat fields ride beside the reserved ones. */
  datatype Row = Row(
    fields: map<string, string>,
    eventType: string,
    runId: string,
    seqNo: int,
    tsUtc: string,
    decisionId: Option<string>,
    orderId: Option<string>)

  /** JSON and the row hash, left uninterpreted: a line parses to a row together
      with its stored hash, or does not parse. */
  datatype Codec = Codec(
    parse: Bytes -> Option<(Row, int)>,
    hash: Row -> int,
    dumps: (Row, int) -> Bytes)

  /** The row of a line that parses and whose stored hash verifies. */
  function VerifyLine(c: Codec, line: Bytes): Option<Row> {
    match c.parse(line)
    case None => None
    case Some(rh) => if c.hash(rh.0) == rh.1 then Some(rh.0) else None
  }

  /** The text of a row with its hash, without the newline. */
  function LineOf(c: Codec, row: Row): Bytes { c.dumps(row, c.hash(row)) }

  function Encode(c: Codec, row: Row): Bytes { LineOf(c, row) + [NL] }

  /** A serialized row is non-empty, holds no newline and verifies as itself. */
  ghost predicate Faithful(c: Codec) {
    forall row: Row ::
      && LineOf(c, row) != []
      && NL !in LineOf(c, row)
      && VerifyLine(c, LineOf(c, row)) == Some(row)
  }

  // ---------------------------------------------------------------- splitting

  /** Python's text.split(newline): always at least one part. */
  function Split(b: Bytes): (parts: seq<Bytes>)
    ensures |parts| >= 1
  {
    if b == [] then [[]]
    else
      var rest := Split(b[..|b| - 1]);
      if b[|b| - 1] == NL then rest + [[]]
      else rest[..|rest| - 1] + [rest[|rest| - 1] + [b[|b| - 1]]]
  }

  /** The newline-terminated lines, without their newlines. */
  function Lines(b: Bytes): seq<Bytes> {
    var parts := Split(b);
    parts[..|parts| - 1]
  }

  /** Number of bytes up to and including the last newline. */
  function CompleteLength(b: Bytes): (n: nat)
    ensures n <= |b|
  {
    if b == [] then 0
    else if b[|b| - 1] == NL then |b|
    else CompleteLength(b[..|b| - 1])
  }

  /** It is the end of the last newline: nothing else has these properties. */
  lemma {:induction false} CompleteLengthIsLastNewline(b: Bytes, n: nat)
    requires n <= |b|
    ensures CompleteLength(b) == n
            <==> (n > 0 ==> b[n - 1] == NL) && (forall i :: n <= i < |b| ==> b[i] != NL)
  {
    if b != [] && b[|b| - 1] != NL && n < |b| {
      CompleteLengthIsLastNewline(b[..|b| - 1], n);
    }
  }

  function Complete(b: Bytes): Bytes { b[..CompleteLength(b)] }

  function Tail(b: Bytes): Bytes { b[CompleteLength(b)..] }

  /** A character that ends no line only lengthens the tail. */
  lemma TailGrows(b: Bytes)
    requires b != [] && b[|b| - 1] != NL
    ensures var front := b[..|b| - 1];
            Complete(b) == Complete(front) && Tail(b) == Tail(front) + [b[|b| - 1]] && Lines(b) == Lines(front)
  {
    var front := b[..|b| - 1];
    assert CompleteLength(b) == CompleteLength(front);
    assert b == front + [b[|b| - 1]];
    assert Split(b)[..|Split(b)| - 1] == Split(front)[..|Split(front)| - 1];
  }

  lemma {:induction false} SplitShape(b: Bytes)
    ensures Split(b) == Lines(b) + [Tail(b)]
    ensures Lines(b) == Lines(Complete(b))
  {
    if b == [] {
    } else if b[|b| - 1] == NL {
      assert Complete(b) == b && Tail(b) == [];
      assert Lines(b) == Split(b[..|b| - 1]);
    } else {
      SplitShape(b[..|b| - 1]);
      TailGrows(b);
    }
  }

  /** What one more character does to the parts. */
  function Grow(parts: seq<Bytes>, last: char): seq<Bytes>
    requires |parts| >= 1
  {
    if last == NL then parts + [[]]
    else parts[..|parts| - 1] + [parts[|parts| - 1] + [last]]
  }

  lemma SplitSnoc(b: Bytes, last: char)
    ensures Split(b + [last]) == Grow(Split(b), last)
  {
    assert (b + [last])[..|b|] == b;
  }

  lemma GrowConcat(a: seq<Bytes>, b: seq<Bytes>, last: char)
    requires |b| >= 1
    ensures Grow(a + b, last) == a + Grow(b, last)
  {
    var ab := a + b;
    assert ab[|ab| - 1] == b[|b| - 1];
    assert ab[..|ab| - 1] == a + b[..|b| - 1];
  }

  /** Splitting around a newline is splitting both sides. */
  lemma {:induction false} SplitAtNewline(a: Bytes, b: Bytes)
    ensures Split(a + [NL] + b) == Split(a) + Split(b)
  {
    if b == [] {
      assert a + [NL] + b == a + [NL];
      SplitSnoc(a, NL);
    } else {
      var front, last := b[..|b| - 1], b[|b| - 1];
      assert a + [NL] + b == (a + [NL] + front) + [last];
      assert b == front + [last];
      SplitAtNewline(a, front);
      SplitSnoc(a + [NL] + front, last);
      SplitSnoc(front, last);
      GrowConcat(Split(a), Split(front), last);
    }
  }

  lemma LengthOfGrowth(a: Bytes, b: Bytes)
    requires a <= b
    ensures CompleteLength(b) == CompleteLength(a) + CompleteLength(b[CompleteLength(a)..])
  {
    var n := CompleteLength(a);
    var suffix := b[n..];
    var m := CompleteLength(suffix);
    CompleteLengthIsLastNewline(a, n);
    CompleteLengthIsLastNewline(suffix, m);
    assert n > 0 ==> b[n - 1] == a[n - 1];
    assert m > 0 ==> b[n + m - 1] == suffix[m - 1];
    forall i | n + m <= i < |b| ensures b[i] != NL {
      assert b[i] == suffix[i - n];
    }
    CompleteLengthIsLastNewline(b, n + m);
  }

  /** The lines of a text that ends with a newline, and what follows it. */
  lemma LinesAfterNewline(head: Bytes, suffix: Bytes)
    ensures Lines(head + [NL]) == Split(head)
    ensures Lines(head + [NL] + suffix) == Split(head) + Lines(suffix)
  {
    SplitAtNewline(head, suffix);
    SplitSnoc(head, NL);
  }

  /** Lines of a growing text: what is before the last newline of `a` never
      has to be looked at again. */
  lemma LinesOfGrowth(a: Bytes, b: Bytes)
    requires a <= b
    ensures Lines(b) == Lines(a) + Lines(b[CompleteLength(a)..])
  {
    var n := CompleteLength(a);
    var suffix := b[n..];
    CompleteLengthIsLastNewline(a, n);
    SplitShape(a);
    if n > 0 {
      var head := a[..n - 1];
      assert Complete(a) == head + [NL];
      assert b == head + [NL] + suffix;
      LinesAfterNewline(head, suffix);
    } else {
      assert Complete(a) == [] && Lines(a) == [];
      assert suffix == b;
    }
  }

  // ---------------------------------------------------------------- verifying

  /** All rows, or nothing as soon as one line is corrupt. */
  function VerifyAll(c: Codec, lines: seq<Bytes>): Option<seq<Row>> {
    if lines == [] then Some([])
    else
      Extended(VerifyAll(c, lines[..|lines| - 1]), VerifyLine(c, lines[|lines| - 1]))
  }

  function Extended(front: Option<seq<Row>>, last: Option<Row>): Option<seq<Row>> {
    if front.Some? && last.Some? then Some(front.value + [last.value]) else None
  }

  /** It succeeds exactly when every line verifies, with their rows in order. */
  lemma {:induction false} VerifyAllMeaning(c: Codec, lines: seq<Bytes>)
    ensures VerifyAll(c, lines).Some? <==> forall i :: 0 <= i < |lines| ==> VerifyLine(c, lines[i]).Some?
    ensures VerifyAll(c, lines).Some? ==>
              && |VerifyAll(c, lines).value| == |lines|
              && forall i :: 0 <= i < |lines| ==> VerifyLine(c, lines[i]) == Some(VerifyAll(c, lines).value[i])
  {
    if lines != [] {
      VerifyAllMeaning(c, lines[..|lines| - 1]);
    }
  }

  /** The rows of the complete lines: None when a complete line is corrupt. */
  function CompleteRows(c: Codec, b: Bytes): Option<seq<Row>> {
    VerifyAll(c, Lines(b))
  }

  /** A text is taken exactly if every complete line parses to a row whose hash is the
      one stored beside it; and the rows are those. */
  lemma RowsAreAuthentic(c: Codec, b: Bytes)
    ensures CompleteRows(c, b).Some? <==>
              forall i :: 0 <= i < |Lines(b)| ==>
                c.parse(Lines(b)[i]).Some? && c.hash(c.parse(Lines(b)[i]).value.0) == c.parse(Lines(b)[i]).value.1
    ensures CompleteRows(c, b).Some? ==>
              && |CompleteRows(c, b).value| == |Lines(b)|
              && forall i :: 0 <= i < |Lines(b)| ==> CompleteRows(c, b).value[i] == c.parse(Lines(b)[i]).value.0
  {
    VerifyAllMeaning(c, Lines(b));
  }

  /** What follows the last newline has no say in them. */
  lemma RowsOfComplete(c: Codec, b: Bytes)
    ensures CompleteRows(c, b) == VerifyAll(c, Lines(b[..CompleteLength(b)]))
    ensures CompleteLength(b) == 0 ==> CompleteRows(c, b) == Some([])
  {
    SplitShape(b);
    assert Complete(b) == b[..CompleteLength(b)];
  }

  function Join(a: Option<seq<Row>>, b: Option<seq<Row>>): Option<seq<Row>> {
    if a.Some? && b.Some? then Some(a.value + b.value) else None
  }

  lemma JoinAssociates(a: Option<seq<Row>>, b: Option<seq<Row>>, last: Option<Row>)
    ensures Extended(Join(a, b), last) == Join(a, Extended(b, last))
  {
    if a.Some? && b.Some? && last.Some? {
      assert (a.value + b.value) + [last.value] == a.value + (b.value + [last.value]);
    }
  }

  lemma VerifyAllSnoc(c: Codec, lines: seq<Bytes>, last: Bytes)
    ensures VerifyAll(c, lines + [last]) == Extended(VerifyAll(c, lines), VerifyLine(c, last))
  {
    assert (lines + [last])[..|lines|] == lines;
  }

  lemma {:induction false} VerifyAllConcat(c: Codec, a: seq<Bytes>, b: seq<Bytes>)
    ensures VerifyAll(c, a + b) == Join(VerifyAll(c, a), VerifyAll(c, b))
  {
    if b == [] {
      assert a + b == a;
      JoinNothing(VerifyAll(c, a));
    } else {
      var front, last := b[..|b| - 1], b[|b| - 1];
      assert a + b == (a + front) + [last];
      assert b == front + [last];
      VerifyAllConcat(c, a, front);
      VerifyAllSnoc(c, a + front, last);
      VerifyAllSnoc(c, front, last);
      JoinAssociates(VerifyAll(c, a), VerifyAll(c, front), VerifyLine(c, last));
    }
  }

  lemma JoinNothing(a: Option<seq<Row>>)
    ensures Join(a, Some([])) == a
  {
    if a.Some? {
      assert a.value + [] == a.value;
    }
  }

  lemma NothingJoin(a: Option<seq<Row>>)
    ensures Join(Some([]), a) == a
  {
    if a.Some? {
      assert [] + a.value == a.value;
    }
  }

  /** Parsing only the suffix is enough when the old content is a prefix. */
  lemma RowsOfGrowth(c: Codec, a: Bytes, b: Bytes)
    requires a <= b
    ensures CompleteRows(c, b) == Join(CompleteRows(c, a), CompleteRows(c, b[CompleteLength(a)..]))
  {
    LinesOfGrowth(a, b);
    VerifyAllConcat(c, Lines(a), Lines(b[CompleteLength(a)..]));
  }

  /** A line begins at `k`. */
  predicate LineStart(b: Bytes, k: nat)
    requires k <= |b|
  {
    k == 0 || b[k - 1] == NL
  }

  /** The first line start at or after `k`, or the end of the text. */
  function NextStart(b: Bytes, k: nat): (e: nat)
    requires k <= |b|
    ensures k <= e <= |b| && (LineStart(b, e) || e == |b|)
    ensures forall i :: k <= i < e ==> !LineStart(b, i)
    decreases |b| - k
  {
    if LineStart(b, k) || k == |b| then k else NextStart(b, k + 1)
  }

  /** Where a line begins, the text can be parsed in two parts. */
  lemma RowsInTwo(c: Codec, b: Bytes, k: nat)
    requires k <= |b| && LineStart(b, k)
    ensures CompleteRows(c, b) == Join(CompleteRows(c, b[..k]), CompleteRows(c, b[k..]))
    ensures CompleteLength(b) == k + CompleteLength(b[k..])
  {
    CompleteLengthIsLastNewline(b[..k], k);
    RowsOfGrowth(c, b[..k], b);
    LengthOfGrowth(b[..k], b);
  }

  /** Two texts with the same lines from `k` on have the same rows exactly if they
      have the same rows up to there. */
  lemma SameTailRowsIff(c: Codec, a: Bytes, b: Bytes, k: nat)
    requires k <= |a| && k <= |b| && LineStart(a, k) && LineStart(b, k) && a[k..] == b[k..]
    requires CompleteRows(c, a).Some?
    ensures CompleteRows(c, b) == CompleteRows(c, a) <==> CompleteRows(c, b[..k]) == CompleteRows(c, a[..k])
  {
    RowsInTwo(c, a, k);
    RowsInTwo(c, b, k);
    var x, y, tail := CompleteRows(c, a[..k]), CompleteRows(c, b[..k]), CompleteRows(c, a[k..]);
    if y.Some? && y.value + tail.value == x.value + tail.value {
      assert |y.value| == |x.value|;
      assert x.value == (x.value + tail.value)[..|x.value|] == y.value;
    }
  }

  /** Appending one encoded row to a text without a pending tail adds that row. */
  lemma AppendedRow(c: Codec, b: Bytes, row: Row)
    requires Faithful(c)
    requires Tail(b) == []
    ensures CompleteRows(c, b + Encode(c, row)) == Join(CompleteRows(c, b), Some([row]))
    ensures Tail(b + Encode(c, row)) == []
  {
    var line := LineOf(c, row);
    var grown := b + Encode(c, row);
    assert CompleteLength(b) == |b|;
    assert grown[CompleteLength(b)..] == Encode(c, row);
    RowsOfGrowth(c, b, grown);
    NoNewlineSplit(line);
    SplitAtNewline(line, []);
    assert line + [NL] + [] == Encode(c, row);
    assert Lines(Encode(c, row)) == [line];
    VerifyAllSnoc(c, [], line);
    assert [] + [line] == [line] && [] + [row] == [row];
  }

  lemma {:induction false} NoNewlineSplit(b: Bytes)
    requires NL !in b
    ensures Split(b) == [b]
    ensures CompleteLength(b) == 0
  {
    if b != [] {
      var front := b[..|b| - 1];
      NoNewlineSplit(front);
      assert b == front + [b[|b| - 1]];
      SplitSnoc(front, b[|b| - 1]);
      assert Grow([front], b[|b| - 1]) == [b];
    }
  }

  // ------------------------------------------------------------------- replay

  /** What a full replay of a text returns: the complete lines must all verify;
      an unterminated last line is kept when it verifies and dropped otherwise. */
  function ReplayRows(c: Codec, text: Bytes): Option<seq<Row>> {
    Kept(c, CompleteRows(c, text), Tail(text))
  }

  function Kept(c: Codec, complete: Option<seq<Row>>, tail: Bytes): Option<seq<Row>> {
    match complete
    case None => None
    case Some(rows) =>
      if tail == [] then Some(rows)
      else
        match VerifyLine(c, tail)
        case None => Some(rows)
        case Some(row) => Some(rows + [row])
  }

  lemma OneCorrupt(c: Codec, lines: seq<Bytes>, i: nat)
    requires i < |lines| && VerifyLine(c, lines[i]).None?
    ensures VerifyAll(c, lines).None?
  {
    VerifyAllMeaning(c, lines);
  }

  /** The scan of the replay itself, part by part, with its early exits. */
  method ReplayText(c: Codec, text: Bytes) returns (r: Option<seq<Row>>)
    ensures r == ReplayRows(c, text)
  {
    ghost var lines, tail := Lines(text), Tail(text);
    SplitShape(text);
    if text == [] {
      assert lines == [];
      return Some([]);
    }
    var endedWithNewline := text[|text| - 1] == NL;
    var parts := Split(text);
    if parts[|parts| - 1] == [] {
      parts := parts[..|parts| - 1];
    }
    assert parts == if tail == [] then lines else lines + [tail];
    r := ScanParts(c, parts, endedWithNewline, lines, tail);
  }

  method ScanParts(c: Codec, parts: seq<Bytes>, endedWithNewline: bool, ghost lines: seq<Bytes>, ghost tail: Bytes)
    returns (r: Option<seq<Row>>)
    requires parts == if tail == [] then lines else lines + [tail]
    requires endedWithNewline <==> tail == []
    ensures r == Kept(c, VerifyAll(c, lines), tail)
  {
    var rows: seq<Row> := [];
    var i := 0;
    while i < |parts|
      invariant 0 <= i <= |parts|
      invariant i <= |lines| ==> VerifyAll(c, lines[..i]) == Some(rows)
      invariant i > |lines| ==> Kept(c, VerifyAll(c, lines), tail) == Some(rows)
    {
      var line := parts[i];
      var row := VerifyLine(c, line);
      if i < |lines| {
        VerifyAllSnoc(c, lines[..i], line);
        assert lines[..i + 1] == lines[..i] + [line];
      } else {
        assert lines[..i] == lines;
      }
      if row.None? {
        if i == |parts| - 1 && !endedWithNewline {
          return Some(rows);
        }
        OneCorrupt(c, lines, i);
        return None;
      }
      rows := rows + [row.value];
      i := i + 1;
    }
    assert lines[..|lines|] == lines;
    r := Some(rows);
  }

  lemma ReplayOfComplete(c: Codec, text: Bytes)
    ensures Tail(Complete(text)) == []
    ensures ReplayRows(c, Complete(text)) == CompleteRows(c, text)
  {
    SplitShape(text);
    var n := CompleteLength(text);
    CompleteLengthIsLastNewline(text, n);
    CompleteLengthIsLastNewline(text[..n], n);
  }

  /** The reader's documentation promises exactly what a replay returns. That
      holds precisely when there is no unterminated tail that verifies. */
  lemma ReplayIsCompleteRowsIff(c: Codec, text: Bytes)
    requires CompleteRows(c, text).Some?
    ensures ReplayRows(c, text) == CompleteRows(c, text)
            <==> Tail(text) == [] || VerifyLine(c, Tail(text)).None?
  {
    var rows := CompleteRows(c, text).value;
    if Tail(text) != [] && VerifyLine(c, Tail(text)).Some? {
      assert |rows + [VerifyLine(c, Tail(text)).value]| == |rows| + 1;
    }
  }

  /** The input on which the two differ: a row whose final newline has not landed. */
  lemma UnterminatedRowReplaysButIsPending(c: Codec, row: Row)
    requires Faithful(c)
    ensures ReplayRows(c, LineOf(c, row)) == Some([row])
    ensures CompleteRows(c, LineOf(c, row)) == Some([])
  {
    NoNewlineSplit(LineOf(c, row));
    assert Tail(LineOf(c, row)) == LineOf(c, row);
    assert [] + [row] == [row];
  }

  // --------------------------------------------------------- crash and repair

  /** A crash leaves any prefix of the in-flight payload behind the acknowledged
      text. Cutting back to the last newline keeps exactly the acknowledged rows,
      plus the in-flight row iff its whole line landed. */
  lemma CrashRepair(c: Codec, acked: Bytes, row: Row, landed: nat)
    requires Faithful(c)
    requires Tail(acked) == []
    requires landed <= |Encode(c, row)|
    ensures var crashed := acked + Encode(c, row)[..landed];
            Complete(crashed) == (if landed == |Encode(c, row)| then crashed else acked)
    ensures ReplayRows(c, Complete(acked + Encode(c, row)[..landed]))
            == Join(CompleteRows(c, acked),
                    Some(if landed == |Encode(c, row)| then [row] else []))
  {
    var payload := Encode(c, row);
    var crashed := acked + payload[..landed];
    if landed == |payload| {
      assert payload[..landed] == payload;
      AppendedRow(c, acked, row);
      assert Complete(crashed) == crashed;
    } else {
      LengthOfGrowth(acked, crashed);
      assert CompleteLength(acked) == |acked|;
      assert crashed[|acked|..] == payload[..landed];
      assert payload[..landed] == LineOf(c, row)[..landed];
      NoNewlineSplit(payload[..landed]);
      assert Complete(crashed) == acked;
      JoinNothing(CompleteRows(c, acked));
    }
  }
}
