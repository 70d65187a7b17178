/** The canonical string behind a command's fingerprint. SHA-256 is taken to be injective, so the string itself
    stands for the fingerprint. */
module Canonical {
  import opened Basics
  import opened CommitDomain
  import opened Text
  import opened Timestamp

  function LinesById(lines: seq<Line>): map<Id, Line>
    requires DistinctLineIds(lines)
  {
    map line | line in lines :: line.orderLineId := line
  }

  function Pick(byId: map<Id, Line>, ids: seq<Id>): seq<Line>
    requires forall id :: id in ids ==> id in byId
  {
    seq(|ids|, i requires 0 <= i < |ids| => byId[ids[i]])
  }

  /** The copy of the lines sorted by line identifier. */
  function InLineOrder(lines: seq<Line>): seq<Line>
    requires DistinctLineIds(lines)
  {
    var byId := LinesById(lines);
    SortedIsIncreasing(byId.Keys);
    assert forall id :: id in Sorted(byId.Keys) ==> id in Elements(Sorted(byId.Keys));
    Pick(byId, Sorted(byId.Keys))
  }

  ghost predicate LinesIncrease(lines: seq<Line>) {
    forall i, j :: 0 <= i < j < |lines| ==> lines[i].orderLineId < lines[j].orderLineId
  }

  lemma PickKeepsLines(byId: map<Id, Line>, ids: seq<Id>)
    requires Increasing(ids) && Elements(ids) == byId.Keys
    requires forall id :: id in ids ==> id in byId
    requires forall id :: id in byId ==> byId[id].orderLineId == id
    ensures LinesIncrease(Pick(byId, ids))
    ensures forall line :: line in Pick(byId, ids) <==> line.orderLineId in byId && byId[line.orderLineId] == line
  {
    var sorted := Pick(byId, ids);
    assert forall i :: 0 <= i < |ids| ==> ids[i] in ids && sorted[i] == byId[ids[i]];
    forall line: Line | line.orderLineId in byId && byId[line.orderLineId] == line
      ensures line in sorted
    {
      assert line.orderLineId in Elements(ids);
      var i :| 0 <= i < |ids| && ids[i] == line.orderLineId;
      assert sorted[i] == line;
    }
  }

  lemma InLineOrderKeepsLines(lines: seq<Line>)
    requires DistinctLineIds(lines)
    ensures LinesIncrease(InLineOrder(lines))
    ensures forall line :: line in InLineOrder(lines) <==> line in lines
  {
    var byId := LinesById(lines);
    SortedIsIncreasing(byId.Keys);
    assert forall id :: id in Sorted(byId.Keys) ==> id in Elements(Sorted(byId.Keys));
    PickKeepsLines(byId, Sorted(byId.Keys));
    forall line
      ensures line in lines <==> line.orderLineId in byId && byId[line.orderLineId] == line
    {
    }
  }

  lemma {:induction false} IncreasingLinesAreUnique(xs: seq<Line>, ys: seq<Line>)
    requires LinesIncrease(xs) && LinesIncrease(ys)
    requires forall line :: line in xs <==> line in ys
    ensures xs == ys
  {
    assert xs != [] ==> xs[0] in ys;
    assert ys != [] ==> ys[0] in xs;
    if xs != [] {
      assert xs[0] == ys[0];
      forall line
        ensures line in xs[1..] <==> line in ys[1..]
      {
        assert line in xs[1..] <==> line in xs && line != xs[0];
        assert line in ys[1..] <==> line in ys && line != ys[0];
      }
      IncreasingLinesAreUnique(xs[1..], ys[1..]);
    }
  }

  function LineParts(line: Line): seq<string> {
    [UuidText(line.orderLineId), UuidText(line.productId), Decimal(if line.quantity < 0 then 0 else line.quantity)]
  }

  function LineText(line: Line): string {
    Join(LineParts(line), ':')
  }

  function LineTexts(lines: seq<Line>): (texts: seq<string>)
    ensures |texts| == |lines|
    ensures forall i :: 0 <= i < |lines| ==> texts[i] == LineText(lines[i])
  {
    if lines == [] then [] else LineTexts(lines[..|lines| - 1]) + [LineText(lines[|lines| - 1])]
  }

  function Header(command: CommitCommand): seq<string> {
    [command.schemaVersion, UuidText(command.eventId), UuidText(command.operationId), UuidText(command.orderId),
     TimestampText(command.occurredAt)]
  }

  ghost function CanonicalFields(command: CommitCommand): seq<string>
    requires DistinctLineIds(command.lines)
  {
    Header(command) + LineTexts(InLineOrder(command.lines))
  }

  ghost function CanonicalText(command: CommitCommand): string
    requires DistinctLineIds(command.lines)
  {
    Join(CanonicalFields(command), '|')
  }

  lemma {:induction false} JoinAppend(fields: seq<string>, last: string, c: char)
    requires fields != []
    ensures Join(fields + [last], c) == Join(fields, c) + [c] + last
  {
    if |fields| > 1 {
      assert (fields + [last])[1..] == fields[1..] + [last];
      JoinAppend(fields[1..], last, c);
    } else {
      assert (fields + [last])[1..] == [last];
    }
  }

  /** `CommitCommand.Fingerprint`: validates, sorts a copy of the lines and writes the string piece by piece. */
  method Fingerprint(command: CommitCommand) returns (fingerprint: Option<string>)
    ensures fingerprint.Some? <==> ValidCommand(command)
    ensures fingerprint.Some? ==> fingerprint.value == CanonicalText(command)
  {
    var ok := ValidateCommand(command);
    if !ok {
      return None;
    }
    var lines := InLineOrder(command.lines);
    var canonical := WriteLines(Header(command), lines);
    return Some(canonical);
  }

  /** The loop of `CommitCommand.Fingerprint`: one more field for each line. */
  method WriteLines(header: seq<string>, lines: seq<Line>) returns (canonical: string)
    requires header != []
    ensures canonical == Join(header + LineTexts(lines), '|')
  {
    canonical := Join(header, '|');
    assert header + LineTexts(lines[..0]) == header;
    for i := 0 to |lines|
      invariant canonical == Join(header + LineTexts(lines[..i]), '|')
    {
      JoinAppend(header + LineTexts(lines[..i]), LineText(lines[i]), '|');
      LineTextsAppend(header, lines, i);
      canonical := canonical + "|" + LineText(lines[i]);
    }
    assert lines[..|lines|] == lines;
  }

  lemma LineTextsAppend(header: seq<string>, lines: seq<Line>, i: nat)
    requires i < |lines|
    ensures header + LineTexts(lines[..i + 1]) == header + LineTexts(lines[..i]) + [LineText(lines[i])]
  {
    assert lines[..i + 1][..i] == lines[..i];
  }

  lemma UuidIsFree(id: Id)
    ensures Free(UuidText(id), '|') && Free(UuidText(id), ':')
  {
    var h := Fixed(id, Sixteen, 32);
    FixedIsFree(id, Sixteen, 32, '|');
    FixedIsFree(id, Sixteen, 32, ':');
    JoinIsFree(Groups(h), '-', '|');
    JoinIsFree(Groups(h), '-', ':');
  }

  lemma LineTextReadsBack(line: Line)
    requires line.quantity >= 0
    ensures Free(LineText(line), '|')
    ensures Split(LineText(line), ':') == LineParts(line)
  {
    UuidIsFree(line.orderLineId);
    UuidIsFree(line.productId);
    DecimalIsFree(line.quantity, '|');
    DecimalIsFree(line.quantity, ':');
    JoinIsFree(LineParts(line), ':', '|');
    JoinReadsBack(LineParts(line), ':');
  }

  predicate LineFits(line: Line) {
    line.orderLineId < UUID_LIMIT && line.productId < UUID_LIMIT && line.quantity >= 0
  }

  /** Every identifier of the command is a 128-bit number. */
  ghost predicate IdsFit(command: CommitCommand) {
    && command.eventId < UUID_LIMIT && command.operationId < UUID_LIMIT && command.orderId < UUID_LIMIT
    && forall line :: line in command.lines ==> LineFits(line)
  }

  lemma LineTextIsInjective(line: Line, other: Line)
    requires LineFits(line) && LineFits(other) && LineText(line) == LineText(other)
    ensures line == other
  {
    LineTextReadsBack(line);
    LineTextReadsBack(other);
    var p, q := LineParts(line), LineParts(other);
    assert p[0] == q[0] && p[1] == q[1] && p[2] == q[2];
    UuidReadsBack(line.orderLineId);
    UuidReadsBack(other.orderLineId);
    UuidReadsBack(line.productId);
    UuidReadsBack(other.productId);
    DecimalReadsBack(line.quantity);
    DecimalReadsBack(other.quantity);
  }

  /** Five fields for the command, in this order. */
  ghost predicate HeaderFields(fields: seq<string>, command: CommitCommand)
    requires |fields| >= 5
  {
    && fields[0] == command.schemaVersion && fields[1] == UuidText(command.eventId)
    && fields[2] == UuidText(command.operationId) && fields[3] == UuidText(command.orderId)
    && fields[4] == TimestampText(command.occurredAt)
  }

  /** Identifier, product and quantity of a line, in this order. */
  ghost predicate LineFields(fields: seq<string>, line: Line) {
    && |fields| == 3 && fields[0] == UuidText(line.orderLineId) && fields[1] == UuidText(line.productId)
    && Value(fields[2], Ten) == line.quantity
  }

  /** The canonical text reads as the command's five fields and then one field for each line, in the order of the line
      identifiers. */
  lemma CanonicalTextReads(command: CommitCommand, i: nat)
    requires ValidCommand(command) && i < |command.lines|
    ensures var fields, lines := Split(CanonicalText(command), '|'), InLineOrder(command.lines);
      && |fields| == 5 + |command.lines| == 5 + |lines| && HeaderFields(fields, command)
      && LinesIncrease(lines) && (forall line :: line in lines <==> line in command.lines)
      && LineFields(Split(fields[5 + i], ':'), lines[i])
  {
    FieldsReadBack(command);
    InLineOrderKeepsLines(command.lines);
    LineOrderKeepsCount(command.lines);
    var line := InLineOrder(command.lines)[i];
    assert GoodLine(line);
    FieldsAre(Header(command), InLineOrder(command.lines), i);
    LineTextReadsBack(line);
    LinePartsRead(line);
  }

  lemma FieldsAre(header: seq<string>, lines: seq<Line>, i: nat)
    requires |header| == 5 && i < |lines|
    ensures var fields := header + LineTexts(lines);
      && |fields| == 5 + |lines| && fields[5 + i] == LineText(lines[i])
      && fields[0] == header[0] && fields[1] == header[1] && fields[2] == header[2] && fields[3] == header[3]
      && fields[4] == header[4]
  {
  }

  lemma LinePartsRead(line: Line)
    requires line.quantity >= 0
    ensures LineFields(LineParts(line), line)
  {
    DecimalReadsBack(line.quantity);
  }

  lemma LineOrderKeepsCount(lines: seq<Line>)
    requires DistinctLineIds(lines)
    ensures |InLineOrder(lines)| == |lines|
  {
    var sorted := InLineOrder(lines);
    InLineOrderKeepsLines(lines);
    assert NoRepeats(lines) && NoRepeats(sorted);
    SameElementsSameBag(lines, sorted);
    assert |multiset(lines)| == |multiset(sorted)|;
  }

  lemma FieldsReadBack(command: CommitCommand)
    requires ValidCommand(command)
    ensures Split(CanonicalText(command), '|') == CanonicalFields(command)
  {
    var lines := InLineOrder(command.lines);
    InLineOrderKeepsLines(command.lines);
    UuidIsFree(command.eventId);
    UuidIsFree(command.operationId);
    UuidIsFree(command.orderId);
    TimestampIsFree(command.occurredAt);
    forall i | 0 <= i < |lines|
      ensures Free(LineText(lines[i]), '|')
    {
      assert GoodLine(lines[i]);
      LineTextReadsBack(lines[i]);
    }
    forall f | f in CanonicalFields(command)
      ensures Free(f, '|')
    {
      assert f in Header(command) || f in LineTexts(lines);
    }
    JoinReadsBack(CanonicalFields(command), '|');
  }

  /** Two valid commands have the same canonical string exactly when they agree on every identifier, on the
      instant, and on the set of lines. */
  lemma FingerprintIdentifiesCommand(c: CommitCommand, d: CommitCommand)
    requires ValidCommand(c) && ValidCommand(d) && IdsFit(c) && IdsFit(d)
    ensures CanonicalText(c) == CanonicalText(d) <==>
              && c.eventId == d.eventId && c.operationId == d.operationId && c.orderId == d.orderId
              && c.occurredAt == d.occurredAt
              && forall line :: line in c.lines <==> line in d.lines
  {
    var xs, ys := InLineOrder(c.lines), InLineOrder(d.lines);
    InLineOrderKeepsLines(c.lines);
    InLineOrderKeepsLines(d.lines);
    if CanonicalText(c) == CanonicalText(d) {
      FieldsReadBack(c);
      FieldsReadBack(d);
      HeadersAgree(c, d);
      LinesAgree(c, d);
    }
    if forall line :: line in c.lines <==> line in d.lines {
      IncreasingLinesAreUnique(xs, ys);
    }
  }

  lemma HeadersAgree(c: CommitCommand, d: CommitCommand)
    requires ValidCommand(c) && ValidCommand(d) && IdsFit(c) && IdsFit(d)
    requires CanonicalFields(c) == CanonicalFields(d)
    ensures c.eventId == d.eventId && c.operationId == d.operationId && c.orderId == d.orderId
    ensures c.occurredAt == d.occurredAt
  {
    var f, g := CanonicalFields(c), CanonicalFields(d);
    assert f[1] == g[1] && f[2] == g[2] && f[3] == g[3] && f[4] == g[4];
    UuidReadsBack(c.eventId);
    UuidReadsBack(d.eventId);
    UuidReadsBack(c.operationId);
    UuidReadsBack(d.operationId);
    UuidReadsBack(c.orderId);
    UuidReadsBack(d.orderId);
    TimestampIsInjective(c.occurredAt, d.occurredAt);
  }

  lemma LinesAgree(c: CommitCommand, d: CommitCommand)
    requires ValidCommand(c) && ValidCommand(d) && IdsFit(c) && IdsFit(d)
    requires CanonicalFields(c) == CanonicalFields(d)
    ensures forall line :: line in c.lines <==> line in d.lines
  {
    var xs, ys := InLineOrder(c.lines), InLineOrder(d.lines);
    InLineOrderKeepsLines(c.lines);
    InLineOrderKeepsLines(d.lines);
    assert LineTexts(xs) == CanonicalFields(c)[5..] && LineTexts(ys) == CanonicalFields(d)[5..];
    assert forall line :: line in xs || line in ys ==> LineFits(line);
    LineTextsAreInjective(xs, ys);
  }

  lemma LineTextsAreInjective(xs: seq<Line>, ys: seq<Line>)
    requires LineTexts(xs) == LineTexts(ys)
    requires forall line :: line in xs || line in ys ==> LineFits(line)
    ensures xs == ys
  {
    SameLength(xs, ys);
    forall i | 0 <= i < |xs|
      ensures xs[i] == ys[i]
    {
      SameTextAt(xs, ys, i);
    }
  }

  lemma SameLength(xs: seq<Line>, ys: seq<Line>)
    requires LineTexts(xs) == LineTexts(ys)
    ensures |xs| == |ys|
  {
  }

  lemma SameTextAt(xs: seq<Line>, ys: seq<Line>, i: nat)
    requires LineTexts(xs) == LineTexts(ys) && |xs| == |ys| && i < |xs|
    requires LineFits(xs[i]) && LineFits(ys[i])
    ensures xs[i] == ys[i]
  {
    assert LineTexts(xs)[i] == LineTexts(ys)[i];
    LineTextIsInjective(xs[i], ys[i]);
  }
}
