/** The comma-separated input of a member import: rows, and documents made of rows. */
module Csv {
  import opened Prelude
  import opened Text

  const QUOTE: char := '\"'

  // ---------- rows: the grammar and the loop ----------

  function Prepend(c: char, fields: seq<string>): seq<string>
    requires fields != []
  {
    [[c] + fields[0]] + fields[1..]
  }

  /** What a row, or the rest of one, reads as; the first field is the one in progress. */
  function ParseFrom(text: string, quoted: bool): (r: Option<seq<string>>)
    ensures r.Some? ==> r.value != []
  {
    if text == "" then
      if quoted then None else Some([""])
    else if text[0] == QUOTE && quoted && |text| > 1 && text[1] == QUOTE then
      var rest := ParseFrom(text[2..], true);
      if rest.None? then None else Some(Prepend(QUOTE, rest.value))
    else if text[0] == QUOTE then
      ParseFrom(text[1..], !quoted)
    else if text[0] == ',' && !quoted then
      var rest := ParseFrom(text[1..], false);
      if rest.None? then None else Some([""] + rest.value)
    else
      var rest := ParseFrom(text[1..], quoted);
      if rest.None? then None else Some(Prepend(text[0], rest.value))
  }

  function ParseRow(line: string): Option<seq<string>> {
    ParseFrom(line, false)
  }

  /** Fields already read, the beginning of the current one, and the reading of the rest. */
  ghost function Assembled(values: seq<string>, current: string, rest: Option<seq<string>>): Option<seq<string>>
    requires rest.Some? ==> rest.value != []
  {
    if rest.None? then None else Some(values + [current + rest.value[0]] + rest.value[1..])
  }

  ghost function Onto(prefix: string, rest: Option<seq<string>>): (r: Option<seq<string>>)
    requires rest.Some? ==> rest.value != []
    ensures r.Some? ==> r.value != []
  {
    Assembled([], prefix, rest)
  }

  lemma AssembledNothing(rest: Option<seq<string>>)
    requires rest.Some? ==> rest.value != []
    ensures Assembled([], "", rest) == rest
  {
    if rest.Some? {
      assert "" + rest.value[0] == rest.value[0];
      assert [] + [rest.value[0]] + rest.value[1..] == rest.value;
    }
  }

  lemma AssembledCharacter(values: seq<string>, current: string, c: char, rest: Option<seq<string>>)
    requires rest.Some? ==> rest.value != []
    ensures Assembled(values, current + [c], rest) == Assembled(values, current, Onto([c], rest))
  {
    if rest.Some? {
      assert current + [c] + rest.value[0] == current + ([c] + rest.value[0]);
      assert Onto([c], rest).value[1..] == rest.value[1..];
    }
  }

  lemma AssembledField(values: seq<string>, current: string, rest: Option<seq<string>>)
    requires rest.Some? ==> rest.value != []
    ensures Assembled(values + [current], "", rest)
            == Assembled(values, current, if rest.None? then None else Some([""] + rest.value))
  {
    if rest.Some? {
      assert ([""] + rest.value)[1..] == rest.value == [rest.value[0]] + rest.value[1..];
      assert current + "" == current && "" + rest.value[0] == rest.value[0];
      assert values + [current] + [rest.value[0]] + rest.value[1..] == values + [current] + rest.value;
    }
  }

  /** What the character at the front of the rest does. */
  lemma ReadOne(values: seq<string>, current: string, text: string, quoted: bool)
    requires text != ""
    ensures var (whole, c) := (Assembled(values, current, ParseFrom(text, quoted)), text[0]);
            if c == QUOTE && quoted && |text| > 1 && text[1] == QUOTE then
              whole == Assembled(values, current + [QUOTE], ParseFrom(text[2..], true))
            else if c == QUOTE then whole == Assembled(values, current, ParseFrom(text[1..], !quoted))
            else if c == ',' && !quoted then whole == Assembled(values + [current], "", ParseFrom(text[1..], false))
            else whole == Assembled(values, current + [c], ParseFrom(text[1..], quoted))
  {
    if text[0] == QUOTE && quoted && |text| > 1 && text[1] == QUOTE {
      AssembledCharacter(values, current, QUOTE, ParseFrom(text[2..], true));
    } else if text[0] == ',' && !quoted {
      AssembledField(values, current, ParseFrom(text[1..], false));
    } else if text[0] != QUOTE {
      AssembledCharacter(values, current, text[0], ParseFrom(text[1..], quoted));
    }
  }

  /** No result stands for the error about an unterminated quoted value. */
  method ParseCsvRow(line: string) returns (r: Option<seq<string>>)
    ensures r == ParseRow(line)
    ensures r.None? <==> Quotes(line) % 2 == 1
    ensures r.Some? ==> |r.value| == 1 + Separators(line)
  {
    var values: seq<string> := [];
    var current, quoted, index := "", false, 0;
    assert line[0..] == line;
    AssembledNothing(ParseRow(line));
    while index < |line|
      invariant index <= |line|
      invariant Assembled(values, current, ParseFrom(line[index..], quoted)) == ParseRow(line)
    {
      var character := line[index];
      ReadOne(values, current, line[index..], quoted);
      if character == QUOTE {
        if quoted && index + 1 < |line| && line[index + 1] == QUOTE {
          current := current + [QUOTE];
          index := index + 1;
        } else {
          quoted := !quoted;
        }
      } else if character == ',' && !quoted {
        values := values + [current];
        current := "";
      } else {
        current := current + [character];
      }
      index := index + 1;
    }
    RowShape(line);
    if quoted {
      return None;
    }
    assert line[index..] == "" && current + "" == current;
    assert values + [current] + [""][1..] == values + [current];
    return Some(values + [current]);
  }

  // ---------- which rows are accepted, and into how many fields ----------

  function Quotes(text: string): nat {
    if text == "" then 0 else Quotes(text[..|text| - 1]) + if text[|text| - 1] == QUOTE then 1 else 0
  }

  /** The commas that an even number of quotes comes before. */
  function Separators(text: string): nat {
    if text == "" then 0
    else
      var before := text[..|text| - 1];
      Separators(before) + if text[|text| - 1] == ',' && Quotes(before) % 2 == 0 then 1 else 0
  }

  /** A row is accepted exactly when its quotes pair up, and has one field more than it has commas outside quotes. */
  lemma RowShape(line: string)
    ensures ParseRow(line).None? <==> Quotes(line) % 2 == 1
    ensures ParseRow(line).Some? ==> |ParseRow(line).value| == 1 + Separators(line)
  {
    assert line[0..] == line && line[..0] == "";
    ShapeFrom(line, 0);
  }

  /** The shape of the row, told from position `i` on. */
  ghost predicate ShapedFrom(line: string, i: nat)
    requires i <= |line|
  {
    var rest := ParseFrom(line[i..], Quotes(line[..i]) % 2 == 1);
    && (rest.None? <==> Quotes(line) % 2 == 1)
    && (rest.Some? ==> Separators(line[..i]) + |rest.value| == 1 + Separators(line))
  }

  lemma CountsAfter(line: string, i: nat)
    requires i < |line|
    ensures Quotes(line[..i + 1]) == Quotes(line[..i]) + if line[i] == QUOTE then 1 else 0
    ensures Separators(line[..i + 1]) == Separators(line[..i]) + if line[i] == ',' && Quotes(line[..i]) % 2 == 0 then 1 else 0
  {
    assert line[..i + 1][..i] == line[..i];
  }

  predicate QuotePair(line: string, i: nat)
    requires i < |line|
  {
    line[i] == QUOTE && Quotes(line[..i]) % 2 == 1 && i + 1 < |line| && line[i + 1] == QUOTE
  }

  lemma ShapeAtQuotePair(line: string, i: nat)
    requires i < |line| && QuotePair(line, i) && ShapedFrom(line, i + 2)
    ensures ShapedFrom(line, i)
  {
    CountsAfterPair(line, i);
    assert line[i..][0] == QUOTE && line[i..][1] == QUOTE && line[i..][2..] == line[i + 2..];
    PairIsOneCharacter(line[i..]);
  }

  lemma CountsAfterPair(line: string, i: nat)
    requires i < |line| && QuotePair(line, i)
    ensures Quotes(line[..i + 2]) % 2 == 1 && Separators(line[..i + 2]) == Separators(line[..i])
  {
    CountsAfter(line, i);
    CountsAfter(line, i + 1);
    assert Quotes(line[..i + 2]) == Quotes(line[..i]) + 2;
  }

  lemma PairIsOneCharacter(text: string)
    requires |text| > 1 && text[0] == QUOTE && text[1] == QUOTE
    ensures var (whole, rest) := (ParseFrom(text, true), ParseFrom(text[2..], true));
            && (whole.None? <==> rest.None?)
            && (whole.Some? ==> |whole.value| == |rest.value|)
  {
  }

  lemma ShapeAtQuote(line: string, i: nat)
    requires i < |line| && line[i] == QUOTE && !QuotePair(line, i) && ShapedFrom(line, i + 1)
    ensures ShapedFrom(line, i)
  {
    CountsAfter(line, i);
    var (text, rest) := (line[i..], line[i + 1..]);
    assert text[0] == QUOTE && text[1..] == rest && (|text| > 1 ==> text[1] == line[i + 1]);
  }

  lemma ShapeAtOther(line: string, i: nat)
    requires i < |line| && line[i] != QUOTE && ShapedFrom(line, i + 1)
    ensures ShapedFrom(line, i)
  {
    CountsAfter(line, i);
    var (text, rest) := (line[i..], line[i + 1..]);
    assert text[0] == line[i] && text[1..] == rest;
  }

  lemma {:induction false} ShapeFrom(line: string, i: nat)
    requires i <= |line|
    ensures ShapedFrom(line, i)
    decreases |line| - i
  {
    if i == |line| {
      assert line[..i] == line && line[i..] == "";
    } else if QuotePair(line, i) {
      ShapeFrom(line, i + 2);
      ShapeAtQuotePair(line, i);
    } else {
      ShapeFrom(line, i + 1);
      if line[i] == QUOTE {
        ShapeAtQuote(line, i);
      } else {
        ShapeAtOther(line, i);
      }
    }
  }

  // ---------- round trips ----------

  function Doubled(field: string): string {
    if field == "" then "" else (if field[0] == QUOTE then [QUOTE, QUOTE] else [field[0]]) + Doubled(field[1..])
  }

  /** A field between quotes, with its own quotes doubled: section 2 of RFC 4180. */
  function Quoted(field: string): string {
    [QUOTE] + Doubled(field) + [QUOTE]
  }

  predicate Plain(field: string) {
    Free(field, QUOTE) && Free(field, ',')
  }

  /** Every field may be quoted; one without quotes and commas may also stand as it is. */
  predicate Encodes(text: string, field: string) {
    text == Quoted(field) || (text == field && Plain(field))
  }

  ghost predicate EncodeEach(texts: seq<string>, fields: seq<string>) {
    |texts| == |fields| && forall i :: 0 <= i < |texts| ==> Encodes(texts[i], fields[i])
  }

  function Joined(texts: seq<string>): string
    requires texts != []
  {
    if |texts| == 1 then texts[0] else texts[0] + "," + Joined(texts[1..])
  }

  lemma OntoFront(c: char, prefix: string, rest: Option<seq<string>>)
    requires rest.Some? ==> rest.value != []
    ensures Onto([c], Onto(prefix, rest)) == Onto([c] + prefix, rest)
  {
    if rest.Some? {
      assert [c] + (prefix + rest.value[0]) == [c] + prefix + rest.value[0];
    }
  }

  lemma FrontOf(head: string, body: string, rest: string)
    ensures head + body + rest == head + (body + rest) && (head + (body + rest))[|head|..] == body + rest
  {
  }

  /** One character of a doubled field is read as the character it stands for. */
  lemma DoubledCharacter(field: string, rest: string)
    requires field != ""
    ensures ParseFrom(Doubled(field) + rest, true) == Onto([field[0]], ParseFrom(Doubled(field[1..]) + rest, true))
  {
    var head := if field[0] == QUOTE then [QUOTE, QUOTE] else [field[0]];
    var tail := Doubled(field[1..]) + rest;
    var text := head + tail;
    FrontOf(head, Doubled(field[1..]), rest);
    assert Doubled(field) + rest == text;
    AssembledNothing(ParseFrom(text, true));
    ReadOne([], "", text, true);
    AssembledCharacter([], "", field[0], ParseFrom(tail, true));
  }

  lemma {:induction false} DoubledReadsBack(field: string, rest: string)
    requires rest == "" || rest[0] != QUOTE
    ensures ParseFrom(Doubled(field) + ([QUOTE] + rest), true) == Onto(field, ParseFrom(rest, false))
  {
    if field == "" {
      assert Doubled(field) + ([QUOTE] + rest) == [QUOTE] + rest && ([QUOTE] + rest)[1..] == rest;
      AssembledNothing(ParseFrom(rest, false));
    } else {
      DoubledReadsBack(field[1..], rest);
      DoubledCharacter(field, [QUOTE] + rest);
      OntoFront(field[0], field[1..], ParseFrom(rest, false));
      assert field == [field[0]] + field[1..];
    }
  }

  lemma {:induction false} PlainReadsBack(field: string, rest: string)
    requires Plain(field)
    ensures ParseFrom(field + rest, false) == Onto(field, ParseFrom(rest, false))
  {
    if field == "" {
      assert field + rest == rest;
      AssembledNothing(ParseFrom(rest, false));
    } else {
      assert (field + rest)[1..] == field[1..] + rest;
      PlainReadsBack(field[1..], rest);
      OntoFront(field[0], field[1..], ParseFrom(rest, false));
      assert field == [field[0]] + field[1..];
      ReadOne([], "", field + rest, false);
      AssembledNothing(ParseFrom(field + rest, false));
      AssembledCharacter([], "", field[0], ParseFrom(field[1..] + rest, false));
    }
  }

  lemma FieldReadsBack(text: string, field: string, rest: string)
    requires Encodes(text, field) && (rest == "" || rest[0] == ',')
    ensures ParseFrom(text + rest, false) == Onto(field, ParseFrom(rest, false))
  {
    if text == Quoted(field) {
      var inner := Doubled(field) + ([QUOTE] + rest);
      FrontOf([QUOTE] + Doubled(field), [QUOTE], rest);
      FrontOf([QUOTE], Doubled(field), [QUOTE] + rest);
      assert text + rest == [QUOTE] + inner && (text + rest)[1..] == inner;
      DoubledReadsBack(field, rest);
    } else {
      PlainReadsBack(field, rest);
    }
  }

  lemma OntoField(field: string, fields: seq<string>)
    ensures Onto(field, Some([""] + fields)) == Some([field] + fields)
  {
    assert ([""] + fields)[1..] == fields && field + "" == field;
    assert [] + [field] + fields == [field] + fields;
  }

  lemma LastField(text: string, field: string)
    requires Encodes(text, field)
    ensures ParseRow(text) == Some([field])
  {
    assert text + "" == text && [""] + [] == [""] && [field] + [] == [field];
    FieldReadsBack(text, field, "");
    OntoField(field, []);
  }

  lemma FieldThenRow(text: string, field: string, line: string, fields: seq<string>)
    requires Encodes(text, field) && ParseRow(line) == Some(fields)
    ensures ParseRow(text + "," + line) == Some([field] + fields)
  {
    var rest := "," + line;
    assert rest[0] == ',' && rest[1..] == line;
    FrontOf(text, ",", line);
    FieldReadsBack(text, field, rest);
    OntoField(field, fields);
  }

  /** Whichever fields are quoted, a written row reads back as the same fields. */
  lemma {:induction false} RowRoundTrip(texts: seq<string>, fields: seq<string>)
    requires EncodeEach(texts, fields) && fields != []
    ensures ParseRow(Joined(texts)) == Some(fields)
  {
    if |texts| == 1 {
      LastField(texts[0], fields[0]);
      assert fields == [fields[0]];
    } else {
      RowRoundTrip(texts[1..], fields[1..]);
      FieldThenRow(texts[0], fields[0], Joined(texts[1..]), fields[1..]);
      assert fields == [fields[0]] + fields[1..];
    }
  }

  /** A row without quotes is cut at its commas and nowhere else. */
  lemma {:induction false} PlainRowsAreSplit(line: string)
    requires Free(line, QUOTE)
    ensures ParseRow(line).Some?
    ensures var fields := ParseRow(line).value; (forall f :: f in fields ==> Plain(f)) && Joined(fields) == line
  {
    if line != "" {
      PlainRowsAreSplit(line[1..]);
      var rest := ParseRow(line[1..]).value;
      assert line == [line[0]] + line[1..];
      if line[0] == ',' {
        assert ([""] + rest)[1..] == rest;
      } else {
        assert rest == [rest[0]] + rest[1..];
        assert Prepend(line[0], rest)[1..] == rest[1..];
        assert Plain(rest[0]);
        assert Plain([line[0]] + rest[0]);
      }
    }
  }

  // ---------- documents ----------

  /** Where the first newline is, or the length. */
  function LineEnd(text: string, from: nat): (i: nat)
    requires from <= |text|
    ensures from <= i <= |text| && (i < |text| ==> text[i] == '\n')
    ensures forall k :: from <= k < i ==> text[k] != '\n'
    decreases |text| - from
  {
    if from == |text| || text[from] == '\n' then from else LineEnd(text, from + 1)
  }

  function WithoutReturn(line: string): string {
    if line != "" && line[|line| - 1] == '\r' then line[..|line| - 1] else line
  }

  /** Lines end with a line feed, or with a carriage return and a line feed. */
  function SplitLines(text: string): seq<string>
    decreases |text|
  {
    var end := LineEnd(text, 0);
    if end == |text| then [text] else [WithoutReturn(text[..end])] + SplitLines(text[end + 1..])
  }

  function NotBlank(lines: seq<string>): seq<string> {
    if lines == [] then []
    else if Trim(lines[0]) == "" then NotBlank(lines[1..])
    else [lines[0]] + NotBlank(lines[1..])
  }

  function TrimEach(values: seq<string>): (r: seq<string>)
    ensures |r| == |values| && forall i :: 0 <= i < |r| ==> r[i] == Trim(values[i])
  {
    seq(|values|, i requires 0 <= i < |values| => Trim(values[i]))
  }

  /** Later columns of the same name win. */
  function RecordOf(headers: seq<string>, values: seq<string>): map<string, string>
    requires |headers| == |values|
  {
    if headers == [] then map[]
    else
      var last := |headers| - 1;
      RecordOf(headers[..last], values[..last])[headers[last] := values[last]]
  }

  datatype CsvError = TooShort | Unterminated(row: nat) | WrongCount(line: nat)

  function ParseRows(headers: seq<string>, lines: seq<string>): Result<seq<map<string, string>>, CsvError> {
    if lines == [] then Ok([])
    else
      var last := |lines| - 1;
      match ParseRows(headers, lines[..last])
      case Err(e) => Err(e)
      case Ok(records) =>
        match ParseRow(lines[last])
        case None => Err(Unterminated(last + 1))
        case Some(values) => if |values| != |headers| then Err(WrongCount(last + 2)) else Ok(records + [RecordOf(headers, values)])
  }

  function ParseLines(lines: seq<string>): Result<seq<map<string, string>>, CsvError> {
    if |lines| < 2 then Err(TooShort)
    else match ParseRow(lines[0])
         case None => Err(Unterminated(0))
         case Some(headers) => ParseRows(TrimEach(headers), lines[1..])
  }

  function ParseCsv(contents: string): Result<seq<map<string, string>>, CsvError> {
    ParseLines(NotBlank(SplitLines(contents)))
  }

  predicate IsLineBreak(s: string) {
    s == "\n" || s == "\r\n"
  }

  predicate IsLine(s: string) {
    Trim(s) != "" && Free(s, '\n') && s[|s| - 1] != '\r'
  }

  /** Each line with the break after it; the last break may be left out. */
  function Document(lines: seq<string>, breaks: seq<string>): string
    requires |breaks| == |lines|
  {
    if lines == [] then "" else lines[0] + breaks[0] + Document(lines[1..], breaks[1..])
  }

  ghost predicate WellBroken(lines: seq<string>, breaks: seq<string>) {
    && |breaks| == |lines|
    && (forall i :: 0 <= i < |lines| ==> IsLine(lines[i]))
    && forall i :: 0 <= i < |breaks| ==> IsLineBreak(breaks[i]) || (i == |breaks| - 1 && breaks[i] == "")
  }

  lemma FirstLine(line: string, lineBreak: string, rest: string)
    requires IsLine(line) && IsLineBreak(lineBreak)
    ensures SplitLines(line + lineBreak + rest) == [line] + SplitLines(rest)
  {
    var text := line + lineBreak + rest;
    var end := LineEnd(text, 0);
    assert text[|line| + |lineBreak| - 1] == '\n';
    assert forall k :: 0 <= k < |line| ==> text[k] == line[k];
    assert end == |line| + |lineBreak| - 1;
    assert text[end + 1..] == rest;
    if lineBreak == "\n" {
      assert text[..end] == line;
    } else {
      assert text[..end] == line + "\r";
    }
  }

  lemma FirstIsKeptExactly(line: string, rest: seq<string>)
    ensures NotBlank([line] + rest) == (if Trim(line) == "" then [] else [line]) + NotBlank(rest)
  {
    assert ([line] + rest)[1..] == rest;
  }

  lemma {:induction false} LinesReadBack(lines: seq<string>, breaks: seq<string>)
    requires WellBroken(lines, breaks)
    ensures NotBlank(SplitLines(Document(lines, breaks))) == lines
  {
    if lines != [] {
      if breaks[0] == "" {
        assert lines == [lines[0]] && Document(lines, breaks) == lines[0];
        assert LineEnd(lines[0], 0) == |lines[0]|;
      } else {
        LinesReadBack(lines[1..], breaks[1..]);
        var rest := Document(lines[1..], breaks[1..]);
        FirstLine(lines[0], breaks[0], rest);
        FirstIsKeptExactly(lines[0], SplitLines(rest));
        assert lines == [lines[0]] + lines[1..];
      }
    }
  }

  ghost predicate RowsEncode(lines: seq<string>, rows: seq<seq<string>>, columns: nat) {
    |lines| == |rows| && forall i :: 0 <= i < |rows| ==> |rows[i]| == columns && ParseRow(lines[i]) == Some(rows[i])
  }

  lemma {:induction false} RowsReadBack(headers: seq<string>, lines: seq<string>, rows: seq<seq<string>>)
    requires RowsEncode(lines, rows, |headers|)
    ensures var r := ParseRows(headers, lines);
            r.Ok? && |r.value| == |rows| && forall i :: 0 <= i < |rows| ==> r.value[i] == RecordOf(headers, rows[i])
  {
    if lines != [] {
      RowsReadBack(headers, lines[..|lines| - 1], rows[..|rows| - 1]);
    }
  }

  /** A document of a header and rows, however quoted and broken into lines, reads back as its records. */
  lemma DocumentRoundTrip(headers: seq<string>, rows: seq<seq<string>>, lines: seq<string>, breaks: seq<string>)
    requires WellBroken(lines, breaks) && rows != [] && |lines| == |rows| + 1
    requires ParseRow(lines[0]) == Some(headers) && RowsEncode(lines[1..], rows, |headers|)
    ensures var r := ParseCsv(Document(lines, breaks));
            r.Ok? && |r.value| == |rows| && forall i :: 0 <= i < |rows| ==> r.value[i] == RecordOf(TrimEach(headers), rows[i])
  {
    LinesReadBack(lines, breaks);
    RowsReadBack(TrimEach(headers), lines[1..], rows);
  }

  // ---------- lines, blank ones included ----------

  function JoinedLines(lines: seq<string>): string {
    if lines == [] then "" else if |lines| == 1 then lines[0] else lines[0] + "\n" + JoinedLines(lines[1..])
  }

  lemma JoinedFirst(line: string, lines: seq<string>)
    requires lines != []
    ensures JoinedLines([line] + lines) == line + "\n" + JoinedLines(lines)
  {
    assert ([line] + lines)[1..] == lines;
  }

  lemma CutAt(text: string, end: nat, c: char)
    requires end < |text|
    ensures text == text[..end] + [text[end]] + text[end + 1..]
    ensures Free(text, c) ==> Free(text[..end], c) && Free(text[end + 1..], c)
  {
    assert forall k :: 0 <= k < end ==> text[..end][k] == text[k];
    assert forall k :: end < k < |text| ==> text[end + 1..][k - end - 1] == text[k];
  }

  lemma NothingToStrip(line: string)
    requires Free(line, '\r')
    ensures WithoutReturn(line) == line
  {
  }

  lemma BeforeTheBreak(text: string, end: nat)
    requires end == LineEnd(text, 0)
    ensures Free(text[..end], '\n')
  {
  }

  lemma FirstLineIsCut(text: string, end: nat)
    requires end == LineEnd(text, 0) < |text| && WithoutReturn(text[..end]) == text[..end]
    ensures SplitLines(text) == [text[..end]] + SplitLines(text[end + 1..])
  {
  }

  /** Text is cut at its line feeds and nowhere else. */
  lemma {:induction false} TextIsCutAtLineFeeds(text: string)
    requires Free(text, '\r')
    ensures SplitLines(text) != [] && JoinedLines(SplitLines(text)) == text
    ensures forall line :: line in SplitLines(text) ==> Free(line, '\n')
    decreases |text|
  {
    var end := LineEnd(text, 0);
    BeforeTheBreak(text, end);
    if end < |text| {
      CutAt(text, end, '\r');
      NothingToStrip(text[..end]);
      FirstLineIsCut(text, end);
      TextIsCutAtLineFeeds(text[end + 1..]);
      JoinedFirst(text[..end], SplitLines(text[end + 1..]));
    }
  }

  lemma {:induction false} KeptApart(a: seq<string>, b: seq<string>)
    ensures NotBlank(a + b) == NotBlank(a) + NotBlank(b)
  {
    if a == [] {
      assert a + b == b;
    } else {
      var (first, rest) := (a[0], a[1..]);
      assert a == [first] + rest;
      KeptApart(rest, b);
      PutTogether(first, rest, b);
    }
  }

  lemma PutTogether(first: string, rest: seq<string>, b: seq<string>)
    requires NotBlank(rest + b) == NotBlank(rest) + NotBlank(b)
    ensures NotBlank([first] + rest + b) == NotBlank([first] + rest) + NotBlank(b)
  {
    assert [first] + rest + b == [first] + (rest + b);
    FirstIsKeptExactly(first, rest + b);
    FirstIsKeptExactly(first, rest);
  }

  /** A line is kept exactly when it is not blank, and the order stays. */
  lemma BlankLinesAreSkipped(before: seq<string>, line: string, after: seq<string>)
    ensures NotBlank(before + [line] + after) == NotBlank(before) + (if Trim(line) == "" then [] else [line]) + NotBlank(after)
  {
    KeptApart(before + [line], after);
    KeptApart(before, [line]);
    FirstIsKeptExactly(line, []);
    assert [line] + [] == [line];
  }

  // ---------- which documents are refused ----------

  /** The row does not have this many fields: its quotes do not pair up, or the commas outside them are too few or too many. */
  predicate Misshapen(line: string, columns: nat) {
    Quotes(line) % 2 == 1 || 1 + Separators(line) != columns
  }

  lemma {:induction false} RowsAreRefusedExactly(headers: seq<string>, lines: seq<string>)
    ensures ParseRows(headers, lines).Ok? <==> forall i :: 0 <= i < |lines| ==> !Misshapen(lines[i], |headers|)
    ensures ParseRows(headers, lines).Ok? ==>
              && |ParseRows(headers, lines).value| == |lines|
              && forall i :: 0 <= i < |lines| ==>
                   ParseRow(lines[i]).Some? && |ParseRow(lines[i]).value| == |headers|
                   && ParseRows(headers, lines).value[i] == RecordOf(headers, ParseRow(lines[i]).value)
    ensures forall i :: 0 <= i < |lines| && Misshapen(lines[i], |headers|)
                        && (forall k :: 0 <= k < i ==> !Misshapen(lines[k], |headers|)) ==>
              ParseRows(headers, lines) == Err(if Quotes(lines[i]) % 2 == 1 then Unterminated(i + 1) else WrongCount(i + 2))
  {
    if lines != [] {
      var last := |lines| - 1;
      RowsAreRefusedExactly(headers, lines[..last]);
      assert forall i :: 0 <= i < last ==> lines[..last][i] == lines[i];
      RowShape(lines[last]);
    }
  }

  lemma RowsOfLines(lines: seq<string>, columns: nat, first: nat)
    requires lines != []
    ensures (forall i :: 0 <= i < |lines[1..]| ==> !Misshapen(lines[1..][i], columns))
            <==> (forall i :: 1 <= i < |lines| ==> !Misshapen(lines[i], columns))
    ensures 1 <= first < |lines| ==>
              && lines[1..][first - 1] == lines[first]
              && ((forall i :: 0 <= i < first - 1 ==> !Misshapen(lines[1..][i], columns))
                  <==> (forall i :: 1 <= i < first ==> !Misshapen(lines[i], columns)))
  {
    assert forall i :: 1 <= i < |lines| ==> lines[i] == lines[1..][i - 1];
  }

  /**
   Lines that are not blank make no records when there are fewer than two, when the quotes of the
   first, the header, do not pair up, and otherwise for the first row that has not as many fields.
   */
  lemma DocumentsAreRefusedExactly(lines: seq<string>, first: nat)
    ensures var r := ParseLines(lines);
            if |lines| < 2 then r == Err(TooShort)
            else if Quotes(lines[0]) % 2 == 1 then r == Err(Unterminated(0))
            else
              var columns := 1 + Separators(lines[0]);
              && (r.Ok? <==> forall i :: 1 <= i < |lines| ==> !Misshapen(lines[i], columns))
              && (1 <= first < |lines| && Misshapen(lines[first], columns)
                  && (forall i :: 1 <= i < first ==> !Misshapen(lines[i], columns)) ==>
                    r == Err(if Quotes(lines[first]) % 2 == 1 then Unterminated(first) else WrongCount(first + 1)))
  {
    if |lines| >= 2 {
      RowShape(lines[0]);
      if Quotes(lines[0]) % 2 == 0 {
        RowsAreRefusedExactly(TrimEach(ParseRow(lines[0]).value), lines[1..]);
        RowsOfLines(lines, 1 + Separators(lines[0]), first);
      }
    }
  }

  lemma {:induction false} RecordNames(headers: seq<string>, values: seq<string>)
    requires |headers| == |values|
    ensures forall key :: key in RecordOf(headers, values) <==> key in headers
  {
    if headers != [] {
      var last := |headers| - 1;
      RecordNames(headers[..last], values[..last]);
      assert headers == headers[..last] + [headers[last]];
    }
  }

  /** A record holds under each header the field of the last column that has it, and nothing else. */
  lemma {:induction false} RecordHolds(headers: seq<string>, values: seq<string>, i: nat)
    requires |headers| == |values| && i < |headers|
    requires forall k :: i < k < |headers| ==> headers[k] != headers[i]
    ensures headers[i] in RecordOf(headers, values) && RecordOf(headers, values)[headers[i]] == values[i]
    ensures forall key :: key in RecordOf(headers, values) <==> key in headers
  {
    var last := |headers| - 1;
    RecordNames(headers, values);
    if i < last {
      RecordHolds(headers[..last], values[..last], i);
    }
  }

  /** A quoted row is never mistaken for a blank line or split, unless a field holds a line feed. */
  lemma QuotedRowsAreLines(texts: seq<string>, fields: seq<string>)
    requires |texts| == |fields| && fields != []
    requires forall i :: 0 <= i < |texts| ==> texts[i] == Quoted(fields[i]) && Free(fields[i], '\n')
    ensures IsLine(Joined(texts))
  {
    QuotedRowEnds(texts, fields);
    TrimKeeps(Joined(texts), QUOTE);
  }

  lemma TrimKeeps(s: string, c: char)
    requires s != "" && s[0] == c && s[|s| - 1] == c && !IsSpace(c)
    ensures Trim(s) == s
  {
  }

  lemma {:induction false} DoublingAddsNoLines(field: string)
    requires Free(field, '\n')
    ensures Free(Doubled(field), '\n')
  {
    if field != "" {
      DoublingAddsNoLines(field[1..]);
    }
  }

  lemma {:induction false} QuotedRowEnds(texts: seq<string>, fields: seq<string>)
    requires |texts| == |fields| && fields != []
    requires forall i :: 0 <= i < |texts| ==> texts[i] == Quoted(fields[i]) && Free(fields[i], '\n')
    ensures var s := Joined(texts); s != "" && s[0] == QUOTE && s[|s| - 1] == QUOTE && Free(s, '\n')
  {
    DoublingAddsNoLines(fields[0]);
    if |texts| > 1 {
      QuotedRowEnds(texts[1..], fields[1..]);
    }
  }

  // ---------- documents of quoted rows ----------

  function QuoteEach(fields: seq<string>): (texts: seq<string>)
    ensures |texts| == |fields| && forall i :: 0 <= i < |fields| ==> texts[i] == Quoted(fields[i])
  {
    seq(|fields|, i requires 0 <= i < |fields| => Quoted(fields[i]))
  }

  /** A row with every field between quotes. */
  function WriteRow(fields: seq<string>): string {
    if fields == [] then "" else Joined(QuoteEach(fields))
  }

  function WriteRows(rows: seq<seq<string>>): (lines: seq<string>)
    ensures |lines| == |rows| && forall i :: 0 <= i < |rows| ==> lines[i] == WriteRow(rows[i])
  {
    seq(|rows|, i requires 0 <= i < |rows| => WriteRow(rows[i]))
  }

  ghost predicate HoldsNoBreaks(fields: seq<string>) {
    forall i :: 0 <= i < |fields| ==> Free(fields[i], '\n')
  }

  lemma WrittenRowReadsBack(fields: seq<string>)
    requires fields != [] && HoldsNoBreaks(fields)
    ensures IsLine(WriteRow(fields)) && ParseRow(WriteRow(fields)) == Some(fields)
  {
    QuotedRowsAreLines(QuoteEach(fields), fields);
    RowRoundTrip(QuoteEach(fields), fields);
  }

  lemma RowsAreWritten(rows: seq<seq<string>>)
    requires forall i :: 0 <= i < |rows| ==> rows[i] != [] && HoldsNoBreaks(rows[i])
    ensures forall i :: 0 <= i < |rows| ==> IsLine(WriteRows(rows)[i]) && ParseRow(WriteRows(rows)[i]) == Some(rows[i])
  {
    forall i | 0 <= i < |rows| ensures IsLine(WriteRows(rows)[i]) && ParseRow(WriteRows(rows)[i]) == Some(rows[i]) {
      WrittenRowReadsBack(rows[i]);
    }
  }

  lemma RowsAfterTheFirst(first: seq<string>, rows: seq<seq<string>>, lines: seq<string>)
    requires |lines| == |rows| + 1 && forall i :: 0 <= i < |lines| ==> ParseRow(lines[i]) == Some(([first] + rows)[i])
    requires forall i :: 0 <= i < |rows| ==> |rows[i]| == |first|
    ensures ParseRow(lines[0]) == Some(first) && RowsEncode(lines[1..], rows, |first|)
  {
    forall i | 0 <= i < |rows| ensures ParseRow(lines[1..][i]) == Some(rows[i]) {
      assert lines[1..][i] == lines[i + 1] && ([first] + rows)[i + 1] == rows[i];
    }
  }

  /**
   Any table whose fields hold no line feed can be written: with every field quoted and either
   line break, it reads back as its records, whatever quotes, commas and blanks the fields hold.
   */
  lemma QuotedDocumentRoundTrip(headers: seq<string>, rows: seq<seq<string>>, breaks: seq<string>)
    requires headers != [] && rows != [] && |breaks| == |rows| + 1
    requires forall i :: 0 <= i < |breaks| ==> IsLineBreak(breaks[i]) || (i == |breaks| - 1 && breaks[i] == "")
    requires HoldsNoBreaks(headers) && forall i :: 0 <= i < |rows| ==> |rows[i]| == |headers| && HoldsNoBreaks(rows[i])
    ensures var r := ParseCsv(Document(WriteRows([headers] + rows), breaks));
            r.Ok? && |r.value| == |rows| && forall i :: 0 <= i < |rows| ==> r.value[i] == RecordOf(TrimEach(headers), rows[i])
  {
    var (all, lines) := ([headers] + rows, WriteRows([headers] + rows));
    assert forall i :: 0 <= i < |all| ==> all[i] == if i == 0 then headers else rows[i - 1];
    RowsAreWritten(all);
    RowsAfterTheFirst(headers, rows, lines);
    DocumentRoundTrip(headers, rows, lines, breaks);
  }
}
