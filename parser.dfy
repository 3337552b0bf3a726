/**
 * The spreadsheet parser, from the row records of the first sheet onwards.
 * Decoding the workbook bytes and turning the sheet into records belong to
 * the spreadsheet library; the model takes their output as its input.
 */
module Parser {
  import opened Wrappers
  import opened Types
  import Text

  /** A cell value as the sheet-to-records conversion yields it. */
  datatype Cell = Null | Str(s: string) | Num(x: real) | Bool(b: bool)

  /** One data row: column header to cell; an empty cell has no key. */
  type Row = map<string, Cell>

  /** What the spreadsheet library hands over: the sheet names and the first sheet's records. */
  datatype Workbook = Workbook(sheetNames: seq<string>, firstSheetRows: seq<Row>)

  /** How a single row fares; only `Emitted` rows reach the output. */
  datatype RowOutcome = Emitted(q: Question) | MissingField | InvalidAnswer(letter: Option<string>)

  const RequiredHeaders: seq<string> :=
    ["Q#", "Question Text", "Option A", "Option B", "Option C", "Option D", "Correct Answer"]

  const OptionHeaders: seq<string> := ["Option A", "Option B", "Option C", "Option D"]

  const NoSheetsMessage: string := "The Excel file contains no sheets."
  const NoRowsMessage: string := "The Excel file is empty or has no data rows."
  const HeadersMessage: string :=
    "Excel file must contain the following headers: " + Text.Join(RequiredHeaders, ", ")

  /** `row[key]`, `None` standing for `undefined`. */
  function Lookup(row: Row, key: string): Option<Cell>
  {
    if key in row then Some(row[key]) else None
  }

  /** JavaScript truthiness of a looked-up cell. */
  predicate Truthy(c: Option<Cell>)
  {
    match c
    case None => false
    case Some(Null) => false
    case Some(Str(s)) => s != ""
    case Some(Num(x)) => x != 0.0
    case Some(Bool(b)) => b
  }

  /** `opt === undefined || opt === null`. */
  predicate Absent(c: Option<Cell>)
  {
    c.None? || c.value.Null?
  }

  /** `String(cell)`; `numberText` is the host's conversion of a number to its shortest decimal form. */
  function CellText(c: Cell, numberText: real -> string): string
  {
    match c
    case Null => "null"
    case Str(s) => s
    case Num(x) => numberText(x)
    case Bool(b) => if b then "true" else "false"
  }

  /** `row['Correct Answer']?.toString().trim().toUpperCase()`. */
  function AnswerLetter(row: Row, numberText: real -> string): Option<string>
  {
    var c := Lookup(row, "Correct Answer");
    if Absent(c) then None else Some(Text.ToUpper(Text.Trim(CellText(c.value, numberText))))
  }

  /** The `switch` on the letter. */
  function LetterIndex(letter: Option<string>): (k: Option<nat>)
    ensures k.Some? ==> k.value < 4
  {
    match letter
    case Some("A") => Some(0)
    case Some("B") => Some(1)
    case Some("C") => Some(2)
    case Some("D") => Some(3)
    case _ => None
  }

  /** The first check of the callback: falsy question text or an option that is `undefined`/`null`. */
  predicate MissingFields(row: Row)
  {
    || !Truthy(Lookup(row, "Question Text"))
    || Absent(Lookup(row, "Option A")) || Absent(Lookup(row, "Option B"))
    || Absent(Lookup(row, "Option C")) || Absent(Lookup(row, "Option D"))
  }

  /** The record the callback returns for a row that passed both checks. */
  function BuildQuestion(row: Row, k: nat, numberText: real -> string): (q: Question)
    requires !MissingFields(row) && k < 4
    ensures Typed(q)
  {
    var q := Question(
      CellText(row["Question Text"], numberText),
      [JStr(CellText(row["Option A"], numberText)), JStr(CellText(row["Option B"], numberText)),
       JStr(CellText(row["Option C"], numberText)), JStr(CellText(row["Option D"], numberText))],
      k as real);
    assert (k as real).Floor == k;
    q
  }

  /** The callback the rows are mapped through; whatever it emits is a well-typed question. */
  function DecodeRow(row: Row, numberText: real -> string): (out: RowOutcome)
    ensures out.Emitted? ==> Typed(out.q)
  {
    if MissingFields(row) then MissingField
    else
      var letter := AnswerLetter(row, numberText);
      match LetterIndex(letter)
      case None => InvalidAnswer(letter)
      case Some(k) => Emitted(BuildQuestion(row, k, numberText))
  }

  /** The `filter` that keeps the emitted questions; everything it returns was emitted. */
  function Collect(outs: seq<RowOutcome>): (qs: seq<Question>)
    ensures |qs| <= |outs|
    ensures forall k :: 0 <= k < |qs| ==> Emitted(qs[k]) in outs
  {
    if outs == [] then []
    else
      var front := Collect(outs[..|outs| - 1]);
      assert forall o :: o in outs[..|outs| - 1] ==> o in outs;
      match outs[|outs| - 1]
      case Emitted(q) => front + [q]
      case _ => front
  }

  /** The rows' outcomes, one per row in order (the `map`). */
  function Outcomes(rows: seq<Row>, numberText: real -> string): (outs: seq<RowOutcome>)
    ensures |outs| == |rows|
    ensures forall i :: 0 <= i < |rows| ==> outs[i] == DecodeRow(rows[i], numberText)
  {
    seq(|rows|, i requires 0 <= i < |rows| => DecodeRow(rows[i], numberText))
  }

  /** The `map` over the rows followed by the `filter` that drops the skipped ones. */
  function DecodeRows(rows: seq<Row>, numberText: real -> string): (qs: seq<Question>)
    ensures |qs| <= |rows|
    ensures forall i :: 0 <= i < |qs| ==> Typed(qs[i])
  {
    var outs := Outcomes(rows, numberText);
    var qs := Collect(outs);
    assert forall k :: 0 <= k < |qs| ==> exists i :: 0 <= i < |rows| && outs[i] == Emitted(qs[k]);
    qs
  }

  /** `parseExcel`, from the library's output to the question list or the thrown message. */
  function ParseExcel(wb: Workbook, numberText: real -> string): (r: Result<seq<Question>, string>)
    ensures r.Err? ==> r.error in {NoSheetsMessage, NoRowsMessage, HeadersMessage}
    ensures r.Ok? ==> |r.value| <= |wb.firstSheetRows| && forall i :: 0 <= i < |r.value| ==> Typed(r.value[i])
  {
    if wb.sheetNames == [] || wb.sheetNames[0] == "" then Err(NoSheetsMessage)
    else if wb.firstSheetRows == [] then Err(NoRowsMessage)
    else if exists h :: h in RequiredHeaders && h !in wb.firstSheetRows[0] then Err(HeadersMessage)
    else Ok(DecodeRows(wb.firstSheetRows, numberText))
  }

  // ---------------------------------------------------------------------------
  // Properties of a single row

  /** The letter decoding: exactly `A`..`D`, as the trimmed upper-cased text, give 0..3. */
  lemma LetterIndexExact(letter: Option<string>, k: nat)
    ensures LetterIndex(letter) == Some(k) <==> k < 4 && letter == Some(["ABCD"[k]])
  {
  }

  // A row's fate: the missing-field check comes first, so a row with falsy
  // text or an absent option is skipped whatever its answer letter; a
  // complete row is skipped exactly when its letter is not one of A..D, and
  // otherwise yields the question built from its stringified cells.

  /** A row is skipped for a missing field exactly when its text is falsy or one of its options is absent. */
  lemma DecodeRowMissing(row: Row, numberText: real -> string)
    ensures DecodeRow(row, numberText).MissingField? <==>
      (|| !Truthy(Lookup(row, "Question Text"))
       || exists h :: h in OptionHeaders && Absent(Lookup(row, h)))
  {
    if exists h :: h in OptionHeaders && Absent(Lookup(row, h)) {
      var h :| h in OptionHeaders && Absent(Lookup(row, h));
      assert h == OptionHeaders[0] || h == OptionHeaders[1] || h == OptionHeaders[2] || h == OptionHeaders[3];
    }
  }

  /** A complete row is skipped for its answer exactly when the letter is not one of `A`..`D`, and reports that letter. */
  lemma DecodeRowInvalid(row: Row, numberText: real -> string)
    requires !MissingFields(row)
    ensures DecodeRow(row, numberText).InvalidAnswer? <==> LetterIndex(AnswerLetter(row, numberText)).None?
    ensures DecodeRow(row, numberText).InvalidAnswer? ==> DecodeRow(row, numberText).letter == AnswerLetter(row, numberText)
  {
  }

  /** The record built for a complete row holds the stringified cells in column order. */
  lemma BuildQuestionColumns(row: Row, k: nat, numberText: real -> string)
    requires !MissingFields(row) && k < 4
    ensures var q := BuildQuestion(row, k, numberText);
      && q.question == CellText(row["Question Text"], numberText)
      && |q.options| == 4
      && (forall i :: 0 <= i < 4 ==> q.options[i] == JStr(CellText(row[OptionHeaders[i]], numberText)))
      && q.correctAnswerIndex == k as real
  {
  }

  /** A complete row whose letter decodes to `k` is emitted as the record built with answer `k`. */
  lemma DecodeRowBuilds(row: Row, k: nat, numberText: real -> string)
    requires !MissingFields(row) && LetterIndex(AnswerLetter(row, numberText)) == Some(k)
    ensures DecodeRow(row, numberText) == Emitted(BuildQuestion(row, k, numberText))
  {
  }

  /** The six columns the callback reads; `Q#` is not among them. */
  const ReadColumns: seq<string> := RequiredHeaders[1..]

  /** A row's outcome depends on the six read columns only. */
  lemma DecodeRowReadsOnly(row: Row, other: Row, numberText: real -> string)
    requires forall h :: h in ReadColumns ==> Lookup(row, h) == Lookup(other, h)
    ensures DecodeRow(row, numberText) == DecodeRow(other, numberText)
  {
    assert ReadColumns == ["Question Text", "Option A", "Option B", "Option C", "Option D", "Correct Answer"];
    assert Lookup(row, "Correct Answer") == Lookup(other, "Correct Answer");
    assert AnswerLetter(row, numberText) == AnswerLetter(other, numberText);
    assert MissingFields(row) == MissingFields(other);
  }

  /** The `Q#` cell of a row is never read: changing or removing it changes nothing. */
  lemma QNumberNeverRead(row: Row, v: Cell, numberText: real -> string)
    ensures DecodeRow(row["Q#" := v], numberText) == DecodeRow(row, numberText)
    ensures DecodeRow(row - {"Q#"}, numberText) == DecodeRow(row, numberText)
  {
    assert "Q#" !in ReadColumns;
    DecodeRowReadsOnly(row["Q#" := v], row, numberText);
    DecodeRowReadsOnly(row - {"Q#"}, row, numberText);
  }

  lemma NormaliseSingle(c: char)
    requires !Text.IsWhitespace(c)
    ensures Text.ToUpper(Text.Trim([c])) == [Text.UpperChar(c)]
  {
    assert Text.TrimStart([c]) == [c];
    assert Text.TrimEnd([c]) == [c];
  }

  /** A one-character answer `s` that is not white space normalises to that character upper-cased. */
  lemma NormaliseLetter(c: char, s: string)
    requires s == [c] && !Text.IsWhitespace(c)
    ensures Text.ToUpper(Text.Trim(s)) == [Text.UpperChar(c)]
  {
    NormaliseSingle(c);
  }

  lemma NormalisePadded()
    ensures Text.ToUpper(Text.Trim(" B ")) == "B"
  {
    assert " B "[1..] == "B ";
    assert Text.TrimStart(" B ") == "B ";
    assert "B "[..1] == "B";
    assert Text.TrimEnd("B ") == "B";
    NormaliseSingle('B');
  }

  /** Case and surrounding white space do not matter: "a" and " B " decode to 0 and 1. */
  lemma AnswerLetterNormalised()
    ensures LetterIndex(Some(Text.ToUpper(Text.Trim("a")))) == Some(0)
    ensures LetterIndex(Some(Text.ToUpper(Text.Trim(" B ")))) == Some(1)
  {
    NormaliseLetter('a', "a");
    NormalisePadded();
  }

  /** A lower-case letter is upper-cased first: "c" decodes to 2. */
  lemma AnswerLetterLowerCase()
    ensures LetterIndex(Some(Text.ToUpper(Text.Trim("c")))) == Some(2)
  {
    NormaliseLetter('c', "c");
  }

  /** An upper-case letter is kept: "D" decodes to 3. */
  lemma AnswerLetterUpperCase()
    ensures LetterIndex(Some(Text.ToUpper(Text.Trim("D")))) == Some(3)
  {
    NormaliseLetter('D', "D");
  }

  /** "E" and the empty string name no option and are rejected. */
  lemma AnswerLetterRejected()
    ensures LetterIndex(Some(Text.ToUpper(Text.Trim("E")))) == None
    ensures LetterIndex(Some(Text.ToUpper(Text.Trim("")))) == None
  {
    NormaliseLetter('E', "E");
  }

  /** A text cell's answer letter is its trimmed, upper-cased text; an absent cell has none. */
  lemma AnswerLetterOfText(row: Row, s: string, numberText: real -> string)
    ensures AnswerLetter(row["Correct Answer" := Str(s)], numberText) == Some(Text.ToUpper(Text.Trim(s)))
    ensures AnswerLetter(row - {"Correct Answer"}, numberText) == None
  {
  }

  // ---------------------------------------------------------------------------
  // Properties of the whole parse

  /** The positions of the emitted outcomes, in increasing order. */
  function Survivors(outs: seq<RowOutcome>): seq<nat>
  {
    if outs == [] then []
    else Survivors(outs[..|outs| - 1]) + if outs[|outs| - 1].Emitted? then [|outs| - 1] else []
  }

  /** The k-th collected question is the one emitted at the k-th surviving position. */
  lemma {:induction false} SurvivorsYieldQuestions(outs: seq<RowOutcome>)
    ensures var qs, idx := Collect(outs), Survivors(outs);
      && |idx| == |qs|
      && (forall k :: 0 <= k < |idx| ==> idx[k] < |outs| && outs[idx[k]] == Emitted(qs[k]))
  {
    if outs != [] {
      var front := outs[..|outs| - 1];
      SurvivorsYieldQuestions(front);
      assert forall i :: 0 <= i < |front| ==> outs[i] == front[i];
    }
  }

  /** The surviving positions are listed in increasing order, each a position of `outs`. */
  lemma {:induction false} SurvivorsIncreasing(outs: seq<RowOutcome>)
    ensures var idx := Survivors(outs);
      && (forall k :: 0 <= k < |idx| ==> idx[k] < |outs|)
      && (forall k, l :: 0 <= k < l < |idx| ==> idx[k] < idx[l])
  {
    if outs != [] {
      var front := outs[..|outs| - 1];
      SurvivorsIncreasing(front);
      var last: seq<nat> := if outs[|outs| - 1].Emitted? then [|outs| - 1] else [];
      assert Survivors(outs) == Survivors(front) + last;
    }
  }

  /** A position survives exactly when its outcome is emitted. */
  lemma {:induction false} SurvivorsComplete(outs: seq<RowOutcome>)
    ensures forall i :: 0 <= i < |outs| ==> (outs[i].Emitted? <==> i in Survivors(outs))
  {
    if outs != [] {
      var front := outs[..|outs| - 1];
      SurvivorsComplete(front);
      SurvivorsIncreasing(front);
      var last: seq<nat> := if outs[|outs| - 1].Emitted? then [|outs| - 1] else [];
      assert Survivors(outs) == Survivors(front) + last;
      forall i | 0 <= i < |outs|
        ensures outs[i].Emitted? <==> i in Survivors(outs)
      {
        if i < |front| {
          assert outs[i] == front[i];
          assert i in Survivors(front) <==> front[i].Emitted?;
        } else {
          assert i !in Survivors(front);
        }
      }
    }
  }

  /** The indices of the rows that survive, in increasing order. */
  function SurvivingRows(rows: seq<Row>, numberText: real -> string): seq<nat>
  {
    Survivors(Outcomes(rows, numberText))
  }

  /**
   * The output is the in-order subsequence of the rows that decode: the k-th
   * question comes from the k-th surviving row, the surviving rows are in
   * increasing order, and a row survives exactly when it decodes.
   */
  lemma DecodeRowsSelectsInOrder(rows: seq<Row>, numberText: real -> string)
    ensures var qs, idx := DecodeRows(rows, numberText), SurvivingRows(rows, numberText);
      && |idx| == |qs|
      && (forall k :: 0 <= k < |idx| ==> idx[k] < |rows| && DecodeRow(rows[idx[k]], numberText) == Emitted(qs[k]))
      && (forall k, l :: 0 <= k < l < |idx| ==> idx[k] < idx[l])
      && (forall i :: 0 <= i < |rows| ==> (DecodeRow(rows[i], numberText).Emitted? <==> i in idx))
  {
    var outs := Outcomes(rows, numberText);
    SurvivorsYieldQuestions(outs);
    SurvivorsIncreasing(outs);
    SurvivorsComplete(outs);
  }

  /** The headers of the first row, and only they, decide the header check. */
  predicate HasAllHeaders(first: Row)
  {
    forall h :: h in RequiredHeaders ==> h in first
  }

  /**
   * The parse fails exactly on a structural problem, checked in this order:
   * no (named) first sheet, no data rows, a required header missing from the
   * first row. Row-level problems never fail it; a successful parse returns the
   * decoded rows.
   */
  lemma ParseExcelOutcome(wb: Workbook, numberText: real -> string)
    ensures var r := ParseExcel(wb, numberText);
      && (wb.sheetNames == [] || wb.sheetNames[0] == "" ==> r == Err(NoSheetsMessage))
      && (wb.sheetNames != [] && wb.sheetNames[0] != "" && wb.firstSheetRows == [] ==> r == Err(NoRowsMessage))
      && ((wb.sheetNames != [] && wb.sheetNames[0] != "" && wb.firstSheetRows != []
           && !HasAllHeaders(wb.firstSheetRows[0])) ==> r == Err(HeadersMessage))
      && (r.Ok? <==> wb.sheetNames != [] && wb.sheetNames[0] != "" && wb.firstSheetRows != [] && HasAllHeaders(wb.firstSheetRows[0]))
      && (r.Ok? ==> r.value == DecodeRows(wb.firstSheetRows, numberText))
  {
  }

  /**
   * The header check reads the keys of the first data row, and a blank cell
   * has no key: a first row with any required cell blank, `Q#` included,
   * fails the whole parse, although the same row further down would only be
   * skipped (or, for `Q#`, kept).
   */
  lemma FirstRowBlankFailsParse(wb: Workbook, h: string, numberText: real -> string)
    requires wb.sheetNames != [] && wb.sheetNames[0] != "" && wb.firstSheetRows != []
    requires h in RequiredHeaders && h !in wb.firstSheetRows[0]
    ensures ParseExcel(wb, numberText) == Err(HeadersMessage)
  {
  }

  /** The header error names all seven required headers, not only the missing ones. */
  lemma HeadersMessageListsAll(h: string)
    requires h in RequiredHeaders
    ensures Text.Contains(HeadersMessage, h)
  {
    var k :| 0 <= k < |RequiredHeaders| && RequiredHeaders[k] == h;
    Text.JoinContainsEachPart(RequiredHeaders, ", ", k);
    Text.ContainsExtend("Excel file must contain the following headers: ", Text.Join(RequiredHeaders, ", "), h);
  }
}
