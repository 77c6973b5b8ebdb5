/**
 * The spreadsheet-connection front end: reference text read under one
 * `try`, the live history lookup over the reports table, and its own prompt
 * template.
 */
module IndexApp {
  import opened Wrappers
  import opened Text
  import StreamlitApp

  // ---------------------------------------------------------------------
  // Reference text

  /** Column A of a sheet; `None` where the cell is missing. */
  type Column = seq<Option<string>>

  /** `dropna()`: the present cells, in order. */
  function DropNa(col: Column): (r: seq<string>)
    ensures |r| <= |col|
  {
    if col == [] then []
    else (if col[0].Some? then [col[0].value] else []) + DropNa(col[1..])
  }

  /** A text survives `dropna()` exactly when some cell holds it. */
  lemma {:induction false} DropNaMembership(col: Column, x: string)
    ensures x in DropNa(col) <==> Some(x) in col
  {
    if col != [] {
      DropNaMembership(col[1..], x);
      assert col == [col[0]] + col[1..];
    }
  }

  /** `dropna()` distributes over concatenation, so cells keep their order. */
  lemma {:induction false} DropNaAppend(a: Column, b: Column)
    ensures DropNa(a + b) == DropNa(a) + DropNa(b)
  {
    if a != [] {
      assert (a + b)[0] == a[0];
      assert (a + b)[1..] == a[1..] + b;
      DropNaAppend(a[1..], b);
    } else {
      assert a + b == b;
    }
  }

  /** `"\n".join(df.dropna().astype(str).iloc[:, 0].tolist())`. */
  function ColumnText(col: Column): string
  {
    Join(DropNa(col), "\n")
  }

  /**
   * When no present cell holds a newline, the lines of the column text are
   * exactly the present cells, in order.
   */
  lemma ColumnTextLines(col: Column)
    requires DropNa(col) != []
    requires forall k :: 0 <= k < |DropNa(col)| ==> '\n' !in DropNa(col)[k]
    ensures Split(ColumnText(col), '\n') == DropNa(col)
  {
    SplitJoin(DropNa(col), '\n');
  }

  /**
   * Unlike the CSV-export front end, this one neither strips cells nor drops
   * a present cell whose text is `"nan"` (when pandas' missing-value parsing
   * has let such a cell through).
   */
  lemma NanCellKept()
    ensures ColumnText([Some("nan")]) == "nan"
    ensures StreamlitApp.KeepCell(Some("nan")) == []
  {
    assert DropNa([Some("nan")]) == ["nan"];
    StreamlitApp.NanTextDropped();
  }

  /**
   * `load_learning_data`: one `try` covers the connection and all three
   * reads, so a failure anywhere empties all three texts.
   */
  function LoadLearningData(connected: bool, manual: Fetch<Column>, good: Fetch<Column>,
                            bad: Fetch<Column>): (r: StreamlitApp.Corpus)
    ensures !connected || manual.Failed? || good.Failed? || bad.Failed? ==>
              r == StreamlitApp.Corpus("", "", "")
    ensures connected && manual.Fetched? && good.Fetched? && bad.Fetched? ==>
              r.manual == ColumnText(manual.data) && r.good == ColumnText(good.data) &&
              r.bad == ColumnText(bad.data)
  {
    if connected && manual.Fetched? && good.Fetched? && bad.Fetched? then
      StreamlitApp.Corpus(ColumnText(manual.data), ColumnText(good.data), ColumnText(bad.data))
    else
      StreamlitApp.Corpus("", "", "")
  }

  // ---------------------------------------------------------------------
  // History

  datatype DateTime = DateTime(year: int, month: int, day: int)

  /** A `created_at` value as the store hands it over (MySQL DATETIME years are 1000 to 9999). */
  type StoredDate = d: DateTime | 1000 <= d.year <= 9999 && 1 <= d.month <= 12 && 1 <= d.day <= 31
    witness DateTime(1000, 1, 1)

  /** One row of the query: the report text and when it was written. */
  datatype Row = Row(content: string, createdAt: StoredDate)

  function Digit(n: int): (c: char)
    requires 0 <= n <= 9
    ensures '0' <= c <= '9'
  {
    ('0' as int + n) as char
  }

  function DigitValue(c: char): int
  {
    c as int - '0' as int
  }

  predicate IsDigit(c: char)
  {
    '0' <= c <= '9'
  }

  /** Two zero-padded digits. */
  function Pad2(n: int): string
    requires 0 <= n <= 99
  {
    [Digit(n / 10), Digit(n % 10)]
  }

  /** `strftime('%Y-%m-%d')`: four-digit year, two-digit month and day. */
  function FormatDate(d: StoredDate): (r: string)
    ensures |r| == 10 && r[4] == '-' && r[7] == '-'
    ensures forall k :: 0 <= k < 10 && k != 4 && k != 7 ==> IsDigit(r[k])
  {
    Pad2(d.year / 100) + Pad2(d.year % 100) + "-" + Pad2(d.month) + "-" + Pad2(d.day)
  }

  function Num2(s: string): int
    requires |s| == 2
  {
    10 * DigitValue(s[0]) + DigitValue(s[1])
  }

  /** Reads a `YYYY-MM-DD` text back; `None` when the text does not have that shape. */
  function ParseDate(s: string): Option<DateTime>
  {
    if |s| == 10 && s[4] == '-' && s[7] == '-' && forall k :: 0 <= k < 10 && k != 4 && k != 7 ==> IsDigit(s[k])
    then Some(DateTime(100 * Num2(s[0..2]) + Num2(s[2..4]), Num2(s[5..7]), Num2(s[8..10])))
    else None
  }

  lemma Pad2RoundTrip(n: int)
    requires 0 <= n <= 99
    ensures Num2(Pad2(n)) == n
  {
  }

  /** A formatted date reads back as the same date. */
  lemma ParseFormatDate(d: StoredDate)
    ensures ParseDate(FormatDate(d)) == Some(d)
  {
    var s := FormatDate(d);
    assert s[0..2] == Pad2(d.year / 100);
    assert s[2..4] == Pad2(d.year % 100);
    assert s[5..7] == Pad2(d.month);
    assert s[8..10] == Pad2(d.day);
    Pad2RoundTrip(d.year / 100);
    Pad2RoundTrip(d.year % 100);
    Pad2RoundTrip(d.month);
    Pad2RoundTrip(d.day);
  }

  /** Text of the history when there is none. */
  const NoHistory: string := "過去のレポート履歴はありません。"

  const BlockOpen: string := "--- 過去レポート("
  const BlockClose: string := ") ---\n"

  /** One past report: a dated header line, then the report text. */
  function Block(row: Row): string
  {
    BlockOpen + FormatDate(row.createdAt) + BlockClose + row.content
  }

  /** A block gives back its row: the header, the date and the content sit at fixed places. */
  lemma BlockLayout(row: Row)
    ensures var b := Block(row); var n := |BlockOpen|;
            n + 10 + |BlockClose| <= |b| &&
            b[..n] == BlockOpen &&
            ParseDate(b[n..n + 10]) == Some(row.createdAt) &&
            b[n + 10..n + 10 + |BlockClose|] == BlockClose &&
            b[n + 10 + |BlockClose|..] == row.content
  {
    var n := |BlockOpen|;
    var b := Block(row);
    assert b[n..n + 10] == FormatDate(row.createdAt);
    ParseFormatDate(row.createdAt);
  }

  /** The block of every row, in row order. */
  function Blocks(rows: seq<Row>): (r: seq<string>)
    ensures |r| == |rows| && forall i :: 0 <= i < |rows| ==> r[i] == Block(rows[i])
  {
    seq(|rows|, i requires 0 <= i < |rows| => Block(rows[i]))
  }

  /** The blank line between two blocks. */
  const BlockSep: string := "\n\n"

  /** The history text for the rows the query returned. */
  function HistoryText(rows: seq<Row>): string
  {
    if rows == [] then NoHistory else Join(Blocks(rows), BlockSep)
  }

  /**
   * With rows, the history holds one block per row, in row order, each
   * followed by a blank line except the last, and nothing else.
   */
  lemma HistoryLayout(rows: seq<Row>, i: nat)
    requires i < |rows|
    ensures var h, b := HistoryText(rows), Blocks(rows)[i];
            var p := JoinPos(Blocks(rows), BlockSep, i);
            p + |b| <= |h| && h[p..p + |b|] == b &&
            (i + 1 < |rows| ==> p + |b| + |BlockSep| <= |h| && h[p + |b|..p + |b| + |BlockSep|] == BlockSep) &&
            (i + 1 == |rows| ==> p + |b| == |h|)
  {
    JoinAt(Blocks(rows), BlockSep, i);
  }

  /** A history with rows starts with the first block, so it is never the no-history text. */
  lemma HistoryNotPlaceholder(rows: seq<Row>)
    requires rows != []
    ensures HistoryText(rows) != NoHistory
    ensures HistoryText(rows)[..|BlockOpen|] == BlockOpen
  {
    JoinAt(Blocks(rows), BlockSep, 0);
    var h := HistoryText(rows);
    assert h[..|BlockOpen|] == Block(rows[0])[..|BlockOpen|];
    assert h[0] == '-';
  }

  /** How the lookup went, stage by stage. */
  datatype Lookup =
    | ConnectFailed               // `get_db_connection` caught an `Error` and returned `None`
    | NotConnected                // a connection whose `is_connected()` is false
    | CursorFailed(stillConnected: bool)  // `conn.cursor(...)` raised; `is_connected()` as seen in `finally`
    | QueryFailed                 // `execute` or `fetchall` raised
    | Returned(rows: seq<Row>)    // the rows, newest first

  /** Whether the lookup showed the operator an error or a warning. */
  predicate Reported(o: Lookup)
  {
    o.ConnectFailed? || o.CursorFailed? || o.QueryFailed?
  }

  /**
   * What `get_student_history` promises: the formatted rows when the query
   * returned some, and the no-history text in every other case, failures
   * included.
   */
  function HistoryFor(o: Lookup): (r: string)
    ensures r == NoHistory <==> !(o.Returned? && o.rows != [])
  {
    if o.Returned? && o.rows != [] then
      HistoryNotPlaceholder(o.rows);
      HistoryText(o.rows)
    else NoHistory
  }

  /** How a call of `get_student_history` ends as written. */
  datatype Run = Completed(text: string) | Raised

  /**
   * `get_student_history` as written: when `conn.cursor(...)` raises while the
   * connection is still up, the `finally` block calls `close` on a cursor
   * that was never bound, and the resulting exception escapes.
   */
  function StudentHistoryAsWritten(o: Lookup): (r: Run)
    ensures r.Raised? <==> o == CursorFailed(true)
    ensures r.Completed? ==> r.text == HistoryFor(o)
  {
    match o
    case CursorFailed(connected) => if connected then Raised else Completed(NoHistory)
    case Returned(rows) => Completed(HistoryText(rows))
    case _ => Completed(NoHistory)
  }

  /** The input that shows the difference: a cursor failure on a live connection. */
  lemma CursorFailureEscapes()
    ensures StudentHistoryAsWritten(CursorFailed(true)) == Raised
    ensures HistoryFor(CursorFailed(true)) == NoHistory
  {
  }

  /**
   * `get_student_history`, with the `finally` block closing only what was
   * opened: builds the list of blocks row by row and joins it, or keeps the
   * no-history text.
   */
  method StudentHistory(o: Lookup) returns (historyText: string, reported: bool)
    ensures historyText == HistoryFor(o)
    ensures reported == Reported(o)
  {
    historyText := NoHistory;
    reported := false;
    match o {
      case ConnectFailed =>
        reported := true;
      case NotConnected =>
      case CursorFailed(_) =>
        reported := true;
      case QueryFailed =>
        reported := true;
      case Returned(rows) =>
        if rows != [] {
          var historyList: seq<string> := [];
          for i := 0 to |rows|
            invariant |historyList| == i
            invariant forall k :: 0 <= k < i ==> historyList[k] == Block(rows[k])
          {
            historyList := historyList + [Block(rows[i])];
          }
          assert historyList == Blocks(rows);
          historyText := Join(historyList, BlockSep);
        }
    }
  }

  // ---------------------------------------------------------------------
  // Prompt

  /** The literal pieces of the prompt f-string, around its five interpolations. */
  const PromptPieces: seq<string> := [
    "\n" + "    あなたは保護者からの信頼が厚いプロの塾講師です。\n"
    + "    「過去の指導経緯」を踏まえ、一貫性のある「授業レポート」をLINE用に作成してください。\n"
    + "\n" + "    【制約事項】\n" + "    ・出力はプレーンテキストのみ（Markdown禁止）。\n"
    + "    ・前回指摘した内容が改善されていれば褒め、未達なら再度促すなど、連続性を意識する。\n"
    + "    - 文体は「丁寧・温かい・プロフェッショナル」なトーンで統一してください。\n"
    + "    - 以下のマニュアルと良例・悪例を参考にしてください。\n"
    + "\n" + "    【マニュアル】\n" + "    ",
    "\n" + "\n" + "    【良例・悪例データ】\n" + "    ",
    "\n" + "    ",
    "\n" + "\n" + "    【対象生徒の過去履歴（文脈の維持用）】\n" + "    ",
    "\n" + "\n" + "    【本日の授業情報】\n" + "    - 単元・課題: ",
    "\n" + "    \n" + "    【指示】\n"
    + "    アップロードされた授業の音声/動画データから、生徒の「反応」「躓いた箇所」「成長した点」を分析し、\n"
    + "    本日の授業内容と組み合わせてレポートを執筆してください。\n"
    + "    特に、過去の履歴で指摘されていた課題が今回どうだったかについても触れてください。\n"
    + "    "
  ]

  /** The prompt `generate_report` sends; the student id is passed in but not used. */
  function BuildPrompt(studentId: string, unitInfo: string, history: string,
                       manual: string, good: string, bad: string): string
  {
    Fill(PromptPieces, StreamlitApp.PromptArgs(unitInfo, history, manual, good, bad))
  }

  /**
   * The manual, the good examples, the bad examples, the history and the
   * lesson notes appear verbatim in the prompt, in that order.
   */
  lemma PromptEmbedsInputs(studentId: string, unitInfo: string, history: string,
                           manual: string, good: string, bad: string)
    ensures Embeds(BuildPrompt(studentId, unitInfo, history, manual, good, bad), PromptPieces,
                   StreamlitApp.PromptArgs(unitInfo, history, manual, good, bad))
  {
    FillEmbeds(PromptPieces, StreamlitApp.PromptArgs(unitInfo, history, manual, good, bad));
  }
}
