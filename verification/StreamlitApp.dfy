/**
 * The CSV-export front end: reference text read per sheet with a per-sheet
 * fallback, history lookup switched off, and its own prompt template.
 */
module StreamlitApp {
  import opened Wrappers
  import opened Text

  /** A cell of a fetched sheet; `None` where pandas read a missing value (NaN). */
  type Cell = Option<string>

  /** A fetched sheet, row by row. */
  type Grid = seq<seq<Cell>>

  /** `astype(str)`: a missing value prints as `"nan"`. */
  function CellText(c: Cell): string
  {
    match c
    case None => "nan"
    case Some(v) => v
  }

  /** `stack()`: the cells in row-major order. */
  function Stack(g: Grid): seq<Cell>
  {
    if g == [] then [] else g[0] + Stack(g[1..])
  }

  /**
   * `.str.strip()` followed by the filter `!= "nan"`: the stripped cells,
   * in order, minus those that read `"nan"`.
   */
  function KeptCells(cells: seq<Cell>): (r: seq<string>)
    ensures |r| <= |cells|
  {
    if cells == [] then [] else KeepCell(cells[0]) + KeptCells(cells[1..])
  }

  /** One cell through `.str.strip()` and the `"nan"` filter. */
  function KeepCell(c: Cell): (r: seq<string>)
    ensures |r| <= 1
    ensures r == [] <==> Strip(CellText(c)) == "nan"
    ensures r != [] ==> r[0] == Strip(CellText(c))
  {
    var t := Strip(CellText(c));
    if t == "nan" then [] else [t]
  }

  /** Filtering distributes over concatenation, so cells keep their order. */
  lemma {:induction false} KeptCellsAppend(a: seq<Cell>, b: seq<Cell>)
    ensures KeptCells(a + b) == KeptCells(a) + KeptCells(b)
  {
    if a != [] {
      assert (a + b)[0] == a[0];
      assert (a + b)[1..] == a[1..] + b;
      KeptCellsAppend(a[1..], b);
    } else {
      assert a + b == b;
    }
  }

  /** Stacking a sheet made of two bands of rows stacks each band in turn. */
  lemma {:induction false} StackAppend(g: Grid, h: Grid)
    ensures Stack(g + h) == Stack(g) + Stack(h)
  {
    if g != [] {
      assert (g + h)[0] == g[0];
      assert (g + h)[1..] == g[1..] + h;
      StackAppend(g[1..], h);
    } else {
      assert g + h == h;
    }
  }

  /**
   * A text is kept exactly when some cell strips to it and it is not
   * `"nan"`; in particular a missing cell never contributes.
   */
  lemma {:induction false} KeptCellsMembership(cells: seq<Cell>, x: string)
    ensures x in KeptCells(cells) <==>
            x != "nan" && exists i :: 0 <= i < |cells| && Strip(CellText(cells[i])) == x
  {
    if cells != [] {
      KeptCellsMembership(cells[1..], x);
      if x != "nan" && exists i :: 0 <= i < |cells| && Strip(CellText(cells[i])) == x {
        var i :| 0 <= i < |cells| && Strip(CellText(cells[i])) == x;
        if i > 0 {
          assert cells[1..][i - 1] == cells[i];
        }
      }
      if x in KeptCells(cells[1..]) {
        var i :| 0 <= i < |cells[1..]| && Strip(CellText(cells[1..][i])) == x;
        assert cells[i + 1] == cells[1..][i];
      }
    }
  }

  /** Every kept text is already stripped: no whitespace at either end. */
  lemma KeptCellStripped(cells: seq<Cell>, k: nat)
    requires k < |KeptCells(cells)|
    ensures Strip(KeptCells(cells)[k]) == KeptCells(cells)[k]
  {
    var x := KeptCells(cells)[k];
    KeptCellsMembership(cells, x);
    var i :| 0 <= i < |cells| && Strip(CellText(cells[i])) == x;
    StripIdempotent(CellText(cells[i]));
  }

  /** A cell holding the text `"nan"` is dropped like a missing value. */
  lemma NanTextDropped()
    ensures KeepCell(Some("nan")) == [] && KeepCell(None) == []
  {
    NanStripped(Some("nan"));
    NanStripped(None);
  }

  /** `"nan"` has no whitespace to strip. */
  lemma NanStripped(c: Cell)
    requires CellText(c) == "nan"
    ensures Strip(CellText(c)) == "nan"
  {
    StripUnchanged(CellText(c));
  }

  /** Cells that all strip to `"nan"` keep nothing. */
  lemma {:induction false} NanRunDropped(n: seq<Cell>)
    requires forall k :: 0 <= k < |n| ==> Strip(CellText(n[k])) == "nan"
    ensures KeptCells(n) == []
  {
    if n != [] {
      NanRunDropped(n[1..]);
    }
  }

  /** A run of cells that keeps nothing leaves the texts around it as they were, wherever it sits. */
  lemma NanCellsDropped(a: seq<Cell>, n: seq<Cell>, b: seq<Cell>)
    requires KeptCells(n) == []
    ensures KeptCells(a + n + b) == KeptCells(a) + KeptCells(b)
  {
    var an := a + n;
    KeptCellsAppend(an, b);
    KeptCellsAppend(a, n);
  }

  /** What a sheet read yields: its text, and whether a warning was shown. */
  datatype SheetText = SheetText(text: string, warned: bool)

  /**
   * `get_sheet_text`: the kept cells of the sheet joined with newlines, or
   * the empty text and a warning when the read failed.
   */
  function GetSheetText(sheet: Fetch<Grid>): (r: SheetText)
    ensures r.warned <==> sheet.Failed?
    ensures sheet.Failed? ==> r.text == ""
    ensures sheet.Fetched? && KeptCells(Stack(sheet.data)) == [] ==> r.text == ""
  {
    match sheet
    case Failed => SheetText("", true)
    case Fetched(g) => SheetText(Join(KeptCells(Stack(g)), "\n"), false)
  }

  /**
   * When no kept cell holds a newline, the lines of the sheet text are
   * exactly the kept cells, in row-major order.
   */
  lemma SheetTextLines(g: Grid)
    requires KeptCells(Stack(g)) != []
    requires forall k :: 0 <= k < |KeptCells(Stack(g))| ==> '\n' !in KeptCells(Stack(g))[k]
    ensures Split(GetSheetText(Fetched(g)).text, '\n') == KeptCells(Stack(g))
  {
    SplitJoin(KeptCells(Stack(g)), '\n');
  }

  /** The three reference texts: the manual, the good examples, the bad examples. */
  datatype Corpus = Corpus(manual: string, good: string, bad: string)

  /**
   * `load_learning_data`: each sheet is read on its own, so a failed sheet
   * reads as the empty text and the other two are unaffected.
   */
  function LoadLearningData(manual: Fetch<Grid>, good: Fetch<Grid>, bad: Fetch<Grid>): (r: Corpus)
    ensures r.manual == GetSheetText(manual).text
    ensures r.good == GetSheetText(good).text
    ensures r.bad == GetSheetText(bad).text
  {
    Corpus(GetSheetText(manual).text, GetSheetText(good).text, GetSheetText(bad).text)
  }

  /** A failure on one sheet leaves the texts of the other two as they were. */
  lemma SheetFailureIsolated(manual: Fetch<Grid>, good: Fetch<Grid>, bad: Fetch<Grid>)
    ensures LoadLearningData(Failed, good, bad) == LoadLearningData(manual, good, bad).(manual := "")
    ensures LoadLearningData(manual, Failed, bad) == LoadLearningData(manual, good, bad).(good := "")
    ensures LoadLearningData(manual, good, Failed) == LoadLearningData(manual, good, bad).(bad := "")
  {
  }

  /** The placeholder this front end always uses for the student's history. */
  const HistoryPlaceholder: string :=
    "過去のレポート履歴はこの生徒が初回授業のためか、あるいはなんらかの理由で見つかりませんでした。"

  /** `get_student_history`: the lookup is switched off, so every student gets the placeholder. */
  function GetStudentHistory(studentId: string): (r: string)
    ensures r == HistoryPlaceholder
  {
    HistoryPlaceholder
  }

  /** The literal pieces of the prompt f-string, around its five interpolations. */
  const PromptPieces: seq<string> := [
    "\n" + "    あなたは保護者からの信頼が厚いプロの塾講師です。\n"
    + "    「過去の指導経緯」を踏まえ、一貫性のある「授業レポート」をLINE用に作成してください。\n"
    + "\n" + "    【制約事項】\n" + "    ・出力はプレーンテキストのみ（Markdown禁止）。\n"
    + "    ・前回指摘した内容が改善されていれば褒め、未達なら再度促すなど、連続性を意識する。\n"
    + "    - 文体は「丁寧・温かい・プロフェッショナル」なトーンで統一してください。\n"
    + "    - 以下のマニュアルと良例・悪例を参考にしてください。\n"
    + "    - 「生徒の様子」の部分を書いてもらうだけなので、長くても200字程度で。\n"
    + "    - また、その生徒が初回授業かどうかがわからない場合はそれに言及しないこと。\n"
    + "\n" + "    【マニュアル】\n" + "    ",
    "\n" + "\n" + "    【良例・悪例データ】\n" + "    ",
    "\n" + "    ",
    "\n" + "\n" + "    【対象生徒の過去履歴（文脈の維持用）】\n" + "    ",
    "\n" + "\n" + "    【本日の授業情報】\n" + "    - 単元・課題: ",
    "\n" + "    \n" + "    【指示】\n"
    + "    成約事項やマニュアルに記載の内容を遵守し、アップロードされた授業の音声/動画データから、"
    + "保護者用レポートの「生徒の様子」(「反応」「躓いた箇所」「成長した点」)項目を作ってください。\n"
    + "    "
  ]

  /** The values interpolated into the prompt, in the order they appear. */
  function PromptArgs(unitInfo: string, history: string, manual: string, good: string, bad: string): (r: seq<string>)
    ensures |r| + 1 == |PromptPieces|
  {
    [manual, good, bad, history, unitInfo]
  }

  /** The prompt `generate_report` sends; the student id is passed in but not used. */
  function BuildPrompt(studentId: string, unitInfo: string, history: string,
                       manual: string, good: string, bad: string): string
  {
    Fill(PromptPieces, PromptArgs(unitInfo, history, manual, good, bad))
  }

  /**
   * The manual, the good examples, the bad examples, the history and the
   * lesson notes appear verbatim in the prompt, in that order.
   */
  lemma PromptEmbedsInputs(studentId: string, unitInfo: string, history: string,
                           manual: string, good: string, bad: string)
    ensures Embeds(BuildPrompt(studentId, unitInfo, history, manual, good, bad), PromptPieces,
                   PromptArgs(unitInfo, history, manual, good, bad))
  {
    FillEmbeds(PromptPieces, PromptArgs(unitInfo, history, manual, good, bad));
  }

  /** The prompt does not depend on the student id. */
  lemma PromptIgnoresStudentId(id1: string, id2: string, unitInfo: string, history: string,
                               manual: string, good: string, bad: string)
    ensures BuildPrompt(id1, unitInfo, history, manual, good, bad)
         == BuildPrompt(id2, unitInfo, history, manual, good, bad)
  {
  }
}
