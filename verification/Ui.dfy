/**
 * The decisions the form makes: the size warning, whether the generate
 * button is enabled, and what the result column shows. An uploaded file is
 * represented by its size in bytes.
 */
module Ui {
  import opened Wrappers
  import opened Text
  import Markdown

  /** 200 MiB. */
  const SizeLimit: nat := 200 * 1024 * 1024

  /** The size warning shows for an uploaded file larger than 200 MiB. */
  function SizeWarning(upload: Option<nat>): (r: bool)
    ensures r <==> upload.Some? && upload.value > 209715200
  {
    upload.Some? && upload.value > SizeLimit
  }

  /** A file of exactly 200 MiB gets no warning, one byte more does, and so does a 210 MB file. */
  lemma SizeWarningBoundary()
    ensures !SizeWarning(Some(SizeLimit))
    ensures SizeWarning(Some(SizeLimit + 1))
    ensures SizeWarning(Some(210 * 1000 * 1000))
  {
  }

  /** The generate button is disabled until a file is uploaded. */
  function GenerateDisabled(upload: Option<nat>): (r: bool)
    ensures r <==> upload.None?
  {
    !upload.Some?
  }

  /**
   * A press registers as a click exactly when the button is enabled, that is
   * when a file is uploaded; a disabled button never reports one.
   */
  function GenerateClicked(pressed: bool, upload: Option<nat>): (r: bool)
    ensures r <==> pressed && upload.Some?
  {
    pressed && !GenerateDisabled(upload)
  }

  /** What the result column shows. */
  datatype Panel = Blank | Report(text: string) | UploadReminder

  /**
   * The result column: the cleaned report when the button was clicked with a
   * file and generation returned a non-empty text; nothing when generation
   * failed (`None`) or returned `""`; a reminder when clicked without a file.
   */
  function ResultPanel(clicked: bool, upload: Option<nat>, raw: Option<string>): (r: Panel)
    ensures r.Report? <==> clicked && upload.Some? && raw.Some? && raw.value != ""
    ensures r.Report? ==> r.text == Markdown.CleanMarkdown(raw.value)
    ensures r.UploadReminder? <==> clicked && upload.None?
  {
    if clicked && upload.Some? then
      if raw.Some? && raw.value != "" then Report(Markdown.CleanMarkdown(raw.value)) else Blank
    else if clicked && upload.None? then UploadReminder
    else Blank
  }

  /**
   * Since the button is disabled without a file, the reminder branch is never
   * reached, and a shown report carries no `#`, no `>` and no surrounding
   * whitespace.
   */
  lemma ShownReport(pressed: bool, upload: Option<nat>, raw: Option<string>)
    ensures !ResultPanel(GenerateClicked(pressed, upload), upload, raw).UploadReminder?
    ensures var p := ResultPanel(GenerateClicked(pressed, upload), upload, raw);
            p.Report? ==> '#' !in p.text && '>' !in p.text &&
                          (p.text == [] || (!IsSpace(p.text[0]) && !IsSpace(p.text[|p.text| - 1])))
  {
    var p := ResultPanel(GenerateClicked(pressed, upload), upload, raw);
    if p.Report? {
      assert p.text == Markdown.CleanMarkdown(raw.value);
    }
  }
}
