/**
 * `clean_markdown`: four `re.sub` passes followed by `str.strip()`, the same
 * function in both front ends. Each pass scans its own input left to right
 * the way `re.sub` does: try a match at the current position, replace it and
 * resume after it, or copy one character and move on.
 */
module Markdown {
  import opened Wrappers
  import opened Text

  /** The full-width bullet `・` (U+30FB) that replaces a leading `* `. */
  const Dot: char := '\U{30fb}'

  /**
   * The end of a bold span whose text starts at `j`: the position of the
   * nearest `**` reachable from `j` without crossing a newline (`.*?` is lazy
   * and `.` does not match `\n`), or `None` when there is none.
   */
  function CloseBold(s: string, j: nat): (r: Option<nat>)
    requires j <= |s|
    decreases |s| - j
    ensures r.Some? ==> j <= r.value && r.value + 2 <= |s| && s[r.value] == '*' && s[r.value + 1] == '*'
    ensures r.Some? ==> forall k :: j <= k < r.value ==> s[k] != '\n' && !(s[k] == '*' && s[k + 1] == '*')
    ensures r.None? ==> forall k :: j <= k && k + 1 < |s| && s[k] == '*' && s[k + 1] == '*' ==> '\n' in s[j..k]
  {
    if j + 1 < |s| && s[j] == '*' && s[j + 1] == '*' then Some(j)
    else if j < |s| && s[j] != '\n' then CloseBold(s, j + 1)
    else None
  }

  /** `re.sub(r'\*\*(.*?)\*\*', r'\1', s)`. */
  function Bold(s: string): (r: string)
    ensures |r| <= |s|
    decreases |s|
  {
    if |s| >= 2 && s[0] == '*' && s[1] == '*' && CloseBold(s, 2).Some? then
      s[2..CloseBold(s, 2).value] + Bold(s[CloseBold(s, 2).value + 2..])
    else if s == [] then []
    else [s[0]] + Bold(s[1..])
  }

  /** Drops a leading run of `#`. */
  function DropHashes(s: string): (r: string)
    ensures |r| <= |s| && r == s[|s| - |r|..]
    ensures forall k :: 0 <= k < |s| - |r| ==> s[k] == '#'
    ensures r == [] || r[0] != '#'
  {
    if s != [] && s[0] == '#' then DropHashes(s[1..]) else s
  }

  /** `\s?`: drops one leading whitespace character, if there is one. */
  function DropSpace(s: string): (r: string)
  {
    if s != [] && IsSpace(s[0]) then s[1..] else s
  }

  /** `re.sub(r'#+\s?', '', s)`: no `#` survives it. */
  function Heading(s: string): (r: string)
    ensures |r| <= |s|
    ensures '#' !in r
    decreases |s|
  {
    if s == [] then []
    else if s[0] == '#' then Heading(DropSpace(DropHashes(s)))
    else [s[0]] + Heading(s[1..])
  }

  /** `re.sub(r'>\s?', '', s)`: no `>` survives it. */
  function Quote(s: string): (r: string)
    ensures |r| <= |s|
    ensures '>' !in r
    ensures '#' !in s ==> '#' !in r
    decreases |s|
  {
    if s == [] then []
    else if s[0] == '>' then Quote(DropSpace(s[1..]))
    else [s[0]] + Quote(s[1..])
  }

  /**
   * `re.sub(r'^\*\s', '・', s, flags=re.MULTILINE)`. `lineStart` says whether
   * the first position of `s` is a line start of the pass's input (the start
   * of the text or just after a `\n`). A `*\n` at a line start is replaced
   * too, and the position after it is again a line start.
   */
  function Bullet(s: string, lineStart: bool): (r: string)
    ensures |r| <= |s|
    ensures '#' !in s ==> '#' !in r
    ensures '>' !in s ==> '>' !in r
  {
    if |s| >= 2 && lineStart && s[0] == '*' && IsSpace(s[1]) then
      [Dot] + Bullet(s[2..], s[1] == '\n')
    else if s == [] then []
    else [s[0]] + Bullet(s[1..], s[0] == '\n')
  }

  /** The four substitutions of `clean_markdown`, in their order, before the final strip. */
  function Passes(text: string): (r: string)
    ensures '#' !in r && '>' !in r
  {
    Bullet(Quote(Heading(Bold(text))), true)
  }

  /**
   * `clean_markdown(text)`: bold, headings, quotes, bullets, then `strip()`.
   * No `#` and no `>` survive, and the result neither begins nor ends with
   * whitespace.
   */
  function CleanMarkdown(text: string): (r: string)
    ensures '#' !in r && '>' !in r
    ensures r == [] || (!IsSpace(r[0]) && !IsSpace(r[|r| - 1]))
  {
    var b := Passes(text);
    StripNotIn(b, '#');
    StripNotIn(b, '>');
    Strip(b)
  }
}
