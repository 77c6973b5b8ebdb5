/** What the passes of `clean_markdown` keep, remove and rewrite. */
module MarkdownFacts {
  import opened Wrappers
  import opened Text
  import opened Markdown

  /** The characters `clean_markdown` may remove or insert: markers and whitespace. */
  predicate IsMarkup(c: char) {
    c == '*' || c == '#' || c == '>' || c == Dot || IsSpace(c)
  }

  /** The text with every markup character taken out. */
  function Erase(s: string): string
  {
    if s == [] then [] else (if IsMarkup(s[0]) then [] else [s[0]]) + Erase(s[1..])
  }

  lemma {:induction false} EraseAppend(a: string, b: string)
    ensures Erase(a + b) == Erase(a) + Erase(b)
  {
    if a != [] {
      assert (a + b)[0] == a[0];
      assert (a + b)[1..] == a[1..] + b;
      EraseAppend(a[1..], b);
    } else {
      assert a + b == b;
    }
  }

  /** Text made only of markup erases to nothing. */
  lemma {:induction false} EraseAllMarkup(s: string)
    requires forall k :: 0 <= k < |s| ==> IsMarkup(s[k])
    ensures Erase(s) == []
  {
    if s != [] {
      EraseAllMarkup(s[1..]);
    }
  }

  /** Dropping a prefix made of markup does not change the erased text. */
  lemma EraseDropMarkup(s: string, m: nat)
    requires m <= |s|
    requires forall k :: 0 <= k < m ==> IsMarkup(s[k])
    ensures Erase(s[m..]) == Erase(s)
  {
    assert s == s[..m] + s[m..];
    EraseAppend(s[..m], s[m..]);
    EraseAllMarkup(s[..m]);
  }

  /** `DropSpace` after `DropHashes` removes only markup. */
  lemma HeadingMarkerSuffix(s: string)
    ensures |DropSpace(DropHashes(s))| <= |s|
    ensures Erase(DropSpace(DropHashes(s))) == Erase(s)
  {
    DropHashesKeepsText(s);
  }

  lemma {:induction false} DropHashesKeepsText(s: string)
    ensures Erase(DropHashes(s)) == Erase(s)
  {
    if s != [] && s[0] == '#' {
      DropHashesKeepsText(s[1..]);
    }
  }

  /** A `**`-delimited span erases to its inner text. */
  lemma EraseSpan(s: string, k: nat)
    requires 2 <= k && k + 2 <= |s|
    requires s[0] == '*' && s[1] == '*' && s[k] == '*' && s[k + 1] == '*'
    ensures Erase(s) == Erase(s[2..k]) + Erase(s[k + 2..])
  {
    EraseDropMarkup(s, 2);
    assert s[2..] == s[2..k] + s[k..];
    EraseAppend(s[2..k], s[k..]);
    EraseDropMarkup(s[k..], 2);
    assert s[k..][2..] == s[k + 2..];
  }

  /** The bold pass keeps every character that is not markup, in order. */
  lemma {:induction false} BoldKeepsText(s: string)
    ensures Erase(Bold(s)) == Erase(s)
    decreases |s|
  {
    if |s| >= 2 && s[0] == '*' && s[1] == '*' && CloseBold(s, 2).Some? {
      var k := CloseBold(s, 2).value;
      BoldKeepsText(s[k + 2..]);
      EraseAppend(s[2..k], Bold(s[k + 2..]));
      EraseSpan(s, k);
    } else if s != [] {
      BoldKeepsText(s[1..]);
      EraseAppend([s[0]], Bold(s[1..]));
    }
  }

  /** The heading pass keeps every character that is not markup, in order. */
  lemma {:induction false} HeadingKeepsText(s: string)
    ensures Erase(Heading(s)) == Erase(s)
    decreases |s|
  {
    if s != [] {
      if s[0] == '#' {
        HeadingMarkerSuffix(s);
        HeadingKeepsText(DropSpace(DropHashes(s)));
      } else {
        HeadingKeepsText(s[1..]);
        EraseAppend([s[0]], Heading(s[1..]));
      }
    }
  }

  /** The quote pass keeps every character that is not markup, in order. */
  lemma {:induction false} QuoteKeepsText(s: string)
    ensures Erase(Quote(s)) == Erase(s)
    decreases |s|
  {
    if s != [] {
      if s[0] == '>' {
        var d := DropSpace(s[1..]);
        EraseDropMarkup(s, |s| - |d|);
        QuoteKeepsText(d);
      } else {
        QuoteKeepsText(s[1..]);
        EraseAppend([s[0]], Quote(s[1..]));
      }
    }
  }

  /** The bullet pass keeps every character that is not markup, in order. */
  lemma {:induction false} BulletKeepsText(s: string, lineStart: bool)
    ensures Erase(Bullet(s, lineStart)) == Erase(s)
  {
    if |s| >= 2 && lineStart && s[0] == '*' && IsSpace(s[1]) {
      BulletKeepsText(s[2..], s[1] == '\n');
      EraseDropMarkup(s, 2);
      EraseAppend([Dot], Bullet(s[2..], s[1] == '\n'));
    } else if s != [] {
      BulletKeepsText(s[1..], s[0] == '\n');
      EraseAppend([s[0]], Bullet(s[1..], s[0] == '\n'));
    }
  }

  /** `lstrip` removes only whitespace. */
  lemma {:induction false} LStripKeepsText(s: string)
    ensures Erase(LStrip(s)) == Erase(s)
  {
    if s != [] && IsSpace(s[0]) {
      LStripKeepsText(s[1..]);
    }
  }

  /** `rstrip` removes only whitespace. */
  lemma {:induction false} RStripKeepsText(s: string)
    ensures Erase(RStrip(s)) == Erase(s)
  {
    if s != [] && IsSpace(s[|s| - 1]) {
      var init := s[..|s| - 1];
      RStripKeepsText(init);
      assert s == init + [s[|s| - 1]];
      EraseAppend(init, [s[|s| - 1]]);
    }
  }

  /** Stripping removes only whitespace. */
  lemma StripKeepsText(s: string)
    ensures Erase(Strip(s)) == Erase(s)
  {
    LStripKeepsText(s);
    RStripKeepsText(LStrip(s));
  }

  /**
   * Ignoring `*`, `#`, `>`, `・` and whitespace, `clean_markdown` returns its
   * input: no other character is dropped, added or moved.
   */
  lemma CleanKeepsText(text: string)
    ensures Erase(CleanMarkdown(text)) == Erase(text)
  {
    BoldKeepsText(text);
    HeadingKeepsText(Bold(text));
    QuoteKeepsText(Heading(Bold(text)));
    BulletKeepsText(Quote(Heading(Bold(text))), true);
    StripKeepsText(Passes(text));
  }

  /** `**w**` followed by anything becomes `w`, when `w` has no `*` and no newline. */
  lemma BoldSpan(w: string, rest: string)
    requires '*' !in w && '\n' !in w
    ensures Bold("**" + w + "**" + rest) == w + Bold(rest)
  {
    var s := "**" + w + "**" + rest;
    var k := |w| + 2;
    assert s[k] == '*' && s[k + 1] == '*';
    assert s[2..k] == w;
    assert CloseBold(s, 2) == Some(k);
    assert s[k + 2..] == rest;
  }

  /** The bold pass turns `**w**` into `w`. */
  lemma BoldWord(w: string)
    requires '*' !in w && '\n' !in w
    ensures Bold("**" + w + "**") == w
  {
    BoldSpan(w, []);
    assert "**" + w + "**" + [] == "**" + w + "**";
  }

  /** A text without `*` is left alone by the bold pass. */
  lemma {:induction false} BoldUnchanged(s: string)
    requires '*' !in s
    ensures Bold(s) == s
  {
    if s != [] {
      BoldUnchanged(s[1..]);
    }
  }

  /** A text without `#` is left alone by the heading pass. */
  lemma {:induction false} HeadingUnchanged(s: string)
    requires '#' !in s
    ensures Heading(s) == s
  {
    if s != [] {
      HeadingUnchanged(s[1..]);
    }
  }

  /** A text without `>` is left alone by the quote pass. */
  lemma {:induction false} QuoteUnchanged(s: string)
    requires '>' !in s
    ensures Quote(s) == s
  {
    if s != [] {
      QuoteUnchanged(s[1..]);
    }
  }

  /** A text without `*` is left alone by the bullet pass. */
  lemma {:induction false} BulletUnchanged(s: string, lineStart: bool)
    requires '*' !in s
    ensures Bullet(s, lineStart) == s
  {
    if s != [] {
      BulletUnchanged(s[1..], s[0] == '\n');
    }
  }

  /**
   * A text with no `*`, `#` or `>` and no whitespace at either end comes back
   * unchanged; so for such text cleaning twice is cleaning once.
   */
  lemma CleanUnchanged(text: string)
    requires '*' !in text && '#' !in text && '>' !in text
    requires text == [] || (!IsSpace(text[0]) && !IsSpace(text[|text| - 1]))
    ensures CleanMarkdown(text) == text
    ensures CleanMarkdown(CleanMarkdown(text)) == CleanMarkdown(text)
  {
    PassesUnchanged(text);
    StripUnchanged(text);
  }

  /**
   * On text free of `*`, `#` and `>`, cleaning only strips, so cleaning twice
   * is cleaning once, whatever whitespace surrounds the text.
   */
  lemma CleanIdempotentMarkerFree(text: string)
    requires '*' !in text && '#' !in text && '>' !in text
    ensures CleanMarkdown(CleanMarkdown(text)) == CleanMarkdown(text)
  {
    PassesUnchanged(text);
    StripNotIn(text, '*');
    StripNotIn(text, '#');
    StripNotIn(text, '>');
    PassesUnchanged(Strip(text));
    StripIdempotent(text);
  }

  /** The four substitutions leave a text without `*`, `#` and `>` alone. */
  lemma PassesUnchanged(text: string)
    requires '*' !in text && '#' !in text && '>' !in text
    ensures Passes(text) == text
  {
    BoldUnchanged(text);
    HeadingUnchanged(text);
    QuoteUnchanged(text);
    BulletUnchanged(text, true);
  }

  /** A character other than `#` is copied by the heading pass. */
  lemma HeadingCopies(s: string)
    requires s != [] && s[0] != '#'
    ensures Heading(s) == [s[0]] + Heading(s[1..])
  {
  }

  /** A run of `#` at the start goes, with at most one following whitespace character. */
  lemma HeadingDropsRun(h: string, b: string)
    requires h != [] && forall k :: 0 <= k < |h| ==> h[k] == '#'
    requires b == [] || b[0] != '#'
    ensures Heading(h + b) == Heading(DropSpace(b))
  {
    assert (h + b)[0] == '#';
    HashRunDropped(h, b);
  }

  /**
   * The heading pass deletes a maximal run of `#` together with at most one
   * whitespace character right after it, and keeps the text before it.
   */
  lemma {:induction false} HeadingRun(a: string, h: string, b: string)
    requires '#' !in a
    requires h != [] && forall k :: 0 <= k < |h| ==> h[k] == '#'
    requires b == [] || b[0] != '#'
    ensures Heading(a + h + b) == a + Heading(DropSpace(b))
  {
    if a == [] {
      assert a + h + b == h + b;
      HeadingDropsRun(h, b);
    } else {
      var s := a + h + b;
      HeadingRun(a[1..], h, b);
      HeadingCopies(s);
      ConsTail(a, h, b);
      ConsAppend(a, Heading(DropSpace(b)));
    }
  }

  /**
   * Text with markers can be a fixed point of a second clean too: a heading
   * marker before a plain word cleans to the word, which cleans to itself.
   */
  lemma CleanHeadingIdempotent(w: string)
    requires PlainWord(w) && w != [] && !IsSpace(w[0])
    ensures CleanMarkdown("#" + w) == w
    ensures CleanMarkdown(CleanMarkdown("#" + w)) == CleanMarkdown("#" + w)
  {
    var s := "#" + w;
    BoldUnchanged(s);
    HeadingRun([], "#", w);
    assert [] + "#" + w == s;
    assert DropSpace(w) == w;
    HeadingUnchanged(w);
    QuoteUnchanged(w);
    BulletUnchanged(w, true);
    StripUnchanged(w);
    CleanFromPasses(s, w);
    CleanUnchanged(w);
  }

  /** Dropping the first character of a non-empty prefix. */
  lemma ConsTail(a: string, h: string, b: string)
    requires a != []
    ensures (a + h + b)[0] == a[0] && (a + h + b)[1..] == a[1..] + h + b
  {
  }

  /** Putting the first character back in front. */
  lemma ConsAppend(a: string, t: string)
    requires a != []
    ensures [a[0]] + (a[1..] + t) == a + t
  {
  }

  lemma {:induction false} HashRunDropped(h: string, b: string)
    requires forall k :: 0 <= k < |h| ==> h[k] == '#'
    requires b == [] || b[0] != '#'
    ensures DropHashes(h + b) == b
  {
    if h != [] {
      assert (h + b)[1..] == h[1..] + b;
      HashRunDropped(h[1..], b);
    }
  }

  /**
   * The quote pass deletes a `>` together with at most one whitespace
   * character right after it, and keeps the text before it.
   */
  lemma {:induction false} QuoteMarker(a: string, b: string)
    requires '>' !in a
    ensures Quote(a + ">" + b) == a + Quote(DropSpace(b))
  {
    if a == [] {
      assert a + ">" + b == [] + ">" + b == ">" + b;
      assert (">" + b)[1..] == b;
    } else {
      QuoteMarker(a[1..], b);
      QuoteCopies(a + ">" + b);
      ConsTail(a, ">", b);
      ConsAppend(a, Quote(DropSpace(b)));
    }
  }

  /** A character other than `>` is copied by the quote pass. */
  lemma QuoteCopies(s: string)
    requires s != [] && s[0] != '>'
    ensures Quote(s) == [s[0]] + Quote(s[1..])
  {
  }

  /** Away from a line start, the bullet pass changes nothing on the line. */
  lemma {:induction false} BulletMidLine(line: string)
    requires '\n' !in line
    ensures Bullet(line, false) == line
  {
    if line != [] {
      BulletMidLine(line[1..]);
    }
  }

  /**
   * A line that begins with `*` and a whitespace character other than a
   * newline becomes `・` followed by the rest of the line, and the next line
   * is again at a line start.
   */
  lemma BulletItem(sp: char, line: string, rest: string)
    requires IsSpace(sp) && sp != '\n' && '\n' !in line
    ensures Bullet(['*', sp] + line + "\n" + rest, true) == [Dot] + line + "\n" + Bullet(rest, true)
  {
    var s := ['*', sp] + line + "\n" + rest;
    var t := line + "\n" + rest;
    assert s[0] == '*' && s[1] == sp && s[2..] == t;
    BulletOpens(s);
    BulletLineThenNext(line, rest);
    assert [Dot] + (line + "\n" + Bullet(rest, true)) == [Dot] + line + "\n" + Bullet(rest, true);
  }

  /** At a line start, `*` and a whitespace character become `・`. */
  lemma BulletOpens(s: string)
    requires |s| >= 2 && s[0] == '*' && IsSpace(s[1])
    ensures Bullet(s, true) == [Dot] + Bullet(s[2..], s[1] == '\n')
  {
  }

  lemma {:induction false} BulletLineThenNext(line: string, rest: string)
    requires '\n' !in line
    ensures Bullet(line + "\n" + rest, false) == line + "\n" + Bullet(rest, true)
  {
    if line == [] {
      assert line + "\n" + rest == "\n" + rest;
      assert ("\n" + rest)[1..] == rest;
    } else {
      var s := line + "\n" + rest;
      ConsTail(line, "\n", rest);
      BulletLineThenNext(line[1..], rest);
      BulletCopies(s, false);
      ConsAppendLine(line, Bullet(rest, true));
    }
  }

  /** A character that does not start an item is copied by the bullet pass. */
  lemma BulletCopies(s: string, lineStart: bool)
    requires s != [] && (!lineStart || s[0] != '*')
    ensures Bullet(s, lineStart) == [s[0]] + Bullet(s[1..], s[0] == '\n')
  {
  }

  /** Putting the first character back in front of a line and what follows it. */
  lemma ConsAppendLine(a: string, t: string)
    requires a != []
    ensures [a[0]] + (a[1..] + "\n" + t) == a + "\n" + t
  {
  }

  /** `*` followed by a newline at a line start swallows the newline. */
  lemma BulletSwallowsNewline(rest: string)
    ensures Bullet("*\n" + rest, true) == [Dot] + Bullet(rest, true)
  {
    assert ("*\n" + rest)[2..] == rest;
  }

  /** A character that does not open a `**` is copied by the bold pass. */
  lemma BoldCopies(s: string)
    requires s != [] && (s[0] != '*' || |s| < 2 || s[1] != '*')
    ensures Bold(s) == [s[0]] + Bold(s[1..])
  {
  }

  /** Text without markup that does not end in whitespace. */
  predicate PlainWord(w: string) {
    '*' !in w && '#' !in w && '>' !in w && (w == [] || !IsSpace(w[|w| - 1]))
  }

  /**
   * Cleaning is not idempotent: when a `* ` is preceded only by whitespace,
   * the bullet pass leaves it alone (it is not at a line start), the final
   * strip then moves it to the start, and a second cleaning turns it into
   * a bullet.
   */
  lemma CleanNotIdempotent(w: string)
    requires PlainWord(w) && w != []
    ensures CleanMarkdown(" * " + w) == "* " + w
    ensures CleanMarkdown(CleanMarkdown(" * " + w)) == [Dot] + w != CleanMarkdown(" * " + w)
  {
    PassesSpacedItem(w);
    assert " * " + w == [' '] + ("* " + w);
    StripLeadingSpace(' ', "* " + w);
    CleanFromPasses(" * " + w, "* " + w);
    CleanBulletAtStart(w);
    assert ([Dot] + w)[0] != ("* " + w)[0];
  }

  /** `clean_markdown` strips what the four substitutions leave. */
  lemma CleanFromPasses(text: string, r: string)
    requires Strip(Passes(text)) == r
    ensures CleanMarkdown(text) == r
  {
  }

  /** `* ` followed by plain text is not bold markup. */
  lemma BoldItem(w: string)
    requires '*' !in w
    ensures Bold("* " + w) == "* " + w
  {
    var s := "* " + w;
    assert s[0] == '*' && s[1] == ' ' && s[1..] == " " + w;
    BoldCopies(s);
    BoldSpaced(w);
    assert ['*'] + (" " + w) == s;
  }

  /** A space followed by `*`-free text passes the bold pass unchanged. */
  lemma BoldSpaced(w: string)
    requires '*' !in w
    ensures Bold(" " + w) == " " + w
  {
    var s := " " + w;
    assert s[0] == ' ' && s[1..] == w;
    BoldCopies(s);
    BoldUnchanged(w);
    assert [' '] + w == s;
  }

  /** Away from a line start, `" * " + w` goes through all four substitutions unchanged. */
  lemma PassesSpacedItem(w: string)
    requires PlainWord(w)
    ensures Passes(" * " + w) == " * " + w
  {
    var s := " * " + w;
    assert s == [' '] + ("* " + w) && "* " + w == ['*'] + (" " + w) && " " + w == [' '] + w;
    BoldItem(w);
    BoldCopies(s);
    HeadingUnchanged(s);
    QuoteUnchanged(s);
    BulletCopies(s, true);
    BulletCopies("* " + w, false);
    BulletCopies(" " + w, false);
    BulletUnchanged(w, false);
  }

  /** One whitespace character in front of an already stripped text is cut off. */
  lemma StripLeadingSpace(c: char, t: string)
    requires IsSpace(c) && t != [] && !IsSpace(t[0]) && !IsSpace(t[|t| - 1])
    ensures Strip([c] + t) == t
  {
    assert ([c] + t)[1..] == t;
    assert LStrip([c] + t) == LStrip(t) == t;
  }

  /** A `* ` at the very start of the text becomes a bullet. */
  lemma CleanBulletAtStart(w: string)
    requires PlainWord(w)
    ensures CleanMarkdown("* " + w) == [Dot] + w
  {
    PassesItemAtStart(w);
    var r := [Dot] + w;
    assert r[0] == Dot && r[|r| - 1] == if w == [] then Dot else w[|w| - 1];
    StripUnchanged(r);
    CleanFromPasses("* " + w, r);
  }

  /** The bullet pass rewrites a `* ` that opens the text. */
  lemma PassesItemAtStart(w: string)
    requires PlainWord(w)
    ensures Passes("* " + w) == [Dot] + w
  {
    var s := "* " + w;
    BoldItem(w);
    HeadingUnchanged(s);
    QuoteUnchanged(s);
    assert s[2..] == w;
    BulletOpens(s);
    BulletUnchanged(w, false);
  }
}
