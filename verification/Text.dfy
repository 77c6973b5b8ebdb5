/**
 * The few pieces of Python's `str` behaviour the application relies on:
 * `str.isspace` (also the `\s` class of `re` on text patterns), `str.strip`,
 * `sep.join` and f-string interpolation. `Split` on a one-character
 * separator is not called by the application; it is here only to read a
 * join back into its pieces.
 */
module Text {

  /** CPython's whitespace set, shared by `str.isspace`, `str.strip()` and `\s`. */
  predicate IsSpace(c: char) {
    ('\t' <= c <= '\r') || ('\U{1c}' <= c <= '\U{1f}') || c == ' '
    || c == '\U{85}' || c == '\U{a0}' || c == '\U{1680}'
    || ('\U{2000}' <= c <= '\U{200a}') || c == '\U{2028}' || c == '\U{2029}'
    || c == '\U{202f}' || c == '\U{205f}' || c == '\U{3000}'
  }

  /** `str.lstrip()`: drops the longest whitespace prefix. */
  function LStrip(s: string): (r: string)
    ensures |r| <= |s| && r == s[|s| - |r|..]
    ensures forall k :: 0 <= k < |s| - |r| ==> IsSpace(s[k])
    ensures r == [] || !IsSpace(r[0])
  {
    if s != [] && IsSpace(s[0]) then LStrip(s[1..]) else s
  }

  /** `str.rstrip()`: drops the longest whitespace suffix. */
  function RStrip(s: string): (r: string)
    ensures |r| <= |s| && r == s[..|r|]
    ensures forall k :: |r| <= k < |s| ==> IsSpace(s[k])
    ensures r == [] || !IsSpace(r[|r| - 1])
  {
    if s != [] && IsSpace(s[|s| - 1]) then RStrip(s[..|s| - 1]) else s
  }

  /** Where `Strip(s)` starts inside `s`. */
  function StripOffset(s: string): nat
  {
    |s| - |LStrip(s)|
  }

  /**
   * `str.strip()`: the result is a slice of `s` that neither begins nor ends
   * with whitespace; `StripRemovesSpace` shows that what it cuts off is all
   * whitespace.
   */
  function Strip(s: string): (r: string)
    ensures StripOffset(s) + |r| <= |s| && r == s[StripOffset(s)..StripOffset(s) + |r|]
    ensures r == [] || (!IsSpace(r[0]) && !IsSpace(r[|r| - 1]))
  {
    RStrip(LStrip(s))
  }

  /** `Strip` cuts off whitespace only, at both ends. */
  lemma StripRemovesSpace(s: string)
    ensures forall k :: 0 <= k < StripOffset(s) ==> IsSpace(s[k])
    ensures forall k :: StripOffset(s) + |Strip(s)| <= k < |s| ==> IsSpace(s[k])
  {
    var o, l := StripOffset(s), LStrip(s);
    assert forall k :: o + |Strip(s)| <= k < |s| ==> s[k] == l[k - o];
  }

  /** A character absent from `s` is absent from `Strip(s)`. */
  lemma StripNotIn(s: string, c: char)
    requires c !in s
    ensures c !in Strip(s)
  {
    var o, r := StripOffset(s), Strip(s);
    assert forall k :: 0 <= k < |r| ==> r[k] == s[o + k];
  }

  /** Text whose two ends are not whitespace is left alone by `Strip`. */
  lemma StripUnchanged(s: string)
    requires s == [] || (!IsSpace(s[0]) && !IsSpace(s[|s| - 1]))
    ensures Strip(s) == s
  {
  }

  /** Stripping twice is stripping once. */
  lemma StripIdempotent(s: string)
    ensures Strip(Strip(s)) == Strip(s)
  {
    StripUnchanged(Strip(s));
  }

  /** `sep.join(xs)`. */
  function Join(xs: seq<string>, sep: string): string
  {
    if xs == [] then []
    else if |xs| == 1 then xs[0]
    else xs[0] + sep + Join(xs[1..], sep)
  }

  /** Where the `i`-th piece starts in `Join(xs, sep)`. */
  function JoinPos(xs: seq<string>, sep: string, i: nat): nat
    requires i <= |xs|
  {
    if i == 0 then 0 else |xs[0]| + |sep| + JoinPos(xs[1..], sep, i - 1)
  }

  /**
   * Every piece appears verbatim at its position in the joined text, each
   * piece is followed by the separator unless it is the last one, and the
   * text ends with the last piece.
   */
  lemma {:induction false} JoinAt(xs: seq<string>, sep: string, i: nat)
    requires i < |xs|
    ensures JoinPos(xs, sep, i) + |xs[i]| <= |Join(xs, sep)|
    ensures Join(xs, sep)[JoinPos(xs, sep, i)..JoinPos(xs, sep, i) + |xs[i]|] == xs[i]
    ensures i + 1 < |xs| ==>
      JoinPos(xs, sep, i) + |xs[i]| + |sep| <= |Join(xs, sep)| &&
      Join(xs, sep)[JoinPos(xs, sep, i) + |xs[i]|..JoinPos(xs, sep, i) + |xs[i]| + |sep|] == sep
    ensures i + 1 == |xs| ==> JoinPos(xs, sep, i) + |xs[i]| == |Join(xs, sep)|
  {
    if |xs| == 1 {
    } else if i == 0 {
      JoinHead(xs, sep);
    } else {
      JoinAt(xs[1..], sep, i - 1);
      var p := JoinPos(xs[1..], sep, i - 1);
      assert JoinPos(xs, sep, i) == |xs[0]| + |sep| + p && xs[1..][i - 1] == xs[i];
      JoinShift(xs, sep, p, p + |xs[i]|);
      if i + 1 < |xs| {
        JoinShift(xs, sep, p + |xs[i]|, p + |xs[i]| + |sep|);
      }
    }
  }

  /** A slice of the join of the remaining pieces is a slice of the whole join, shifted. */
  lemma JoinShift(xs: seq<string>, sep: string, x: nat, y: nat)
    requires |xs| > 1 && x <= y <= |Join(xs[1..], sep)|
    ensures |xs[0]| + |sep| + y <= |Join(xs, sep)|
    ensures Join(xs, sep)[|xs[0]| + |sep| + x..|xs[0]| + |sep| + y] == Join(xs[1..], sep)[x..y]
  {
    JoinTail(xs, sep);
    SliceShift(Join(xs, sep), Join(xs[1..], sep), |xs[0]| + |sep|, x, y);
  }

  /** With two pieces or more, the joined text opens with the first piece and a separator. */
  lemma JoinHead(xs: seq<string>, sep: string)
    requires |xs| > 1
    ensures |xs[0]| + |sep| <= |Join(xs, sep)|
    ensures Join(xs, sep)[..|xs[0]|] == xs[0]
    ensures Join(xs, sep)[|xs[0]|..|xs[0]| + |sep|] == sep
  {
    var j := Join(xs, sep);
    assert j[0..] == xs[0] + sep + [] + Join(xs[1..], sep);
    SliceThree(j, 0, xs[0], sep, [], Join(xs[1..], sep));
  }

  /** With two pieces or more, the joined text goes on with the join of the remaining pieces. */
  lemma JoinTail(xs: seq<string>, sep: string)
    requires |xs| > 1
    ensures |xs[0]| + |sep| <= |Join(xs, sep)|
    ensures Join(xs, sep)[|xs[0]| + |sep|..] == Join(xs[1..], sep)
  {
    assert Join(xs, sep) == xs[0] + sep + Join(xs[1..], sep);
  }

  /** Pieces are laid out left to right: piece `i` ends before piece `k` starts. */
  lemma {:induction false} JoinPosOrdered(xs: seq<string>, sep: string, i: nat, k: nat)
    requires i < k < |xs|
    ensures JoinPos(xs, sep, i) + |xs[i]| + |sep| <= JoinPos(xs, sep, k)
  {
    if i > 0 {
      JoinPosOrdered(xs[1..], sep, i - 1, k - 1);
    } else if k > 1 {
      JoinPosOrdered(xs[1..], sep, 0, k - 1);
    }
  }

  /** A slice of a suffix is a slice of the whole, shifted by the suffix's start. */
  lemma SliceShift(f: string, rest: string, off: nat, x: nat, y: nat)
    requires off <= |f| && f[off..] == rest && x <= y <= |rest|
    ensures off + y <= |f| && f[off + x..off + y] == rest[x..y]
  {
    assert forall k :: x <= k < y ==> f[off + k] == rest[k];
  }

  /** `s.split(c)` for a one-character separator; `"".split(c) == [""]`. */
  function Split(s: string, c: char): (r: seq<string>)
    ensures |r| >= 1
    ensures forall k :: 0 <= k < |r| ==> c !in r[k]
  {
    if s == [] then [[]]
    else if s[0] == c then [[]] + Split(s[1..], c)
    else
      var t := Split(s[1..], c);
      [[s[0]] + t[0]] + t[1..]
  }

  /** Splitting at `c` and joining back with `c` gives back the text. */
  lemma {:induction false} JoinSplit(s: string, c: char)
    ensures Join(Split(s, c), [c]) == s
  {
    if s == [] {
    } else if s[0] == c {
      JoinSplit(s[1..], c);
    } else {
      JoinSplit(s[1..], c);
      var t := Split(s[1..], c);
      if |t| == 1 {
      } else {
        assert Join(t, [c]) == t[0] + [c] + Join(t[1..], [c]);
      }
    }
  }

  /**
   * Joining pieces that do not contain `c` with `c` and splitting the result
   * at `c` gives back the pieces (at least one piece: `"".join([])` is `""`,
   * which splits into `[""]`).
   */
  lemma {:induction false} SplitJoin(xs: seq<string>, c: char)
    requires xs != []
    requires forall k :: 0 <= k < |xs| ==> c !in xs[k]
    ensures Split(Join(xs, [c]), c) == xs
  {
    if |xs| == 1 {
      SplitNoSep(xs[0], [], c);
      assert xs[0] + [] == xs[0];
    } else {
      SplitJoin(xs[1..], c);
      SplitNoSep(xs[0], [c] + Join(xs[1..], [c]), c);
      assert xs[0] + [c] + Join(xs[1..], [c]) == xs[0] + ([c] + Join(xs[1..], [c]));
    }
  }

  /** A separator-free prefix becomes the first piece of the split. */
  lemma {:induction false} SplitNoSep(a: string, b: string, c: char)
    requires c !in a
    requires b == [] || b[0] == c
    ensures Split(a + b, c) == (if b == [] then [a] else [a] + Split(b[1..], c))
  {
    if a == [] {
      assert a + b == b;
    } else {
      SplitNoSep(a[1..], b, c);
      assert (a + b)[0] == a[0] != c;
      assert (a + b)[1..] == a[1..] + b;
      var t := Split(a[1..] + b, c);
      assert Split(a + b, c) == [[a[0]] + t[0]] + t[1..];
      assert [a[0]] + a[1..] == a;
    }
  }

  /**
   * An f-string: literal pieces with the interpolated values between them,
   * `pieces[0] + args[0] + pieces[1] + ... + args[n-1] + pieces[n]`.
   */
  function Fill(pieces: seq<string>, args: seq<string>): string
    requires |pieces| == |args| + 1
  {
    if args == [] then pieces[0] else pieces[0] + args[0] + Fill(pieces[1..], args[1..])
  }

  /** Where the `i`-th interpolated value starts in `Fill(pieces, args)`. */
  function FillPos(pieces: seq<string>, args: seq<string>, i: nat): nat
    requires |pieces| == |args| + 1 && i < |args|
  {
    if i == 0 then |pieces[0]| else |pieces[0]| + |args[0]| + FillPos(pieces[1..], args[1..], i - 1)
  }

  /** From the `i`-th value's literal piece on, the text is that piece, the value and the rest of the f-string. */
  lemma {:induction false} FillSuffix(pieces: seq<string>, args: seq<string>, i: nat)
    requires |pieces| == |args| + 1 && i < |args|
    ensures |pieces[i]| <= FillPos(pieces, args, i) <= |Fill(pieces, args)|
    ensures Fill(pieces, args)[FillPos(pieces, args, i) - |pieces[i]|..]
            == pieces[i] + args[i] + Fill(pieces[i + 1..], args[i + 1..])
  {
    var f := Fill(pieces, args);
    var rest := Fill(pieces[1..], args[1..]);
    assert f == pieces[0] + args[0] + rest;
    if i == 0 {
      assert pieces[1..] == pieces[i + 1..] && args[1..] == args[i + 1..];
    } else {
      FillSuffix(pieces[1..], args[1..], i - 1);
      var off := |pieces[0]| + |args[0]|;
      assert f[off..] == rest;
      assert pieces[1..][i - 1 + 1..] == pieces[i + 1..] && args[1..][i - 1 + 1..] == args[i + 1..];
      var p := FillPos(pieces[1..], args[1..], i - 1);
      assert f[off + p - |pieces[i]|..] == rest[p - |pieces[i]|..];
    }
  }

  /** An f-string begins with its first literal piece. */
  lemma FillStart(pieces: seq<string>, args: seq<string>)
    requires |pieces| == |args| + 1
    ensures Fill(pieces, args) == pieces[0] + Fill(pieces, args)[|pieces[0]|..]
  {
  }

  /** The three leading parts of a text made of `a + b + c + d`, read off a suffix of `f`. */
  lemma SliceThree(f: string, off: nat, a: string, b: string, c: string, d: string)
    requires off <= |f| && f[off..] == a + b + c + d
    ensures off + |a| + |b| + |c| <= |f|
    ensures f[off..off + |a|] == a
    ensures f[off + |a|..off + |a| + |b|] == b
    ensures f[off + |a| + |b|..off + |a| + |b| + |c|] == c
  {
    var t := a + b + c + d;
    SliceShift(f, t, off, 0, |a|);
    SliceShift(f, t, off, |a|, |a| + |b|);
    SliceShift(f, t, off, |a| + |b|, |a| + |b| + |c|);
    assert t[..|a|] == a;
    assert t[|a|..|a| + |b|] == b;
    assert t[|a| + |b|..|a| + |b| + |c|] == c;
  }

  /**
   * Each interpolated value appears verbatim at its position, immediately
   * preceded by its literal piece and followed by the next one.
   */
  lemma FillAt(pieces: seq<string>, args: seq<string>, i: nat)
    requires |pieces| == |args| + 1 && i < |args|
    ensures |pieces[i]| <= FillPos(pieces, args, i)
    ensures FillPos(pieces, args, i) + |args[i]| + |pieces[i + 1]| <= |Fill(pieces, args)|
    ensures Fill(pieces, args)[FillPos(pieces, args, i) - |pieces[i]|..FillPos(pieces, args, i)] == pieces[i]
    ensures Fill(pieces, args)[FillPos(pieces, args, i)..FillPos(pieces, args, i) + |args[i]|] == args[i]
    ensures Fill(pieces, args)[FillPos(pieces, args, i) + |args[i]|..FillPos(pieces, args, i) + |args[i]| + |pieces[i + 1]|]
            == pieces[i + 1]
  {
    FillSuffix(pieces, args, i);
    var next := Fill(pieces[i + 1..], args[i + 1..]);
    FillStart(pieces[i + 1..], args[i + 1..]);
    var p := FillPos(pieces, args, i);
    var a, b, c := pieces[i], args[i], pieces[i + 1];
    assert c == pieces[i + 1..][0];
    var d := next[|c|..];
    assert next == c + d;
    assert a + b + next == a + b + c + d;
    SliceThree(Fill(pieces, args), p - |a|, a, b, c, d);
  }

  /** Interpolated values are laid out in argument order, without overlap. */
  lemma {:induction false} FillPosOrdered(pieces: seq<string>, args: seq<string>, i: nat, k: nat)
    requires |pieces| == |args| + 1 && i < k < |args|
    ensures FillPos(pieces, args, i) + |args[i]| + |pieces[i + 1]| <= FillPos(pieces, args, k)
  {
    if i > 0 {
      FillPosOrdered(pieces[1..], args[1..], i - 1, k - 1);
    } else if k > 1 {
      FillPosOrdered(pieces[1..], args[1..], 0, k - 1);
    }
  }

  /**
   * Every value sits verbatim in `text` at the position where `Fill` puts
   * it, and the values follow one another without overlapping.
   */
  predicate Embeds(text: string, pieces: seq<string>, args: seq<string>)
    requires |pieces| == |args| + 1
  {
    (forall i :: 0 <= i < |args| ==>
      FillPos(pieces, args, i) + |args[i]| <= |text| &&
      text[FillPos(pieces, args, i)..FillPos(pieces, args, i) + |args[i]|] == args[i]) &&
    (forall i, k :: 0 <= i < k < |args| ==>
      FillPos(pieces, args, i) + |args[i]| <= FillPos(pieces, args, k))
  }

  /** Every interpolated value appears verbatim in the f-string, in argument order. */
  lemma FillEmbeds(pieces: seq<string>, args: seq<string>)
    requires |pieces| == |args| + 1
    ensures Embeds(Fill(pieces, args), pieces, args)
  {
    forall i | 0 <= i < |args|
      ensures FillPos(pieces, args, i) + |args[i]| <= |Fill(pieces, args)|
      ensures Fill(pieces, args)[FillPos(pieces, args, i)..FillPos(pieces, args, i) + |args[i]|] == args[i]
    {
      FillAt(pieces, args, i);
    }
    forall i, k | 0 <= i < k < |args|
      ensures FillPos(pieces, args, i) + |args[i]| <= FillPos(pieces, args, k)
    {
      FillPosOrdered(pieces, args, i, k);
    }
  }
}
