/** The two String.prototype operations the OCR post-processing uses: `trim()`
    and `split` on a one-character separator, plus `join`, the inverse of
    `split`, which serves as its specification. */
module JsString {
  import opened JsArray

  /** The characters `trim()` removes: ECMAScript's WhiteSpace (tab, vertical
      tab, form feed, space, no-break space, byte order mark and every Unicode
      space separator) and LineTerminator (line feed, carriage return, line
      separator, paragraph separator). */
  predicate IsWhitespace(c: char) {
    || c == '\t' || c == '\n' || c == '\U{B}' || c == '\U{C}' || c == '\r' || c == ' '
    || c == '\U{A0}' || c == '\U{1680}' || ('\U{2000}' <= c <= '\U{200A}')
    || c == '\U{2028}' || c == '\U{2029}' || c == '\U{202F}' || c == '\U{205F}'
    || c == '\U{3000}' || c == '\U{FEFF}'
  }

  predicate AllWhitespace(s: string) {
    forall i | 0 <= i < |s| :: IsWhitespace(s[i])
  }

  /** Neither starts nor ends with whitespace. */
  predicate IsTrimmed(s: string) {
    s == [] || (!IsWhitespace(s[0]) && !IsWhitespace(s[|s| - 1]))
  }

  /** `s.trimStart()`: what is left after the leading whitespace. */
  function TrimStart(s: string): string {
    if s != [] && IsWhitespace(s[0]) then TrimStart(s[1..]) else s
  }

  /** `s.trimEnd()`: what is left before the trailing whitespace. */
  function TrimEnd(s: string): string {
    if s != [] && IsWhitespace(s[|s| - 1]) then TrimEnd(s[..|s| - 1]) else s
  }

  /** `trimStart()` keeps a suffix, drops only whitespace, and leaves no
      whitespace at the front. */
  lemma {:induction false} TrimStartSpec(s: string)
    ensures var r := TrimStart(s);
      && |r| <= |s| && r == s[|s| - |r|..]
      && AllWhitespace(s[..|s| - |r|])
      && (r == [] || !IsWhitespace(r[0]))
  {
    if s != [] && IsWhitespace(s[0]) {
      var t := s[1..];
      TrimStartSpec(t);
      var r := TrimStart(t);
      assert TrimStart(s) == r;
      var n := |s| - |r|;
      assert r == s[n..] by { assert t[n - 1..] == s[n..]; }
      forall k | 0 <= k < n ensures IsWhitespace(s[k]) {
        if k > 0 { assert s[k] == t[..n - 1][k - 1]; }
      }
    }
  }

  /** `trimEnd()` keeps a prefix, drops only whitespace, and leaves no
      whitespace at the back. */
  lemma {:induction false} TrimEndSpec(s: string)
    ensures var r := TrimEnd(s);
      && |r| <= |s| && r == s[..|r|]
      && AllWhitespace(s[|r|..])
      && (r == [] || !IsWhitespace(r[|r| - 1]))
  {
    if s != [] && IsWhitespace(s[|s| - 1]) {
      TrimEndSpec(s[..|s| - 1]);
      var r := TrimEnd(s);
      assert s[|r|..] == s[..|s| - 1][|r|..] + [s[|s| - 1]];
    }
  }

  /** `s.trim()`. */
  function Trim(s: string): (r: string)
    ensures IsTrimmed(r)
  {
    TrimStartSpec(s);
    TrimEndSpec(TrimStart(s));
    TrimEnd(TrimStart(s))
  }

  /** `s.trim()` removes whitespace from the two ends and nothing else: the
      result is a slice of `s` with only whitespace before and after it. */
  lemma TrimIsSlice(s: string) returns (i: nat, j: nat)
    ensures i <= j <= |s|
    ensures Trim(s) == s[i..j]
    ensures AllWhitespace(s[..i]) && AllWhitespace(s[j..])
  {
    var t := TrimStart(s);
    TrimStartSpec(s);
    TrimEndSpec(t);
    i := |s| - |t|;
    j := i + |TrimEnd(t)|;
    assert t[|TrimEnd(t)|..] == s[j..];
  }

  /** `s.trim()` is empty exactly when `s` is whitespace only. */
  lemma TrimEmptyIff(s: string)
    ensures Trim(s) == [] <==> AllWhitespace(s)
  {
    var i, j := TrimIsSlice(s);
    if Trim(s) == [] {
      assert s == s[..i] + s[j..];
      forall k | 0 <= k < |s| ensures IsWhitespace(s[k]) {
        if k < i { assert s[k] == s[..i][k]; } else { assert s[k] == s[j..][k - j]; }
      }
    } else {
      assert s[i] == Trim(s)[0];
    }
  }

  /** Padding a trimmed string with whitespace and trimming gives it back;
      in particular `trim()` is idempotent (no padding, `t := Trim(s)`). */
  lemma {:induction false} TrimPadded(w1: string, t: string, w2: string)
    requires AllWhitespace(w1) && AllWhitespace(w2) && IsTrimmed(t)
    ensures Trim(w1 + t + w2) == t
  {
    var s := w1 + t + w2;
    if t == [] {
      assert s == w1 + w2;
      assert AllWhitespace(s) by {
        forall k | 0 <= k < |s| ensures IsWhitespace(s[k]) {
          if k >= |w1| { assert s[k] == w2[k - |w1|]; }
        }
      }
      TrimEmptyIff(s);
    } else {
      TrimStartPadded(w1, t + w2);
      assert s == w1 + (t + w2);
      TrimEndPadded(t, w2);
    }
  }

  lemma {:induction false} TrimStartPadded(w: string, u: string)
    requires AllWhitespace(w)
    requires u == [] || !IsWhitespace(u[0])
    ensures TrimStart(w + u) == u
  {
    if w != [] {
      assert (w + u)[1..] == w[1..] + u;
      TrimStartPadded(w[1..], u);
    } else {
      assert w + u == u;
    }
  }

  lemma {:induction false} TrimEndPadded(t: string, w: string)
    requires AllWhitespace(w)
    requires t == [] || !IsWhitespace(t[|t| - 1])
    ensures TrimEnd(t + w) == t
  {
    if w != [] {
      assert (t + w)[..|t + w| - 1] == t + w[..|w| - 1];
      TrimEndPadded(t, w[..|w| - 1]);
    } else {
      assert t + w == t;
    }
  }

  /** `s.split(sep)`. Like JavaScript's, it always yields at least one piece,
      and the empty string splits into one empty piece. */
  function Split(s: string, sep: char): (pieces: seq<string>)
    ensures |pieces| >= 1
  {
    if s == [] then [[]]
    else
      var rest := Split(s[1..], sep);
      if s[0] == sep then [[]] + rest else [[s[0]] + rest[0]] + rest[1..]
  }

  /** `pieces.join(sep)`. */
  function Join(pieces: seq<string>, sep: char): string {
    if pieces == [] then []
    else if |pieces| == 1 then pieces[0]
    else pieces[0] + [sep] + Join(pieces[1..], sep)
  }

  /** No piece produced by `split` contains the separator. */
  lemma {:induction false} SplitPiecesHaveNoSeparator(s: string, sep: char)
    ensures forall p | p in Split(s, sep) :: sep !in p
  {
    if s != [] {
      SplitPiecesHaveNoSeparator(s[1..], sep);
      var rest := Split(s[1..], sep);
      if s[0] != sep {
        assert rest[0] in rest;
        forall p | p in Split(s, sep) ensures sep !in p {
          if p != [s[0]] + rest[0] {
            assert p in rest[1..];
          }
        }
      }
    }
  }

  /** Joining the pieces of `s.split(sep)` with `sep` gives `s` back. */
  lemma {:induction false} JoinSplit(s: string, sep: char)
    ensures Join(Split(s, sep), sep) == s
  {
    if s != [] {
      JoinSplit(s[1..], sep);
      var rest := Split(s[1..], sep);
      if s[0] == sep {
        assert Split(s, sep)[1..] == rest;
        assert s == [s[0]] + s[1..];
      } else {
        var pieces := Split(s, sep);
        assert pieces[1..] == rest[1..];
        if |rest| == 1 {
          assert s == [s[0]] + rest[0];
        } else {
          assert Join(rest, sep) == rest[0] + [sep] + Join(rest[1..], sep);
          assert s == [s[0]] + s[1..];
        }
      }
    }
  }

  /** Splitting a join of pieces that do not contain the separator gives the
      pieces back: with JoinSplit, `split` is fully determined. */
  lemma {:induction false} SplitJoin(pieces: seq<string>, sep: char)
    requires |pieces| >= 1
    requires forall p | p in pieces :: sep !in p
    ensures Split(Join(pieces, sep), sep) == pieces
  {
    if |pieces| == 1 {
      SplitNoSeparator(pieces[0], sep);
    } else {
      SplitJoin(pieces[1..], sep);
      SplitAfterPiece(pieces[0], Join(pieces[1..], sep), sep);
      assert pieces == [pieces[0]] + pieces[1..];
    }
  }

  lemma {:induction false} SplitNoSeparator(p: string, sep: char)
    requires sep !in p
    ensures Split(p, sep) == [p]
  {
    if p != [] {
      SplitNoSeparator(p[1..], sep);
      assert p == [p[0]] + p[1..];
    }
  }

  lemma {:induction false} SplitAfterPiece(p: string, t: string, sep: char)
    requires sep !in p
    ensures Split(p + [sep] + t, sep) == [p] + Split(t, sep)
  {
    if p == [] {
      assert (p + [sep] + t)[1..] == t;
    } else {
      assert (p + [sep] + t)[1..] == p[1..] + [sep] + t;
      SplitAfterPiece(p[1..], t, sep);
      assert p == [p[0]] + p[1..];
    }
  }

  predicate IsVisible(c: char) {
    !IsWhitespace(c)
  }

  /** The non-whitespace characters of `s`, in order. */
  function Visible(s: string): string {
    Filter(s, IsVisible)
  }

  lemma {:induction false} VisibleAppend(a: string, b: string)
    ensures Visible(a + b) == Visible(a) + Visible(b)
  {
    FilterAppend(a, b, IsVisible);
  }

  /** A string that is whitespace only has no visible characters. */
  lemma VisibleOfBlank(s: string)
    requires AllWhitespace(s)
    ensures Visible(s) == []
  {
    FilterNone(s, IsVisible);
  }

  /** `trim()` never removes a visible character. */
  lemma TrimKeepsVisible(s: string)
    ensures Visible(Trim(s)) == Visible(s)
  {
    var i, j := TrimIsSlice(s);
    assert s == s[..i] + s[i..j] + s[j..];
    VisibleAppend(s[..i] + s[i..j], s[j..]);
    VisibleAppend(s[..i], s[i..j]);
    VisibleOfBlank(s[..i]);
    VisibleOfBlank(s[j..]);
  }

  /** The visible characters of a join are those of its pieces, since the
      separator is whitespace. */
  lemma {:induction false} VisibleJoin(pieces: seq<string>, sep: char)
    requires IsWhitespace(sep) && |pieces| >= 2
    ensures Visible(Join(pieces, sep)) == Visible(pieces[0]) + Visible(Join(pieces[1..], sep))
  {
    assert Join(pieces, sep) == pieces[0] + [sep] + Join(pieces[1..], sep);
    VisibleAroundBlank(pieces[0], sep, Join(pieces[1..], sep));
  }

  lemma {:induction false} VisibleAroundBlank(a: string, sep: char, b: string)
    requires IsWhitespace(sep)
    ensures Visible(a + [sep] + b) == Visible(a) + Visible(b)
  {
    VisibleAppend(a, [sep]);
    VisibleOfBlank([sep]);
    assert Visible(a + [sep]) == Visible(a) by {
      assert Visible(a) + [] == Visible(a);
    }
    VisibleAppend(a + [sep], b);
  }
}
