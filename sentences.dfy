/**
 * The sentence extractor of the reader's page renderer (src/App.jsx, renderPage):
 * the text fragments of one page are joined with single spaces, every run of
 * whitespace is collapsed to one space, the text is split after a `.`, `!` or `?`
 * that is followed by whitespace, and only pieces longer than five UTF-16 code units once
 * trimmed are kept.
 */
module Sentences {
  import opened Common

  /** The characters matched by JavaScript's `\s` and removed by `String.prototype.trim`. */
  predicate IsSpace(c: char) {
    || c == ' ' || ('\t' <= c <= '\r') || c == '\U{00A0}' || c == '\U{1680}'
    || ('\U{2000}' <= c <= '\U{200A}') || c == '\U{2028}' || c == '\U{2029}'
    || c == '\U{202F}' || c == '\U{205F}' || c == '\U{3000}' || c == '\U{FEFF}'
  }

  /** Sentence-terminal punctuation, the class `[.!?]` of the split pattern. */
  predicate IsTerminal(c: char) {
    c == '.' || c == '!' || c == '?'
  }

  /** `Array.prototype.join(sep)` on strings. */
  function JoinWith(parts: seq<string>, sep: string): string
    decreases |parts|
  {
    if |parts| == 0 then ""
    else if |parts| == 1 then parts[0]
    else parts[0] + sep + JoinWith(parts[1..], sep)
  }

  // ----- collapsing whitespace: `.replace(/\s+/g, ' ')` -----

  /** Drops the leading run of whitespace. */
  function DropSpaces(s: string): (r: string)
    ensures |r| <= |s| && r == s[|s| - |r|..]
    ensures r == [] || !IsSpace(r[0])
    ensures forall k :: 0 <= k < |s| - |r| ==> IsSpace(s[k])
    decreases |s|
  {
    if s != [] && IsSpace(s[0]) then DropSpaces(s[1..]) else s
  }

  /** Replaces every maximal run of whitespace by a single space. */
  function Collapse(s: string): (r: string)
    decreases |s|
  {
    if s == [] then []
    else if IsSpace(s[0]) then [' '] + Collapse(DropSpaces(s[1..]))
    else [s[0]] + Collapse(s[1..])
  }

  /** The only whitespace is the plain space, and no two spaces are adjacent. */
  ghost predicate Collapsed(s: string) {
    && (forall k :: 0 <= k < |s| && IsSpace(s[k]) ==> s[k] == ' ')
    && (forall k :: 0 <= k < |s| ==> !DoubleSpace(s, k))
  }

  /** Positions `k - 1` and `k` both hold a space. */
  predicate DoubleSpace(s: string, k: int)
    requires 0 <= k < |s|
  {
    k > 0 && s[k - 1] == ' ' && s[k] == ' '
  }

  /** The characters of `s` that are not whitespace, in order. */
  function Visible(s: string): string
    decreases |s|
  {
    if s == [] then [] else (if IsSpace(s[0]) then [] else [s[0]]) + Visible(s[1..])
  }

  lemma {:induction false} VisibleAppend(a: string, b: string)
    ensures Visible(a + b) == Visible(a) + Visible(b)
    decreases |a|
  {
    if a != [] {
      assert (a + b)[1..] == a[1..] + b;
      VisibleAppend(a[1..], b);
    } else {
      assert a + b == b;
    }
  }

  lemma {:induction false} VisibleOfSpaces(s: string, n: nat)
    requires n <= |s|
    requires forall k :: 0 <= k < n ==> IsSpace(s[k])
    ensures Visible(s) == Visible(s[n..])
    decreases n
  {
    if n > 0 {
      VisibleOfSpaces(s[1..], n - 1);
      assert s[1..][n - 1..] == s[n..];
    }
  }

  /** The collapsed text has only single plain spaces and starts with the first character's kind. */
  lemma {:induction false} CollapseIsCollapsed(s: string)
    ensures Collapsed(Collapse(s))
    ensures |Collapse(s)| > 0 ==> (IsSpace(Collapse(s)[0]) <==> IsSpace(s[0]))
    ensures |Collapse(s)| == 0 <==> |s| == 0
    decreases |s|
  {
    if s == [] {
    } else if IsSpace(s[0]) {
      var t := DropSpaces(s[1..]);
      CollapseIsCollapsed(t);
      var r := Collapse(t);
      assert r != [] ==> r[0] != ' ' by {
        if r != [] { assert !IsSpace(t[0]); }
      }
      var r' := [' '] + r;
      assert Collapse(s) == r';
      forall k | 0 <= k < |r'| ensures !DoubleSpace(r', k) {
        if k > 1 { assert !DoubleSpace(r, k - 1); }
      }
    } else {
      CollapseIsCollapsed(s[1..]);
      var r := Collapse(s[1..]);
      var r' := [s[0]] + r;
      assert Collapse(s) == r';
      forall k | 0 <= k < |r'| ensures !DoubleSpace(r', k) {
        if k > 1 { assert !DoubleSpace(r, k - 1); }
      }
    }
  }

  /** Collapsing keeps every visible character, in order. */
  lemma {:induction false} CollapseKeepsVisible(s: string)
    ensures Visible(Collapse(s)) == Visible(s)
    decreases |s|
  {
    if s == [] {
    } else if IsSpace(s[0]) {
      var t := DropSpaces(s[1..]);
      CollapseKeepsVisible(t);
      VisibleAppend([' '], Collapse(t));
      VisibleOfSpaces(s[1..], |s[1..]| - |t|);
      VisibleAppend([s[0]], s[1..]);
      assert [s[0]] + s[1..] == s;
    } else {
      CollapseKeepsVisible(s[1..]);
      VisibleAppend([s[0]], Collapse(s[1..]));
      VisibleAppend([s[0]], s[1..]);
      assert [s[0]] + s[1..] == s;
    }
  }

  /** Collapsing an already collapsed text changes nothing. */
  lemma {:induction false} CollapseFixesCollapsed(s: string)
    requires Collapsed(s)
    ensures Collapse(s) == s
    decreases |s|
  {
    if s != [] {
      assert forall k :: 0 <= k < |s[1..]| ==> DoubleSpace(s[1..], k) ==> DoubleSpace(s, k + 1);
      assert Collapsed(s[1..]);
      CollapseFixesCollapsed(s[1..]);
      if IsSpace(s[0]) {
        assert s[1..] == [] || s[1] != ' ' by {
          if |s| > 1 { assert !DoubleSpace(s, 1); }
        }
        assert DropSpaces(s[1..]) == s[1..];
      }
    }
  }

  // ----- splitting: `.split(/(?<=[.!?])\s+/)` -----

  /** Position `i` starts a separator: whitespace right after terminal punctuation. */
  predicate IsBoundary(s: string, i: int)
    requires 0 <= i < |s|
  {
    i > 0 && IsTerminal(s[i - 1]) && IsSpace(s[i])
  }

  /** No character of the piece is whitespace following terminal punctuation. */
  ghost predicate Unbroken(p: string) {
    forall k :: 0 <= k < |p| ==> !IsBoundary(p, k)
  }

  /**
   * The pieces from `start`, scanning at `i`; the current piece is `s[start..i]`.
   * A separator is a greedy run of whitespace; the punctuation stays with the piece
   * before it, and a separator at the very end leaves an empty last piece.
   */
  function SplitFrom(s: string, start: nat, i: nat): (r: seq<string>)
    requires start <= i <= |s|
    ensures |r| > 0
    decreases |s| - i
  {
    if i == |s| then [s[start..]]
    else if IsBoundary(s, i) then [s[start..i]] + SplitFrom(s, EndOfSeparator(s, i), EndOfSeparator(s, i))
    else SplitFrom(s, start, i + 1)
  }

  /** Every piece is unbroken, and every piece but the last ends in terminal punctuation. */
  lemma {:induction false} SplitFromPieces(s: string, start: nat, i: nat)
    requires start <= i <= |s|
    requires start == 0 || IsSpace(s[start - 1])
    requires forall k :: start < k < i ==> !IsBoundary(s, k)
    ensures Pieces(SplitFrom(s, start, i))
    decreases |s| - i
  {
    if i == |s| {
      PieceUnbroken(s, start, i);
      assert s[start..i] == s[start..];
      PiecesOne(s[start..]);
    } else if IsBoundary(s, i) {
      var j := EndOfSeparator(s, i);
      PieceUnbroken(s, start, i);
      PieceEnds(s, start, i);
      SplitFromPieces(s, j, j);
      PiecesCons(s[start..i], SplitFrom(s, j, j));
    } else {
      assert forall k :: start < k < i + 1 ==> !IsBoundary(s, k);
      SplitFromPieces(s, start, i + 1);
    }
  }

  /** A stretch that stops right after terminal punctuation ends with it. */
  lemma PieceEnds(s: string, start: nat, i: nat)
    requires start <= i < |s| && IsBoundary(s, i)
    requires start == 0 || IsSpace(s[start - 1])
    ensures var p := s[start..i]; |p| > 0 && IsTerminal(p[|p| - 1])
  {
    assert s[start..i][i - start - 1] == s[i - 1];
  }

  /** Well-formed pieces: unbroken, and all but the last end in terminal punctuation. */
  ghost predicate Pieces(r: seq<string>) {
    && (forall m :: 0 <= m < |r| ==> Unbroken(r[m]))
    && (forall m :: 0 <= m < |r| - 1 ==> |r[m]| > 0 && IsTerminal(r[m][|r[m]| - 1]))
  }

  lemma PiecesOne(p: string)
    requires Unbroken(p)
    ensures Pieces([p])
  {
  }

  lemma PiecesCons(p: string, rest: seq<string>)
    requires Unbroken(p) && |p| > 0 && IsTerminal(p[|p| - 1])
    requires Pieces(rest)
    ensures Pieces([p] + rest)
  {
    var r := [p] + rest;
    forall m | 1 <= m < |r| ensures r[m] == rest[m - 1] { }
  }

  /** The index just past the run of whitespace that starts at `i`. */
  function EndOfSeparator(s: string, i: nat): (j: nat)
    requires i < |s| && IsSpace(s[i])
    ensures i < j <= |s| && IsSpace(s[j - 1])
    ensures j == |s| || !IsSpace(s[j])
    ensures forall k :: i <= k < j ==> IsSpace(s[k])
  {
    var t := DropSpaces(s[i..]);
    assert s[i..][0] == s[i];
    |s| - |t|
  }

  /** A scanned stretch with no separator inside is an unbroken piece. */
  lemma PieceUnbroken(s: string, start: nat, i: nat)
    requires start <= i <= |s|
    requires forall k :: start < k < i ==> !IsBoundary(s, k)
    ensures Unbroken(s[start..i])
  {
    var p := s[start..i];
    forall k | 0 <= k < |p|
      ensures !IsBoundary(p, k)
    {
      if k > 0 { assert !IsBoundary(s, start + k); }
    }
  }

  /** `.split(/(?<=[.!?])\s+/)`. */
  function Split(s: string): seq<string> {
    SplitFrom(s, 0, 0)
  }

  lemma SplitPieces(s: string)
    ensures Pieces(Split(s))
  {
    SplitFromPieces(s, 0, 0);
  }

  lemma {:induction false} JoinCons(p: string, rest: seq<string>, sep: string)
    requires |rest| > 0
    ensures JoinWith([p] + rest, sep) == p + sep + JoinWith(rest, sep)
  {
    assert ([p] + rest)[1..] == rest;
  }

  /** In collapsed text a separator is one plain space. */
  lemma OneSpaceSeparator(s: string, i: nat)
    requires Collapsed(s) && i < |s| && IsSpace(s[i])
    ensures EndOfSeparator(s, i) == i + 1 && s[i] == ' '
  {
    var j := EndOfSeparator(s, i);
    if j > i + 1 {
      assert IsSpace(s[i + 1]) && DoubleSpace(s, i + 1);
    }
  }

  lemma AroundSeparator(s: string, start: nat, i: nat)
    requires start <= i < |s|
    ensures s[start..i] + [s[i]] + s[i + 1..] == s[start..]
  {
  }

  /** On collapsed text the pieces joined by single spaces give back the text. */
  lemma {:induction false} SplitFromRejoins(s: string, start: nat, i: nat)
    requires Collapsed(s)
    requires start <= i <= |s|
    ensures JoinWith(SplitFrom(s, start, i), " ") == s[start..]
    decreases |s| - i
  {
    if i == |s| {
    } else if IsBoundary(s, i) {
      OneSpaceSeparator(s, i);
      var rest := SplitFrom(s, i + 1, i + 1);
      assert SplitFrom(s, start, i) == [s[start..i]] + rest;
      SplitFromRejoins(s, i + 1, i + 1);
      JoinCons(s[start..i], rest, " ");
      AroundSeparator(s, start, i);
    } else {
      SplitFromRejoins(s, start, i + 1);
    }
  }

  lemma SplitRejoins(s: string)
    requires Collapsed(s)
    ensures JoinWith(Split(s), " ") == s
  {
    SplitFromRejoins(s, 0, 0);
  }

  // ----- filtering: `.filter(s => s.trim().length > 5)` -----

  function TrimStart(s: string): string
    decreases |s|
  {
    if s != [] && IsSpace(s[0]) then TrimStart(s[1..]) else s
  }

  function TrimEnd(s: string): string
    decreases |s|
  {
    if s != [] && IsSpace(s[|s| - 1]) then TrimEnd(s[..|s| - 1]) else s
  }

  /** `String.prototype.trim`. */
  function Trim(s: string): string {
    TrimEnd(TrimStart(s))
  }

  /** Drops exactly the leading whitespace: what is left starts with a visible character. */
  lemma {:induction false} TrimStartDrops(s: string)
    ensures |TrimStart(s)| <= |s| && TrimStart(s) == s[|s| - |TrimStart(s)|..]
    ensures TrimStart(s) == [] || !IsSpace(TrimStart(s)[0])
    ensures forall k :: 0 <= k < |s| - |TrimStart(s)| ==> IsSpace(s[k])
    decreases |s|
  {
    if s != [] && IsSpace(s[0]) {
      TrimStartDrops(s[1..]);
    }
  }

  /** Drops exactly the trailing whitespace: what is left ends with a visible character. */
  lemma {:induction false} TrimEndDrops(s: string)
    ensures |TrimEnd(s)| <= |s| && TrimEnd(s) == s[..|TrimEnd(s)|]
    ensures TrimEnd(s) == [] || !IsSpace(TrimEnd(s)[|TrimEnd(s)| - 1])
    ensures forall k :: |TrimEnd(s)| <= k < |s| ==> IsSpace(s[k])
    decreases |s|
  {
    if s != [] && IsSpace(s[|s| - 1]) {
      TrimEndDrops(s[..|s| - 1]);
    }
  }

  /** Trimming removes only whitespace, and none is left at either end. */
  lemma TrimKeepsVisible(s: string)
    ensures Trim(s) == [] || (!IsSpace(Trim(s)[0]) && !IsSpace(Trim(s)[|Trim(s)| - 1]))
    ensures Visible(Trim(s)) == Visible(s)
  {
    var t := TrimStart(s);
    var r := TrimEnd(t);
    TrimStartDrops(s);
    TrimEndDrops(t);
    assert Visible(s) == Visible(t) by {
      VisibleOfSpaces(s, |s| - |t|);
    }
    var tail := t[|r|..];
    assert Visible(tail) == [] by {
      forall k | 0 <= k < |tail| ensures IsSpace(tail[k]) {
        assert tail[k] == t[|r| + k];
      }
      VisibleOfSpaces(tail, |tail|);
      assert tail[|tail|..] == [];
    }
    assert t == r + tail;
    VisibleAppend(r, tail);
  }

  /** The filter's test: more than five UTF-16 code units (`length`) once trimmed. */
  predicate Substantial(p: string) {
    |Utf16(Trim(p))| > 5
  }

  /** The in-order sub-list of the substantial pieces; pieces are stored untrimmed. */
  function Keep(pieces: seq<string>): (r: seq<string>)
    ensures |r| <= |pieces|
    ensures forall p :: p in r ==> p in pieces && Substantial(p)
    ensures forall p :: p in pieces && Substantial(p) ==> p in r
    decreases |pieces|
  {
    if pieces == [] then []
    else (if Substantial(pieces[0]) then [pieces[0]] else []) + Keep(pieces[1..])
  }

  /**
   * The length is counted in code units: four characters, two of them past U+FFFF, make
   * a piece of length six, which is kept.
   */
  lemma KeepCountsCodeUnits()
    ensures Keep(["\U{1D465}=\U{1D466}."]) == ["\U{1D465}=\U{1D466}."]
  {
    var p := "\U{1D465}=\U{1D466}.";
    assert Trim(p) == p by {
      assert TrimStart(p) == p;
      assert TrimEnd(p) == p;
    }
    assert Utf16(p) == Units(p[0]) + Utf16(p[1..]);
    assert Utf16(p[2..]) == Units(p[2]) + Utf16(p[3..]);
    assert |Utf16(p)| == 6;
  }

  /** Filtering distributes over concatenation, so it keeps the order of the pieces. */
  lemma {:induction false} KeepAppend(a: seq<string>, b: seq<string>)
    ensures Keep(a + b) == Keep(a) + Keep(b)
    decreases |a|
  {
    if a != [] {
      assert (a + b)[1..] == a[1..] + b;
      KeepAppend(a[1..], b);
    } else {
      assert a + b == b;
    }
  }

  // ----- the whole extractor -----

  /** The sentence list of a page whose text items have the strings `fragments`. */
  function Extract(fragments: seq<string>): seq<string> {
    Keep(Split(Collapse(JoinWith(fragments, " "))))
  }

  /**
   * Every extracted sentence is substantial, holds no separator, and is one of the
   * split pieces of the collapsed page text.
   */
  lemma ExtractedSentences(fragments: seq<string>)
    ensures forall p :: p in Extract(fragments) ==>
      && Substantial(p) && Unbroken(p)
      && p in Split(Collapse(JoinWith(fragments, " ")))
  {
    SplitPieces(Collapse(JoinWith(fragments, " ")));
  }

  /**
   * The split pieces of the page text, joined by single spaces, give back the collapsed
   * text, which keeps every visible character of the fragments in order.
   */
  lemma PageTextRejoins(fragments: seq<string>)
    ensures var text := Collapse(JoinWith(fragments, " "));
      && JoinWith(Split(text), " ") == text
      && Visible(text) == Visible(JoinWith(fragments, " "))
  {
    var joined := JoinWith(fragments, " ");
    CollapseIsCollapsed(joined);
    SplitRejoins(Collapse(joined));
    CollapseKeepsVisible(joined);
  }
}
