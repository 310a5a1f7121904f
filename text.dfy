/** Text helpers shared by every part of the model: Python's whitespace class,
    strip / split / join, ASCII lower-casing, substring search, truncation and
    first-seen de-duplication. Each function is the Python (or JavaScript)
    built-in it is named after, restricted to what the core uses. */
module Text {

  datatype Option<T> = None | Some(value: T)

  // ---------------------------------------------------------------------
  // Characters

  /** The characters for which Python's str.isspace() holds; the regular
      expression class `\s` matches the same set on str patterns. */
  predicate IsSpace(c: char) {
    || c == ' ' || c == '\t' || c == '\n' || c == '\r' || c == '\U{000B}' || c == '\U{000C}'
    || ('\U{001C}' <= c <= '\U{001F}') || c == '\U{0085}' || c == '\U{00A0}' || c == '\U{1680}'
    || ('\U{2000}' <= c <= '\U{200A}') || c == '\U{2028}' || c == '\U{2029}' || c == '\U{202F}'
    || c == '\U{205F}' || c == '\U{3000}'
  }

  /** `\w` of a regular expression, restricted to ASCII letters, digits and `_`. */
  predicate IsWordChar(c: char) {
    ('a' <= c <= 'z') || ('A' <= c <= 'Z') || ('0' <= c <= '9') || c == '_'
  }

  predicate IsDigit(c: char) { '0' <= c <= '9' }

  function LowerChar(c: char): (r: char)
    ensures IsSpace(r) <==> IsSpace(c)
    ensures IsWordChar(r) <==> IsWordChar(c)
  {
    if 'A' <= c <= 'Z' then (c as int + 32) as char else c
  }

  /** str.lower() on ASCII letters; every other character is kept. */
  function Lower(s: string): (r: string)
    ensures |r| == |s|
    ensures forall i :: 0 <= i < |s| ==> r[i] == LowerChar(s[i])
  {
    seq(|s|, i requires 0 <= i < |s| => LowerChar(s[i]))
  }

  lemma LowerIdempotent(s: string)
    ensures Lower(Lower(s)) == Lower(s)
  {
  }

  lemma LowerConcat(a: string, b: string)
    ensures Lower(a + b) == Lower(a) + Lower(b)
  {
  }

  // ---------------------------------------------------------------------
  // Substrings

  /** `p` occurs in `s` at index `i`. */
  predicate At(s: string, i: int, p: string) {
    0 <= i && i + |p| <= |s| && s[i..i + |p|] == p
  }

  /** Python's `p in s` on strings. */
  predicate Contains(s: string, p: string) {
    exists i | 0 <= i <= |s| - |p| :: At(s, i, p)
  }

  /** Python's s.startswith(p). */
  predicate StartsWith(s: string, p: string) {
    |p| <= |s| && s[..|p|] == p
  }

  /** Python's s.endswith(p). */
  predicate EndsWith(s: string, p: string) {
    |p| <= |s| && s[|s| - |p|..] == p
  }

  /** A char-by-char form of At, convenient on literal strings. */
  lemma AtByChars(s: string, i: int, p: string)
    requires 0 <= i && i + |p| <= |s|
    requires forall k :: 0 <= k < |p| ==> s[i + k] == p[k]
    ensures At(s, i, p)
  {
    assert s[i..i + |p|] == p;
  }

  lemma ContainsWitness(s: string, i: int, p: string)
    requires At(s, i, p)
    ensures Contains(s, p)
  {
  }

  /** A phrase whose first character does not occur in `s` is not in `s`. */
  lemma NotContainsByHead(s: string, p: string)
    requires p != []
    requires forall i :: 0 <= i < |s| ==> s[i] != p[0]
    ensures !Contains(s, p)
  {
    forall i | 0 <= i <= |s| - |p| ensures !At(s, i, p) {
      assert s[i..i + |p|][0] == s[i];
    }
  }

  /** A phrase whose first two characters never occur side by side in `s` is not in `s`. */
  lemma NotContainsByPair(s: string, p: string)
    requires |p| >= 2
    requires forall i :: 0 <= i < |s| - 1 ==> !(s[i] == p[0] && s[i + 1] == p[1])
    ensures !Contains(s, p)
  {
    forall i | 0 <= i <= |s| - |p| ensures !At(s, i, p) {
      assert s[i..i + |p|][0] == s[i] && s[i..i + |p|][1] == s[i + 1];
    }
  }

  /** Number of occurrences of the character `c`: str.count for one character. */
  function CountChar(s: string, c: char): (n: nat)
    ensures n <= |s|
    ensures n == 0 <==> forall i :: 0 <= i < |s| ==> s[i] != c
  {
    if s == [] then 0 else (if s[|s| - 1] == c then 1 else 0) + CountChar(s[..|s| - 1], c)
  }

  lemma CountCharConcat(a: string, b: string, c: char)
    ensures CountChar(a + b, c) == CountChar(a, c) + CountChar(b, c)
    decreases |b|
  {
    if b == [] {
      assert a + b == a;
    } else {
      assert (a + b)[..|a + b| - 1] == a + b[..|b| - 1];
      CountCharConcat(a, b[..|b| - 1], c);
    }
  }

  /** Python's s[:n] for a non-negative n. */
  function Take(s: string, n: nat): (r: string)
    ensures |r| <= n && |r| <= |s|
    ensures r == s[..|r|]
    ensures |s| <= n ==> r == s
  {
    if |s| <= n then s else s[..n]
  }

  /** Python's s[:n] on a list, for a non-negative n. */
  function First<T>(s: seq<T>, n: nat): (r: seq<T>)
    ensures |r| <= n && r <= s
    ensures |s| <= n ==> r == s
    ensures n <= |s| ==> |r| == n
  {
    if |s| <= n then s else s[..n]
  }

  /** JavaScript's str.slice(-n) for n > 0: the last n characters. */
  function TakeLast(s: string, n: nat): (r: string)
    ensures |r| <= n && |r| <= |s| && r == s[|s| - |r|..]
    ensures |s| <= n ==> r == s
  {
    if |s| <= n then s else s[|s| - n..]
  }

  // ---------------------------------------------------------------------
  // Strip, split and join

  /** str.lstrip() */
  function LStrip(s: string): (r: string)
    ensures |r| <= |s| && r == s[|s| - |r|..]
    ensures r == [] || !IsSpace(r[0])
    ensures forall i :: 0 <= i < |s| - |r| ==> IsSpace(s[i])
  {
    if s != [] && IsSpace(s[0]) then LStrip(s[1..]) else s
  }

  /** str.rstrip() */
  function RStrip(s: string): (r: string)
    ensures |r| <= |s| && r == s[..|r|]
    ensures r == [] || !IsSpace(r[|r| - 1])
    ensures forall i :: |r| <= i < |s| ==> IsSpace(s[i])
  {
    if s != [] && IsSpace(s[|s| - 1]) then RStrip(s[..|s| - 1]) else s
  }

  /** str.strip() */
  function Strip(s: string): (r: string)
    ensures r == [] || (!IsSpace(r[0]) && !IsSpace(r[|r| - 1]))
    ensures |r| <= |s|
  {
    LStrip(RStrip(s))
  }

  /** A string is blank when it holds nothing but whitespace. */
  predicate IsBlank(s: string) {
    forall i :: 0 <= i < |s| ==> IsSpace(s[i])
  }

  lemma StripEmptyIffBlank(s: string)
    ensures Strip(s) == [] <==> IsBlank(s)
  {
    var r := RStrip(s);
    if Strip(s) == [] {
      forall i | 0 <= i < |s| ensures IsSpace(s[i]) {
        if i < |r| {
          assert IsSpace(r[i]);
        }
      }
    }
  }

  /** Collapsing the whitespace of a text leaves nothing exactly when the text is
      blank. */
  lemma CollapseEmptyIffBlank(s: string)
    ensures Collapse(s) == [] <==> IsBlank(s)
  {
    JoinShape(Words(s));
    var t := LStrip(s);
    if t != [] {
      assert !IsSpace(s[|s| - |t|]);
    }
  }

  /** Trailing whitespace makes no difference to strip(). */
  lemma {:induction false} RStripBlankSuffix(a: string, w: string)
    requires IsBlank(w)
    ensures RStrip(a + w) == RStrip(a) && Strip(a + w) == Strip(a)
    decreases |w|
  {
    if w == [] {
      assert a + w == a;
    } else {
      var w' := w[..|w| - 1];
      assert (a + w)[..|a + w| - 1] == a + w';
      RStripBlankSuffix(a, w');
    }
  }

  /** strip() keeps a first character that is not whitespace. */
  lemma StripHead(s: string)
    requires s != [] && !IsSpace(s[0])
    ensures Strip(s) != [] && Strip(s)[0] == s[0]
  {
    var r := RStrip(s);
    assert r[0] == s[0];
  }

  lemma StripOfStripped(s: string)
    requires s == [] || (!IsSpace(s[0]) && !IsSpace(s[|s| - 1]))
    ensures Strip(s) == s
  {
  }

  /** Stripping twice is stripping once. */
  lemma StripIdempotent(s: string)
    ensures Strip(Strip(s)) == Strip(s)
  {
    StripOfStripped(Strip(s));
  }

  /** A word: a non-empty run of non-whitespace characters. */
  predicate IsWord(w: string) {
    w != [] && forall i :: 0 <= i < |w| ==> !IsSpace(w[i])
  }

  /** Length of the leading run of non-whitespace characters. */
  function WordEnd(s: string): (n: nat)
    ensures n <= |s|
    ensures n < |s| ==> IsSpace(s[n])
    ensures forall i :: 0 <= i < n ==> !IsSpace(s[i])
    ensures s != [] && !IsSpace(s[0]) ==> n >= 1
  {
    if s == [] || IsSpace(s[0]) then 0 else 1 + WordEnd(s[1..])
  }

  /** str.split() without a separator: the maximal runs of non-whitespace. */
  function Words(s: string): (ws: seq<string>)
    ensures forall w <- ws :: IsWord(w)
    decreases |s|
  {
    var t := LStrip(s);
    if t == [] then []
    else
      var n := WordEnd(t);
      [t[..n]] + Words(t[n..])
  }

  /** sep.join(ws) */
  function Join(ws: seq<string>, sep: string): (r: string)
  {
    if ws == [] then [] else if |ws| == 1 then ws[0] else ws[0] + sep + Join(ws[1..], sep)
  }

  /** " ".join(s.split()): trims the text and turns every whitespace run into one space. */
  function Collapse(s: string): string {
    Join(Words(s), " ")
  }

  lemma WordEndOfWord(w: string, rest: string)
    requires IsWord(w)
    requires rest == [] || IsSpace(rest[0])
    ensures WordEnd(w + rest) == |w|
  {
    var s := w + rest;
    assert forall i :: 0 <= i < |w| ==> s[i] == w[i];
    assert |w| < |s| ==> s[|w|] == rest[0];
  }

  lemma WordsOfSpacePrefix(x: string)
    ensures Words(" " + x) == Words(x)
  {
    assert (" " + x)[1..] == x;
  }

  /** Splitting words that were joined by single spaces gives the words back. */
  lemma {:induction false} WordsOfJoin(ws: seq<string>)
    requires forall w <- ws :: IsWord(w)
    ensures Words(Join(ws, " ")) == ws
  {
    if ws == [] {
    } else if |ws| == 1 {
      WordsOfWord(ws[0]);
    } else {
      var tail := ws[1..];
      WordsOfJoin(tail);
      WordsOfJoinCons(ws[0], tail);
    }
  }

  lemma WordsOfJoinCons(w: string, tail: seq<string>)
    requires IsWord(w) && tail != [] && Words(Join(tail, " ")) == tail
    ensures Words(Join([w] + tail, " ")) == [w] + tail
  {
    var ws := [w] + tail;
    assert ws[0] == w && ws[1..] == tail;
    WordsOfWordSpace(w, Join(tail, " "));
  }

  /** A single word splits into itself. */
  lemma WordsOfWord(w: string)
    requires IsWord(w)
    ensures Words(w) == [w]
  {
    WordEndOfWord(w, []);
    assert w + [] == w;
    WordsOfWordStart(w);
  }

  /** A word, a space and a rest split into the word and the rest's words. */
  lemma WordsOfWordSpace(w: string, rest: string)
    requires IsWord(w)
    ensures Words(w + " " + rest) == [w] + Words(rest)
  {
    var j := w + " " + rest;
    assert j == w + (" " + rest);
    WordEndOfWord(w, " " + rest);
    WordsOfWordStart(j);
    assert j[..|w|] == w;
    assert j[|w|..] == " " + rest;
    WordsOfSpacePrefix(rest);
  }

  lemma WordsOfCollapse(s: string)
    ensures Words(Collapse(s)) == Words(s)
  {
    WordsOfJoin(Words(s));
  }

  /** Collapsing whitespace twice is the same as collapsing it once. */
  lemma CollapseIdempotent(s: string)
    ensures Collapse(Collapse(s)) == Collapse(s)
  {
    WordsOfCollapse(s);
  }

  /** Words never hold whitespace, so a collapsed text has no whitespace but single
      separating spaces. */
  lemma {:induction false} JoinShape(ws: seq<string>)
    requires forall k :: 0 <= k < |ws| ==> IsWord(ws[k])
    ensures var r := Join(ws, " ");
      && (r == [] || (!IsSpace(r[0]) && !IsSpace(r[|r| - 1])))
      && (forall i :: 0 <= i < |r| && IsSpace(r[i]) ==> r[i] == ' ')
      && (forall i :: 0 <= i < |r| - 1 ==> !(IsSpace(r[i]) && IsSpace(r[i + 1])))
      && (r == [] <==> ws == [])
  {
    if |ws| > 1 {
      JoinShape(ws[1..]);
      var w := ws[0];
      var rest := Join(ws[1..], " ");
      var r := w + " " + rest;
      assert Join(ws, " ") == r;
      forall i | 0 <= i < |r| && IsSpace(r[i]) ensures r[i] == ' ' {
        if i > |w| {
          assert r[i] == rest[i - |w| - 1];
        }
      }
      forall i | 0 <= i < |r| - 1 ensures !(IsSpace(r[i]) && IsSpace(r[i + 1])) {
        if i > |w| {
          assert r[i] == rest[i - |w| - 1] && r[i + 1] == rest[i - |w|];
        }
      }
    }
  }

  lemma CollapseShape(s: string)
    ensures Collapsed(Collapse(s))
  {
    JoinShape(Words(s));
  }

  /** Text that lower-casing leaves alone. */
  predicate IsLowered(s: string) {
    forall i :: 0 <= i < |s| ==> LowerChar(s[i]) == s[i]
  }

  lemma LowerOfLowered(s: string)
    requires IsLowered(s)
    ensures Lower(s) == s
  {
  }

  lemma LoweredSlice(s: string, a: int, b: int)
    requires IsLowered(s) && 0 <= a <= b <= |s|
    ensures IsLowered(s[a..b])
  {
    assert forall i :: 0 <= i < b - a ==> s[a..b][i] == s[a + i];
  }

  lemma {:induction false} LoweredWords(s: string)
    requires IsLowered(s)
    ensures forall w <- Words(s) :: IsLowered(w)
    decreases |s|
  {
    var t := LStrip(s);
    if t != [] {
      var n := WordEnd(t);
      LoweredSlice(s, |s| - |t|, |s|);
      LoweredSlice(t, 0, n);
      LoweredSlice(t, n, |t|);
      LoweredWords(t[n..]);
      assert Words(s) == [t[..n]] + Words(t[n..]);
    }
  }

  lemma {:induction false} LoweredJoin(ws: seq<string>, sep: string)
    requires IsLowered(sep)
    requires forall w <- ws :: IsLowered(w)
    ensures IsLowered(Join(ws, sep))
  {
    if |ws| > 1 {
      LoweredJoin(ws[1..], sep);
      var r := Join(ws[1..], sep);
      assert Join(ws, sep) == ws[0] + sep + r;
      assert ws[0] in ws;
      forall i | 0 <= i < |ws[0] + sep + r| ensures LowerChar((ws[0] + sep + r)[i]) == (ws[0] + sep + r)[i] {
        if i < |ws[0]| {
        } else if i < |ws[0]| + |sep| {
          assert (ws[0] + sep + r)[i] == sep[i - |ws[0]|];
        } else {
          assert (ws[0] + sep + r)[i] == r[i - |ws[0]| - |sep|];
        }
      }
    }
  }

  /** Collapsing the whitespace of lower-case text keeps it lower-case. */
  lemma LowerIsLowered(s: string)
    ensures IsLowered(Lower(s))
  {
  }

  lemma LoweredCollapse(s: string)
    requires IsLowered(s)
    ensures IsLowered(Collapse(s))
  {
    LoweredWords(s);
    LoweredJoin(Words(s), " ");
  }

  /** Text in the shape Collapse produces: no whitespace at either end, and no
      whitespace inside but single spaces. */
  predicate Collapsed(s: string) {
    && (s == [] || (!IsSpace(s[0]) && !IsSpace(s[|s| - 1])))
    && (forall i :: 0 <= i < |s| && IsSpace(s[i]) ==> s[i] == ' ')
    && (forall i :: 0 <= i < |s| - 1 ==> !(IsSpace(s[i]) && IsSpace(s[i + 1])))
  }

  lemma CollapsedRest(s: string, n: nat)
    requires Collapsed(s) && n < |s| && IsSpace(s[n])
    ensures n + 1 < |s| && !IsSpace(s[n + 1])
    ensures Collapsed(s[n + 1..])
  {
    var rest := s[n + 1..];
    forall i | 0 <= i < |rest| - 1 ensures !(IsSpace(rest[i]) && IsSpace(rest[i + 1])) {
      assert rest[i] == s[n + 1 + i] && rest[i + 1] == s[n + 2 + i];
    }
    forall i | 0 <= i < |rest| && IsSpace(rest[i]) ensures rest[i] == ' ' {
      assert rest[i] == s[n + 1 + i];
    }
  }

  lemma WordsOfWordStart(s: string)
    requires s != [] && !IsSpace(s[0])
    ensures Words(s) == [s[..WordEnd(s)]] + Words(s[WordEnd(s)..])
    ensures WordEnd(s) == |s| ==> Words(s) == [s]
  {
    assert LStrip(s) == s;
    if WordEnd(s) == |s| {
      assert s[|s|..] == [] && s[..|s|] == s;
    }
  }

  lemma SplitAtSpace(s: string, n: nat)
    requires n < |s| && s[n] == ' '
    ensures s[n..] == " " + s[n + 1..]
    ensures s == s[..n] + " " + s[n + 1..]
  {
  }

  /** Joining the two halves of a split joins the whole. */
  lemma {:induction false} JoinSplitAt(ws: seq<string>, mid: nat, sep: string)
    requires 0 < mid < |ws|
    ensures Join(ws[..mid], sep) + sep + Join(ws[mid..], sep) == Join(ws, sep)
    decreases mid
  {
    if mid > 1 {
      var tail := ws[1..];
      assert tail[..mid - 1] == ws[1..mid] && tail[mid - 1..] == ws[mid..];
      JoinSplitAt(tail, mid - 1, sep);
      JoinCons(ws[0], ws[1..mid], sep);
      assert [ws[0]] + ws[1..mid] == ws[..mid];
      AppendAssoc(ws[0] + sep, Join(ws[1..mid], sep), sep + Join(ws[mid..], sep));
    }
  }

  lemma JoinCons(w: string, ws: seq<string>, sep: string)
    requires ws != []
    ensures Join([w] + ws, sep) == w + sep + Join(ws, sep)
  {
    assert ([w] + ws)[1..] == ws;
  }

  /** Text already in collapsed shape is left alone by Collapse. */
  lemma {:induction false} CollapseOfCollapsed(s: string)
    requires Collapsed(s)
    ensures Collapse(s) == s
    decreases |s|
  {
    if s != [] {
      var n := WordEnd(s);
      WordsOfWordStart(s);
      if n < |s| {
        var rest := s[n + 1..];
        CollapsedRest(s, n);
        CollapseOfCollapsed(rest);
        SplitAtSpace(s, n);
        WordsOfSpacePrefix(rest);
        WordsOfWordStart(rest);
        JoinCons(s[..n], Words(rest), " ");
      }
    }
  }

  /** Each word of `s` after the first costs at least one separator, so `s` has at
      most (|s| + 1) / 2 words. */
  lemma {:induction false} WordsBound(s: string)
    ensures 2 * |Words(s)| <= |s| + 1
    decreases |s|
  {
    var t := LStrip(s);
    if t != [] {
      var n := WordEnd(t);
      var rest := t[n..];
      assert Words(s) == [t[..n]] + Words(rest);
      if n < |t| {
        WordsOfSpaceHead(rest);
        WordsBound(rest[1..]);
      }
    }
  }

  /** A leading whitespace character does not change the words. */
  lemma WordsOfSpaceHead(x: string)
    requires x != [] && IsSpace(x[0])
    ensures Words(x) == Words(x[1..])
  {
    assert LStrip(x) == LStrip(x[1..]);
  }

  /** str.split(sep) for a one-character separator: every piece, empty ones included. */
  function SplitOn(s: string, sep: char): (parts: seq<string>)
    ensures |parts| >= 1
    ensures forall k :: 0 <= k < |parts| ==> sep !in parts[k]
    ensures Join(parts, [sep]) == s
    decreases |s|
  {
    var n := IndexOf(s, sep);
    if n == |s| then [s]
    else
      var rest := SplitOn(s[n + 1..], sep);
      assert s == s[..n] + [sep] + s[n + 1..];
      [s[..n]] + rest
  }

  /** Index of the first `c` in `s`, or |s| when there is none. */
  function IndexOf(s: string, c: char): (n: nat)
    ensures n <= |s|
    ensures n < |s| ==> s[n] == c
    ensures forall i :: 0 <= i < n ==> s[i] != c
  {
    if s == [] then 0 else if s[0] == c then 0 else 1 + IndexOf(s[1..], c)
  }

  /** Non-empty, with no whitespace at either end: what strip() leaves of a
      non-blank string. */
  predicate Trimmed(p: string) {
    p != [] && !IsSpace(p[0]) && !IsSpace(p[|p| - 1])
  }

  /** [p.strip() for p in parts if p.strip()] */
  function StrippedNonBlank(parts: seq<string>): (r: seq<string>)
    ensures |r| <= |parts|
    ensures forall p <- r :: Trimmed(p)
  {
    if parts == [] then []
    else
      var p := Strip(parts[0]);
      var rest := StrippedNonBlank(parts[1..]);
      if p == [] then rest
      else
        [p] + rest
  }

  /** Every character `a` replaced by `b`: str.replace for one character. */
  function ReplaceChar(s: string, a: char, b: char): (r: string)
    ensures |r| == |s|
    ensures forall i :: 0 <= i < |s| ==> r[i] == if s[i] == a then b else s[i]
  {
    seq(|s|, i requires 0 <= i < |s| => if s[i] == a then b else s[i])
  }

  /** The stripped non-blank lines of `s`, splitting on "\n". */
  function NonBlankLines(s: string): (r: seq<string>)
    ensures forall p <- r :: p != [] && '\n' !in p
  {
    var parts := SplitOn(s, '\n');
    var r := StrippedNonBlank(parts);
    assert forall p <- r :: '\n' !in p by {
      StrippedPiecesLackSep(parts, '\n');
    }
    r
  }

  lemma StripKeepsAbsent(s: string, c: char)
    requires c !in s
    ensures c !in Strip(s)
  {
    var r := RStrip(s);
    assert forall i :: 0 <= i < |r| ==> r[i] == s[i];
    var l := LStrip(r);
    assert forall i :: 0 <= i < |l| ==> l[i] == r[|r| - |l| + i];
  }

  lemma {:induction false} StrippedPiecesLackSep(parts: seq<string>, sep: char)
    requires forall k :: 0 <= k < |parts| ==> sep !in parts[k]
    ensures forall p <- StrippedNonBlank(parts) :: sep !in p
  {
    if parts != [] {
      StripKeepsAbsent(parts[0], sep);
      StrippedPiecesLackSep(parts[1..], sep);
      var p := Strip(parts[0]);
      assert StrippedNonBlank(parts) == (if p == [] then [] else [p]) + StrippedNonBlank(parts[1..]);
    }
  }

  // ---------------------------------------------------------------------
  // Line splitting

  /** The line boundaries of Python's str.splitlines(); every one of them is
      whitespace. */
  predicate IsLineBreak(c: char) {
    || c == '\n' || c == '\r' || c == '\U{000B}' || c == '\U{000C}' || ('\U{001C}' <= c <= '\U{001E}')
    || c == '\U{0085}' || c == '\U{2028}' || c == '\U{2029}'
  }

  predicate NoBreak(s: string) {
    forall i :: 0 <= i < |s| ==> !IsLineBreak(s[i])
  }

  /** Index of the first line boundary of `s`, or |s| when there is none. */
  function BreakIndex(s: string): (n: nat)
    ensures n <= |s|
    ensures n < |s| ==> IsLineBreak(s[n])
    ensures NoBreak(s[..n])
  {
    if s == [] then 0 else if IsLineBreak(s[0]) then 0 else 1 + BreakIndex(s[1..])
  }

  /** The pieces of `s` between line boundaries, empty ones included. Once each
      piece is stripped and the blank ones dropped, this is what
      `[ln.strip() for ln in s.splitlines() if ln.strip()]` keeps: "\r\n" only
      adds an empty piece, and splitlines() drops a final empty line. */
  function SplitLines(s: string): (parts: seq<string>)
    ensures |parts| >= 1
    ensures forall p <- parts :: NoBreak(p)
    decreases |s|
  {
    var n := BreakIndex(s);
    if n == |s| then
      assert s[..n] == s;
      [s]
    else
      [s[..n]] + SplitLines(s[n + 1..])
  }

  /** [ln.strip() for ln in s.splitlines() if ln.strip()] */
  function NonBlankSplitLines(s: string): (r: seq<string>)
    ensures forall p <- r :: Trimmed(p)
  {
    StrippedNonBlank(SplitLines(s))
  }

  lemma BreakIndexOfJoin(w: string, rest: string)
    requires NoBreak(w)
    ensures BreakIndex(w + "\n" + rest) == |w|
    decreases |w|
  {
    if w != [] {
      assert (w + "\n" + rest)[1..] == w[1..] + "\n" + rest;
      BreakIndexOfJoin(w[1..], rest);
    }
  }

  /** Splitting lines undoes joining them with "\n". */
  lemma {:induction false} SplitLinesOfJoin(ls: seq<string>)
    requires ls != [] && forall p <- ls :: NoBreak(p)
    ensures SplitLines(Join(ls, "\n")) == ls
    decreases |ls|
  {
    if |ls| == 1 {
      BreakIndexAll(ls[0]);
    } else {
      var w, tail := ls[0], ls[1..];
      assert ls == [w] + tail;
      JoinCons(w, tail, "\n");
      var s := w + "\n" + Join(tail, "\n");
      BreakIndexOfJoin(w, Join(tail, "\n"));
      assert s[..|w|] == w && s[|w| + 1..] == Join(tail, "\n");
      assert ls[1] in ls;
      SplitLinesOfJoin(tail);
    }
  }

  lemma IndexOfJoin(w: string, c: char, rest: string)
    requires c !in w
    ensures IndexOf(w + [c] + rest, c) == |w|
    decreases |w|
  {
    if w != [] {
      assert (w + [c] + rest)[1..] == w[1..] + [c] + rest;
      IndexOfJoin(w[1..], c, rest);
    }
  }

  /** Splitting on a separator undoes joining pieces that do not hold it. */
  lemma {:induction false} SplitOnOfJoin(ls: seq<string>, c: char)
    requires ls != [] && forall p <- ls :: c !in p
    ensures SplitOn(Join(ls, [c]), c) == ls
    decreases |ls|
  {
    if |ls| == 1 {
      assert ls[0] in ls;
      assert IndexOf(ls[0], c) == |ls[0]|;
    } else {
      var w, tail := ls[0], ls[1..];
      assert ls == [w] + tail;
      JoinCons(w, tail, [c]);
      var s := w + [c] + Join(tail, [c]);
      IndexOfJoin(w, c, Join(tail, [c]));
      assert s[..|w|] == w && s[|w| + 1..] == Join(tail, [c]);
      assert ls[1] in ls;
      SplitOnOfJoin(tail, c);
    }
  }

  /** Trimmed pieces joined by any separator give a trimmed text. */
  lemma {:induction false} JoinTrimmed(ls: seq<string>, sep: string)
    requires ls != [] && forall p <- ls :: Trimmed(p)
    ensures Trimmed(Join(ls, sep))
    decreases |ls|
  {
    assert ls[0] in ls;
    if |ls| > 1 {
      assert ls[1] in ls;
      JoinTrimmed(ls[1..], sep);
      var rest := Join(ls[1..], sep);
      assert Join(ls, sep) == ls[0] + sep + rest;
      assert Join(ls, sep)[|Join(ls, sep)| - 1] == rest[|rest| - 1];
    }
  }

  lemma BreakIndexAll(w: string)
    requires NoBreak(w)
    ensures BreakIndex(w) == |w|
    decreases |w|
  {
    if w != [] {
      BreakIndexAll(w[1..]);
    }
  }

  /** Pieces that are already trimmed pass through strip-and-drop-blanks. */
  lemma {:induction false} StrippedNonBlankOfTrimmed(ls: seq<string>)
    requires forall p <- ls :: Trimmed(p)
    ensures StrippedNonBlank(ls) == ls
  {
    if ls != [] {
      assert ls[0] in ls;
      StripOfStripped(ls[0]);
      StrippedNonBlankOfTrimmed(ls[1..]);
      ConsTail(ls[0], ls[1..]);
      assert ls == [ls[0]] + ls[1..];
    }
  }

  /** The non-blank lines of lines joined with "\n" are those lines, when each is
      trimmed and holds no line boundary. */
  lemma NonBlankSplitLinesOfJoin(ls: seq<string>)
    requires ls != [] && forall p <- ls :: Trimmed(p) && NoBreak(p)
    ensures NonBlankSplitLines(Join(ls, "\n")) == ls
  {
    SplitLinesOfJoin(ls);
    StrippedNonBlankOfTrimmed(ls);
  }

  // ---------------------------------------------------------------------
  // First-seen de-duplication

  predicate NoDup<T(==)>(s: seq<T>) {
    forall i, j :: 0 <= i < j < |s| ==> s[i] != s[j]
  }

  /** `for x in s: if x not in out: out.append(x)` — the first occurrence of each
      element, in order (also dict.fromkeys(s)). */
  function Dedup<T(==)>(s: seq<T>): (r: seq<T>)
    ensures NoDup(r)
    ensures forall x <- r :: x in s
    ensures forall x <- s :: x in r
    ensures |r| <= |s|
  {
    if s == [] then []
    else
      var d := Dedup(s[..|s| - 1]);
      var x := s[|s| - 1];
      assert s == s[..|s| - 1] + [x];
      if x in d then d else d + [x]
  }

  lemma DedupOfNoDup<T>(s: seq<T>)
    requires NoDup(s)
    ensures Dedup(s) == s
  {
    if s != [] {
      var p := s[..|s| - 1];
      DedupOfNoDup(p);
      assert s == p + [s[|s| - 1]];
    }
  }

  lemma {:induction false} DedupAppend<T>(s: seq<T>, t: seq<T>)
    ensures Dedup(s + t) == Dedup(Dedup(s) + t)
    decreases |t|
  {
    if t == [] {
      assert s + t == s;
      assert Dedup(s) + t == Dedup(s);
      DedupOfNoDup(Dedup(s));
    } else {
      var t' := t[..|t| - 1];
      assert (s + t)[..|s + t| - 1] == s + t';
      assert (Dedup(s) + t)[..|Dedup(s) + t| - 1] == Dedup(s) + t';
      DedupAppend(s, t');
    }
  }

  /** One more element at the end: the loop step of a first-seen filter. */
  lemma DedupSnoc<T>(s: seq<T>, x: T)
    ensures Dedup(s + [x]) == if x in Dedup(s) then Dedup(s) else Dedup(s) + [x]
  {
    SnocInit(s, x);
  }

  /** Appending distinct new elements: the first occurrences of `a`, then the
      elements of `b` not already in `a`, in their order. */
  lemma {:induction false} DedupAppendFresh<T>(a: seq<T>, b: seq<T>)
    requires NoDup(b)
    ensures Dedup(a + b) == Dedup(a) + Without(b, set x | x in a)
    decreases |b|
  {
    var xs := set x | x in a;
    if b == [] {
      AppendEmpty(a);
      AppendEmpty(Dedup(a));
    } else {
      var b', y := b[..|b| - 1], b[|b| - 1];
      InitLast(b);
      assert NoDup(b') by {
        forall i, j | 0 <= i < j < |b'| ensures b'[i] != b'[j] {
          assert b'[i] == b[i] && b'[j] == b[j];
        }
      }
      assert y !in b' by {
        forall i | 0 <= i < |b'| ensures b'[i] != y {
          assert b'[i] == b[i];
        }
      }
      DedupAppendFresh(a, b');
      var d := Dedup(a + b');
      var w := Without(b', xs);
      AppendAssoc(a, b', [y]);
      DedupSnoc(a + b', y);
      WithoutSnoc(b', y, xs);
      if y in xs {
        assert y in a;
        assert y in d;
      } else {
        assert y !in a + b';
        assert y !in d;
        AppendAssoc(Dedup(a), w, [y]);
      }
    }
  }

  /** Dedup keeps its input's first occurrences as a prefix of the output. */
  lemma DedupPrefix<T>(s: seq<T>, t: seq<T>)
    ensures Dedup(s) <= Dedup(s + t)
    decreases |t|
  {
    if t == [] {
      assert s + t == s;
    } else {
      var t' := t[..|t| - 1];
      assert (s + t)[..|s + t| - 1] == s + t';
      DedupPrefix(s, t');
    }
  }

  /** `a` is a subsequence of `b`: its elements occur in `b` in the same order. */
  predicate IsSubseq<T(==)>(a: seq<T>, b: seq<T>)
    decreases |b|
  {
    if a == [] then true
    else if b == [] then false
    else if a[0] == b[0] then IsSubseq(a[1..], b[1..])
    else IsSubseq(a, b[1..])
  }

  /** A subsequence of the tail is a subsequence of the whole. */
  lemma {:induction false} SubseqCons<T>(a: seq<T>, x: seq<T>)
    requires x != [] && IsSubseq(a, x[1..])
    ensures IsSubseq(a, x)
    decreases |x|, 0
  {
    if a != [] && a[0] == x[0] {
      SubseqTail(a, x[1..]);
    }
  }

  /** Dropping the head of a subsequence leaves a subsequence. */
  lemma {:induction false} SubseqTail<T>(a: seq<T>, y: seq<T>)
    requires a != [] && IsSubseq(a, y)
    ensures IsSubseq(a[1..], y)
    decreases |y|, 1
  {
    if a[0] == y[0] {
      SubseqCons(a[1..], y);
    } else {
      SubseqTail(a, y[1..]);
      SubseqCons(a[1..], y);
    }
  }

  /** `[x for x in s if x not in xs]` */
  function Without<T(==)>(s: seq<T>, xs: set<T>): (r: seq<T>)
    ensures forall y <- r :: y in s && y !in xs
    ensures forall y <- s :: y !in xs ==> y in r
    ensures xs == {} ==> r == s
    ensures |r| <= |s|
  {
    if s == [] then []
    else (if s[0] in xs then [] else [s[0]]) + Without(s[1..], xs)
  }

  /** `[x for x in s if x in xs]` */
  function Within<T(==)>(s: seq<T>, xs: set<T>): (r: seq<T>)
    ensures forall y <- r :: y in s && y in xs
    ensures forall y <- s :: y in xs ==> y in r
    ensures |r| <= |s|
  {
    if s == [] then []
    else (if s[0] in xs then [s[0]] else []) + Within(s[1..], xs)
  }

  lemma {:induction false} WithinConcat<T>(a: seq<T>, b: seq<T>, xs: set<T>)
    ensures Within(a + b, xs) == Within(a, xs) + Within(b, xs)
    decreases |a|
  {
    if a == [] {
      AppendEmpty(b);
      AppendEmpty(Within(b, xs));
    } else {
      AppendTail(a, b);
      WithinConcat(a[1..], b, xs);
    }
  }

  /** One more element at the end: the loop step of a filter. */
  lemma WithinSnoc<T>(s: seq<T>, x: T, xs: set<T>)
    ensures Within(s + [x], xs) == Within(s, xs) + (if x in xs then [x] else [])
  {
    WithinConcat(s, [x], xs);
    assert Within([x], xs) == (if x in xs then [x] else []) + Within([], xs);
  }

  /** `[x for x in s if x not in xs]` with one more element at the end. */
  lemma {:induction false} WithoutSnoc<T>(s: seq<T>, x: T, xs: set<T>)
    ensures Without(s + [x], xs) == Without(s, xs) + (if x in xs then [] else [x])
    decreases |s|
  {
    if s == [] {
      AppendEmpty([x]);
      ConsTail(x, []);
    } else {
      AppendTail(s, [x]);
      WithoutSnoc(s[1..], x, xs);
    }
  }

  /** Removing one value and then another is removing both. */
  lemma {:induction false} WithoutWithout<T>(s: seq<T>, xs: set<T>, ys: set<T>)
    ensures Without(Without(s, xs), ys) == Without(s, xs + ys)
  {
    if s != [] {
      WithoutWithout(s[1..], xs, ys);
      var w := Without(s[1..], xs);
      if s[0] !in xs {
        assert Without(s, xs) == [s[0]] + w;
        assert ([s[0]] + w)[1..] == w;
        assert Without([s[0]] + w, ys) == (if s[0] in ys then [] else [s[0]]) + Without(w, ys);
      } else {
        assert Without(s, xs) == w;
      }
    }
  }

  /** No duplicates are introduced by removing values. */
  lemma {:induction false} WithoutNoDup<T>(s: seq<T>, xs: set<T>)
    requires NoDup(s)
    ensures NoDup(Without(s, xs))
  {
    if s != [] {
      WithoutNoDup(s[1..], xs);
      assert s[0] !in s[1..];
    }
  }

  // ---------------------------------------------------------------------
  // Sequence identities, stated for any element type so that no proof about
  // sequences of strings has to compare the strings themselves

  lemma InitLast<T>(s: seq<T>)
    requires s != []
    ensures s == s[..|s| - 1] + [s[|s| - 1]]
  {
  }

  lemma TakeStep<T>(s: seq<T>, i: int)
    requires 0 <= i < |s|
    ensures s[..i + 1][..i] == s[..i]
    ensures s[..i + 1] == s[..i] + [s[i]]
  {
  }

  lemma TakeAll<T>(s: seq<T>)
    ensures s[..|s|] == s
  {
  }

  lemma DropStep<T>(s: seq<T>, i: int)
    requires 0 <= i < |s|
    ensures s[i..][1..] == s[i + 1..]
    ensures s[i..][0] == s[i]
    ensures s[i..] == [s[i]] + s[i + 1..]
  {
  }

  lemma TakeDrop<T>(s: seq<T>, i: int)
    requires 0 <= i <= |s|
    ensures s[..i] + s[i..] == s
  {
  }

  lemma AppendInit<T>(a: seq<T>, b: seq<T>)
    requires b != []
    ensures (a + b)[..|a + b| - 1] == a + b[..|b| - 1]
    ensures (a + b)[|a + b| - 1] == b[|b| - 1]
  {
  }

  lemma AppendTail<T>(a: seq<T>, b: seq<T>)
    requires a != []
    ensures (a + b)[1..] == a[1..] + b
    ensures (a + b)[0] == a[0]
  {
  }

  lemma AppendAssoc<T>(a: seq<T>, b: seq<T>, c: seq<T>)
    ensures (a + b) + c == a + (b + c)
  {
  }

  lemma AppendEmpty<T>(a: seq<T>)
    ensures a + [] == a && [] + a == a
  {
  }

  lemma SnocInit<T>(s: seq<T>, x: T)
    ensures (s + [x])[..|s|] == s && (s + [x])[|s|] == x
  {
  }

  lemma TakeSnoc<T>(s: seq<T>, x: T, i: int)
    requires 0 <= i <= |s|
    ensures (s + [x])[..i] == s[..i]
  {
  }

  lemma DropSnoc<T>(s: seq<T>, x: T, i: int)
    requires 0 <= i <= |s|
    ensures (s + [x])[i..] == s[i..] + [x]
  {
  }

  lemma ConsTail<T>(x: T, s: seq<T>)
    ensures ([x] + s)[1..] == s && ([x] + s)[0] == x
  {
  }

  // ---------------------------------------------------------------------
  // int() and str() on integers

  predicate AllDigits(s: string) {
    forall i :: 0 <= i < |s| ==> IsDigit(s[i])
  }

  /** The value of a run of decimal digits. */
  function DigitsValue(s: string): nat
    requires AllDigits(s)
    decreases |s|
  {
    if s == [] then 0
    else
      assert IsDigit(s[|s| - 1]);
      10 * DigitsValue(s[..|s| - 1]) + (s[|s| - 1] as int - '0' as int)
  }

  /** int() on a string, for plain decimal text: surrounding whitespace is
      ignored, then an optional sign and one or more ASCII digits; anything else
      gives None. Python also accepts "_" between digits and non-ASCII decimal
      digits; those are not modelled. */
  function ParseInt(s: string): (r: Option<int>)
    ensures r.Some? ==> Strip(s) != []
  {
    var t := Strip(s);
    var body := if t != [] && (t[0] == '-' || t[0] == '+') then t[1..] else t;
    if body != [] && AllDigits(body) then
      var v: int := DigitsValue(body);
      Some(if t[0] == '-' then -v else v)
    else
      None
  }

  function DigitChar(d: int): (c: char)
    requires 0 <= d < 10
    ensures IsDigit(c) && c as int - '0' as int == d
  {
    ('0' as int + d) as char
  }

  /** The decimal digits of a natural number, most significant first. */
  function NatDigits(n: nat): (s: string)
    ensures s != [] && AllDigits(s)
    decreases n
  {
    if n < 10 then [DigitChar(n)] else NatDigits(n / 10) + [DigitChar(n % 10)]
  }

  /** str(n) for an integer. */
  function Decimal(n: int): (s: string)
    ensures s != []
  {
    if n < 0 then "-" + NatDigits(-n) else NatDigits(n)
  }

  lemma {:induction false} DigitsOfNat(n: nat)
    ensures DigitsValue(NatDigits(n)) == n
    decreases n
  {
    var s := NatDigits(n);
    if n >= 10 {
      assert s[..|s| - 1] == NatDigits(n / 10);
      DigitsOfNat(n / 10);
    }
  }

  /** int(str(n)) == n */
  lemma ParseDecimal(n: int)
    ensures ParseInt(Decimal(n)) == Some(n)
  {
    var s := Decimal(n);
    var m := if n < 0 then -n else n;
    DecimalTrimmed(n);
    DigitsOfNat(m);
    ParseTrimmed(s, n < 0, NatDigits(m));
  }

  /** str(n) has no whitespace at its ends. */
  lemma DecimalTrimmed(n: int)
    ensures Strip(Decimal(n)) == Decimal(n)
  {
    var s := Decimal(n);
    var ds := NatDigits(if n < 0 then -n else n);
    assert IsDigit(ds[0]) && IsDigit(ds[|ds| - 1]);
    assert s[|s| - 1] == ds[|ds| - 1];
    assert s[0] == '-' || s[0] == ds[0];
    NotSpace(s[0]);
    NotSpace(s[|s| - 1]);
    StripOfStripped(s);
  }

  lemma NotSpace(c: char)
    requires c == '-' || IsDigit(c)
    ensures !IsSpace(c)
  {
  }

  lemma ParseTrimmed(s: string, negative: bool, ds: string)
    requires Strip(s) == s && ds != [] && AllDigits(ds)
    requires s == if negative then "-" + ds else ds
    ensures negative ==> ParseInt(s) == Some(-(DigitsValue(ds) as int))
    ensures !negative ==> ParseInt(s) == Some(DigitsValue(ds) as int)
  {
    if negative {
      assert s[1..] == ds;
    } else {
      assert IsDigit(s[0]);
    }
  }
}
