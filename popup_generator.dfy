/** The post-processing of generated popups: every message is forced into two
    short lines, the ttl is clamped, the record is validated and guarded, multi-
    line messages become one card per line, repeated cards are dropped, and too
    few cards are topped up from the fallback templates. */
module PopupGenerator {
  import opened Text
  import opened Json
  import opened Oracles
  import opened PopupSchemas
  import opened PopupValidator
  import opened PopupFallback

  // ---------------------------------------------------------------------
  // Lines and breaks

  /** A line as the normaliser leaves it: empty, or with no whitespace at its
      ends. */
  predicate Edge(x: string) {
    x == [] || Trimmed(x)
  }

  /** The first piece of a split, then the pieces of the rest. */
  lemma SplitOnStep(s: string, sep: char)
    requires IndexOf(s, sep) < |s|
    ensures SplitOn(s, sep) == [s[..IndexOf(s, sep)]] + SplitOn(s[IndexOf(s, sep) + 1..], sep)
  {
  }

  lemma StrippedNonBlankCons(x: string, rest: seq<string>)
    ensures |StrippedNonBlank([x] + rest)| == (if IsBlank(x) then 0 else 1) + |StrippedNonBlank(rest)|
  {
    assert ([x] + rest)[1..] == rest;
    StripEmptyIffBlank(x);
  }

  /** A "\n" with non-whitespace on both sides of it makes two non-blank
      lines. */
  lemma {:induction false} TwoNonBlankLines(s: string, a: int, k: int, b: int)
    requires 0 <= a < k < b < |s| && s[k] == '\n' && !IsSpace(s[a]) && !IsSpace(s[b])
    ensures |StrippedNonBlank(SplitOn(s, '\n'))| >= 2
    decreases |s|
  {
    var n := IndexOf(s, '\n');
    assert n <= k;
    var rest := s[n + 1..];
    if a < n {
      FirstPieceNonBlank(s, n, a);
      RestNonBlank(s, n, b);
    } else {
      ShiftPast(s, n, a, k, b);
      TwoNonBlankLines(rest, a - n - 1, k - n - 1, b - n - 1);
    }
    SplitOnStep(s, '\n');
    StrippedNonBlankCons(s[..n], SplitOn(rest, '\n'));
  }

  lemma FirstPieceNonBlank(s: string, n: int, a: int)
    requires 0 <= a < n <= |s| && !IsSpace(s[a])
    ensures !IsBlank(s[..n])
  {
    assert s[..n][a] == s[a];
  }

  lemma RestNonBlank(s: string, n: int, b: int)
    requires 0 <= n < b < |s| && !IsSpace(s[b])
    ensures |StrippedNonBlank(SplitOn(s[n + 1..], '\n'))| >= 1
  {
    var rest := s[n + 1..];
    assert rest[b - n - 1] == s[b];
    var ps := SplitOn(rest, '\n');
    assert Join(ps, "\n") == rest;
    NonBlankJoinHasPart(ps);
  }

  lemma ShiftPast(s: string, n: int, a: int, k: int, b: int)
    requires 0 <= n <= a < k < b < |s| && s[n] == '\n' && s[k] == '\n' && !IsSpace(s[a]) && !IsSpace(s[b])
    ensures 0 <= a - n - 1 < k - n - 1 < b - n - 1 < |s[n + 1..]|
    ensures s[n + 1..][k - n - 1] == '\n' && !IsSpace(s[n + 1..][a - n - 1]) && !IsSpace(s[n + 1..][b - n - 1])
  {
    assert a != n;
  }

  /** A stripped text holding a "\n" has two non-blank lines or more. */
  lemma BreakMeansTwoLines(s: string)
    ensures '\n' in Strip(s) ==> |NonBlankLines(s)| >= 2
  {
    var d := StripOffset(s);
    InnerBreak(s, d, Strip(s));
  }

  lemma InnerBreak(s: string, d: nat, t: string)
    requires d + |t| <= |s| && t == s[d..d + |t|]
    requires t == [] || (!IsSpace(t[0]) && !IsSpace(t[|t| - 1]))
    ensures '\n' in t ==> |NonBlankLines(s)| >= 2
  {
    if '\n' !in t {
      return;
    }
    var k :| 0 <= k < |t| && t[k] == '\n';
    assert 0 < k < |t| - 1;
    assert s[d] == t[0] && s[d + k] == t[k] && s[d + |t| - 1] == t[|t| - 1];
    TwoNonBlankLines(s, d, d + k, d + |t| - 1);
  }

  /** Where the stripped text sits inside the original. */
  lemma StripOffset(s: string) returns (d: nat)
    ensures d + |Strip(s)| <= |s| && Strip(s) == s[d..d + |Strip(s)|]
  {
    var r := RStrip(s);
    var t := LStrip(r);
    d := |r| - |t|;
    assert t == r[d..] && r == s[..|r|];
  }

  /** `sep.join(ws)` holds no `c` when neither the pieces nor `sep` do. */
  lemma {:induction false} JoinLacks(ws: seq<string>, sep: string, c: char)
    requires c !in sep && forall w <- ws :: c !in w
    ensures c !in Join(ws, sep)
  {
    if |ws| > 1 {
      assert ws[0] in ws;
      assert forall w <- ws[1..] :: w in ws;
      JoinLacks(ws[1..], sep, c);
    }
  }

  /** `line[:n].rstrip()` */
  function CutLine(x: string, n: nat): (r: string)
    ensures |r| <= n && |r| <= |x| && r == x[..|r|]
    ensures Edge(x) ==> Edge(r)
  {
    var t := Take(x, n);
    var r := RStrip(t);
    assert r == x[..|r|];
    r
  }

  lemma CutLacks(x: string, n: nat, c: char)
    requires c !in x
    ensures c !in CutLine(x, n)
  {
    var r := CutLine(x, n);
    assert forall i :: 0 <= i < |r| ==> r[i] == x[i];
  }

  /** Cutting a trimmed line that is short enough changes nothing. */
  lemma CutShort(x: string, n: nat)
    requires Edge(x) && |x| <= n
    ensures CutLine(x, n) == x
  {
  }

  // ---------------------------------------------------------------------
  // normalize_two_lines

  const MaxTotal: nat := 160
  const MaxLine: nat := 80

  function Max(a: int, b: int): int { if a >= b then a else b }
  function Min(a: int, b: int): int { if a <= b then a else b }

  /** The two lines before they are cut: the first two non-blank lines; failing
      two, the first two sentences ('?' and '!' read as '.'); failing two, the
      words split near the middle when there are six or more; otherwise the
      whole message twice. */
  function RawLines(msg: string): (r: (string, string))
    ensures '\n' !in r.0 && '\n' !in r.1
    ensures Edge(r.0) && Edge(r.1)
  {
    var m := Strip(msg);
    var lines := NonBlankLines(m);
    if |lines| >= 2 then
      assert lines[0] in lines && lines[1] in lines;
      (lines[0], lines[1])
    else
      OneLineNoBreak(msg);
      var parts := Sentences(m);
      if |parts| >= 2 then
        assert parts[0] in parts && parts[1] in parts;
        (parts[0], parts[1])
      else
        var words := Words(m);
        if |words| >= 6 then
          WordSplit(words)
        else
          (m, m)
  }

  /** A stripped message with fewer than two non-blank lines holds no "\n". */
  lemma OneLineNoBreak(msg: string)
    ensures |NonBlankLines(Strip(msg))| < 2 ==> '\n' !in Strip(msg)
  {
    var m := Strip(msg);
    BreakMeansTwoLines(m);
    StripOfStripped(m);
  }

  /** The non-blank sentences, with '?' and '!' read as '.'. */
  function Sentences(m: string): (r: seq<string>)
    ensures forall p <- r :: Trimmed(p)
    ensures '\n' !in m ==> forall p <- r :: '\n' !in p
  {
    var cleaned := ReplaceChar(ReplaceChar(m, '?', '.'), '!', '.');
    var parts := SplitOn(cleaned, '.');
    if '\n' !in m then
      assert '\n' !in cleaned;
      SplitLacks(cleaned, '.', '\n');
      StrippedPiecesLackSep(parts, '\n');
      StrippedNonBlank(parts)
    else
      StrippedNonBlank(parts)
  }

  /** Six words or more split near the middle, at least three on each side. */
  function WordSplit(words: seq<string>): (r: (string, string))
    requires |words| >= 6 && forall w <- words :: IsWord(w)
    ensures Trimmed(r.0) && Trimmed(r.1) && '\n' !in r.0 && '\n' !in r.1
    ensures r.0 + " " + r.1 == Join(words, " ")
  {
    var mid := Max(3, Min(|words| / 2, |words| - 3));
    WordHalf(words[..mid]);
    WordHalf(words[mid..]);
    JoinSplitAt(words, mid, " ");
    (Join(words[..mid], " "), Join(words[mid..], " "))
  }

  /** A non-empty run of words joined by " " is a trimmed line without "\n". */
  lemma WordHalf(ws: seq<string>)
    requires ws != [] && forall w <- ws :: IsWord(w)
    ensures Trimmed(Join(ws, " ")) && '\n' !in Join(ws, " ")
  {
    forall w <- ws ensures Trimmed(w) && '\n' !in w {
      assert IsWord(w);
      assert w[0] == w[0];
    }
    JoinTrimmed(ws, " ");
    JoinLacks(ws, " ", '\n');
  }

  /** The pieces of a text without `c` hold no `c`. */
  lemma {:induction false} SplitLacks(s: string, sep: char, c: char)
    requires c !in s
    ensures forall k :: 0 <= k < |SplitOn(s, sep)| ==> c !in SplitOn(s, sep)[k]
    decreases |s|
  {
    var n := IndexOf(s, sep);
    if n < |s| {
      SliceLacks(s, 0, n, c);
      SliceLacks(s, n + 1, |s|, c);
      assert s[0..n] == s[..n] && s[n + 1..|s|] == s[n + 1..];
      SplitLacks(s[n + 1..], sep, c);
      SplitOnStep(s, sep);
    }
  }

  /** The lines cut short when the whole is too long: the second line first,
      then, if still too long, the first. */
  function FitLines(l1: string, l2: string, maxTotal: nat): (r: (string, string))
    ensures |r.0| <= |l1| && |r.1| <= |l2|
    ensures r.0 == l1[..|r.0|] && r.1 == l2[..|r.1|]
    ensures Edge(l1) && Edge(l2) ==> Edge(r.0) && Edge(r.1)
    ensures maxTotal >= 1 ==> |r.0| + 1 + |r.1| <= maxTotal
    ensures |l1| + 1 + |l2| <= maxTotal ==> r == (l1, l2)
  {
    var joined := l1 + "\n" + l2;
    if |joined| > maxTotal then
      var overflow := |joined| - maxTotal;
      var l2' := if overflow > 0 then CutLine(l2, Max(0, |l2| - overflow)) else l2;
      var joined' := l1 + "\n" + l2';
      if |joined'| > maxTotal then
        var overflow' := |joined'| - maxTotal;
        (CutLine(l1, Max(0, |l1| - overflow')), l2')
      else
        (l1, l2')
    else
      (l1, l2)
  }

  /** The two lines normalize_two_lines produces: each cut to `maxLine`,
      then both fitted into `maxTotal`. */
  function TwoLineParts(msg: string, maxTotal: nat, maxLine: nat): (r: (string, string))
    ensures '\n' !in r.0 && '\n' !in r.1
    ensures Edge(r.0) && Edge(r.1)
    ensures |r.0| <= maxLine && |r.1| <= maxLine
    ensures maxTotal >= 1 ==> |r.0| + 1 + |r.1| <= maxTotal
  {
    var raw := RawLines(msg);
    var c1, c2 := CutLine(raw.0, maxLine), CutLine(raw.1, maxLine);
    CutLacks(raw.0, maxLine, '\n');
    CutLacks(raw.1, maxLine, '\n');
    var fit := FitLines(c1, c2, maxTotal);
    PrefixLacks(c1, fit.0, '\n');
    PrefixLacks(c2, fit.1, '\n');
    fit
  }

  lemma SliceLacks(s: string, i: nat, j: nat, c: char)
    requires c !in s && i <= j <= |s|
    ensures c !in s[i..j]
  {
    forall x | x in s[i..j] ensures x in s {
      var k :| 0 <= k < j - i && s[i..j][k] == x;
      assert s[i + k] == x;
    }
  }

  lemma PrefixLacks(x: string, y: string, c: char)
    requires c !in x && |y| <= |x| && y == x[..|y|]
    ensures c !in y
  {
    assert forall i :: 0 <= i < |y| ==> y[i] == x[i];
  }

  /** normalize_two_lines */
  function NormalizeTwoLines(msg: string, maxTotal: nat, maxLine: nat): (r: string)
    ensures |r| >= 1
  {
    var p := TwoLineParts(msg, maxTotal, maxLine);
    p.0 + "\n" + p.1
  }

  /** The result is two lines around exactly one "\n", each line at most
      `maxLine` long and without whitespace at its ends, and the whole at most
      `maxTotal` long when `maxTotal` is positive. */
  lemma NormalizeTwoLinesShape(msg: string, maxTotal: nat, maxLine: nat)
    ensures var r := NormalizeTwoLines(msg, maxTotal, maxLine);
      && SplitOn(r, '\n') == [TwoLineParts(msg, maxTotal, maxLine).0, TwoLineParts(msg, maxTotal, maxLine).1]
      && (forall l <- SplitOn(r, '\n') :: |l| <= maxLine && Edge(l))
      && CountChar(r, '\n') == 1
      && (maxTotal >= 1 ==> |r| <= maxTotal)
  {
    var p := TwoLineParts(msg, maxTotal, maxLine);
    TwoLinesShape(p.0, p.1, maxTotal, maxLine);
  }

  lemma TwoLinesShape(a: string, b: string, maxTotal: nat, maxLine: nat)
    requires '\n' !in a && '\n' !in b && |a| <= maxLine && |b| <= maxLine && Edge(a) && Edge(b)
    requires maxTotal >= 1 ==> |a| + 1 + |b| <= maxTotal
    ensures var r := a + "\n" + b;
      && SplitOn(r, '\n') == [a, b]
      && (forall l <- SplitOn(r, '\n') :: |l| <= maxLine && Edge(l))
      && CountChar(r, '\n') == 1
      && (maxTotal >= 1 ==> |r| <= maxTotal)
  {
    TwoLinesSplit(a, b);
  }

  /** Two lines without "\n" around one "\n" split back into those lines, and
      the text holds one "\n". */
  lemma TwoLinesSplit(a: string, b: string)
    requires '\n' !in a && '\n' !in b
    ensures SplitOn(a + "\n" + b, '\n') == [a, b]
    ensures CountChar(a + "\n" + b, '\n') == 1
  {
    var ls := [a, b];
    assert Join(ls, "\n") == a + "\n" + b;
    assert ls[0] in ls && ls[1] in ls;
    SplitOnOfJoin(ls, '\n');
    CountCharConcat(a + "\n", b, '\n');
    CountCharConcat(a, "\n", '\n');
    NoCharCount(a, '\n');
    NoCharCount(b, '\n');
  }

  lemma {:induction false} NoCharCount(s: string, c: char)
    requires c !in s
    ensures CountChar(s, c) == 0
    decreases |s|
  {
    if s != [] {
      assert s[..|s| - 1][..] == s[..|s| - 1];
      NoCharCount(s[..|s| - 1], c);
    }
  }

  /** A message whose first two non-blank lines are short comes back as exactly
      those two lines. */
  lemma NormalizeKeepsShortLines(msg: string, maxTotal: nat, maxLine: nat)
    requires |NonBlankLines(Strip(msg))| >= 2
    requires |NonBlankLines(Strip(msg))[0]| <= maxLine && |NonBlankLines(Strip(msg))[1]| <= maxLine
    requires |NonBlankLines(Strip(msg))[0]| + 1 + |NonBlankLines(Strip(msg))[1]| <= maxTotal
    ensures NormalizeTwoLines(msg, maxTotal, maxLine) == NonBlankLines(Strip(msg))[0] + "\n" + NonBlankLines(Strip(msg))[1]
  {
    var lines := NonBlankLines(Strip(msg));
    assert lines[0] in lines && lines[1] in lines;
    assert RawLines(msg) == (lines[0], lines[1]);
    CutShort(lines[0], maxLine);
    CutShort(lines[1], maxLine);
  }

  /** A result with two non-empty lines is a fixed point: normalising it again
      changes nothing. */
  lemma NormalizeTwoLinesFixed(msg: string, maxTotal: nat, maxLine: nat)
    requires maxTotal >= 1
    requires TwoLineParts(msg, maxTotal, maxLine).0 != [] && TwoLineParts(msg, maxTotal, maxLine).1 != []
    ensures NormalizeTwoLines(NormalizeTwoLines(msg, maxTotal, maxLine), maxTotal, maxLine) == NormalizeTwoLines(msg, maxTotal, maxLine)
  {
    var p := TwoLineParts(msg, maxTotal, maxLine);
    Renormalize(p.0, p.1, maxTotal, maxLine);
  }

  lemma Renormalize(a: string, b: string, maxTotal: nat, maxLine: nat)
    requires Trimmed(a) && Trimmed(b) && '\n' !in a && '\n' !in b
    requires |a| <= maxLine && |b| <= maxLine && |a| + 1 + |b| <= maxTotal
    ensures NormalizeTwoLines(a + "\n" + b, maxTotal, maxLine) == a + "\n" + b
  {
    var r := a + "\n" + b;
    TwoLinesSplit(a, b);
    var ls := [a, b];
    assert Join(ls, "\n") == r;
    assert ls[0] in ls && ls[1] in ls;
    JoinTrimmed(ls, "\n");
    StripOfStripped(r);
    StrippedNonBlankOfTrimmed(ls);
    assert NonBlankLines(Strip(r)) == ls;
    NormalizeKeepsShortLines(r, maxTotal, maxLine);
  }

  // ---------------------------------------------------------------------
  // _explode_popup

  /** The cards _explode_popup makes: one per non-blank line, or the whole
      message stripped when it has one line or none. */
  function Exploded(p: Popup): (r: seq<Popup>)
    ensures forall c <- r :: c.kind == p.kind && c.ttl == p.ttl && '\n' !in c.message && Edge(c.message)
    ensures |r| == Max(1, |NonBlankLines(p.message)|)
    ensures |NonBlankLines(p.message)| >= 2 ==>
      forall i :: 0 <= i < |r| ==> r[i].message == NonBlankLines(p.message)[i]
    ensures |NonBlankLines(p.message)| <= 1 ==> r[0].message == Strip(p.message)
  {
    ExplodeReady(p.message);
    CardsFor(p.kind, Strip(p.message), NonBlankLines(p.message), p.ttl)
  }

  /** What CardsFor needs of a message's lines and of the whole message. */
  lemma ExplodeReady(m: string)
    ensures forall l <- NonBlankLines(m) :: '\n' !in l && Edge(l)
    ensures |NonBlankLines(m)| <= 1 ==> '\n' !in Strip(m)
    ensures Edge(Strip(m))
  {
    BreakMeansTwoLines(m);
    LinesAreEdges(m);
  }

  function CardsFor(kind: string, whole: string, lines: seq<string>, ttl: int): (r: seq<Popup>)
    requires forall l <- lines :: '\n' !in l && Edge(l)
    requires |lines| <= 1 ==> '\n' !in whole
    requires Edge(whole)
    ensures forall c <- r :: c.kind == kind && c.ttl == ttl && '\n' !in c.message && Edge(c.message)
    ensures |r| == Max(1, |lines|)
    ensures |lines| >= 2 ==> forall i :: 0 <= i < |r| ==> r[i].message == lines[i]
    ensures |lines| <= 1 ==> r[0].message == whole
  {
    if |lines| <= 1 then [Popup(kind, whole, ttl)] else LineCardsOf(kind, lines, ttl)
  }

  lemma LinesAreEdges(s: string)
    ensures forall l <- NonBlankLines(s) :: Edge(l)
  {
    assert NonBlankLines(s) == StrippedNonBlank(SplitOn(s, '\n'));
  }

  /** One card per line, all of one kind and ttl. */
  function LineCardsOf(kind: string, lines: seq<string>, ttl: int): (r: seq<Popup>)
    ensures |r| == |lines|
    ensures forall i :: 0 <= i < |r| ==> r[i] == Popup(kind, lines[i], ttl)
    ensures forall c <- r :: c.kind == kind && c.ttl == ttl && c.message in lines
  {
    var r := seq(|lines|, i requires 0 <= i < |lines| => Popup(kind, lines[i], ttl));
    forall c <- r ensures c.kind == kind && c.ttl == ttl && c.message in lines {
      var i :| 0 <= i < |r| && r[i] == c;
    }
    r
  }

  /** _explode_popup */
  method ExplodePopup(p: Popup) returns (cards: seq<Popup>)
    ensures cards == Exploded(p)
  {
    var lines := NonBlankLines(p.message);
    if |lines| <= 1 {
      return [Popup(p.kind, Strip(p.message), p.ttl)];
    }
    cards := [];
    for i := 0 to |lines|
      invariant cards == LineCardsOf(p.kind, lines[..i], p.ttl)
    {
      cards := cards + [Popup(p.kind, lines[i], p.ttl)];
    }
    assert lines[..|lines|] == lines;
  }

  // ---------------------------------------------------------------------
  // Reading one generated popup

  /** `(msg or "").strip()` inside normalize_two_lines: a string, or "" for a
      missing or falsy value; any other value has no strip() and raises
      (None). */
  function MessageText(v: Value): (r: Option<string>)
    ensures r.Some? <==> v.Str? || Falsy(v)
    ensures v.Str? ==> r == Some(v.s)
  {
    if TextLike(v) then Some(TextOr(v)) else None
  }


  const DefaultTtl: int := 12000

  /** `int(popup.get("ttl", 12000))`: None where int() raises. */
  function TtlOf(fields: map<string, Value>): (r: Option<int>)
    ensures "ttl" !in fields ==> r == Some(DefaultTtl)
    ensures "ttl" in fields ==> r == IntOf(fields["ttl"])
  {
    if "ttl" !in fields then Some(DefaultTtl) else IntOf(fields["ttl"])
  }

  const TtlFloor: int := 10000
  const TtlCeiling: int := 14000

  /** `max(10000, min(14000, ttl))` */
  function ClampTtl(ttl: int): (r: int)
    ensures TtlFloor <= r <= TtlCeiling
    ensures TtlFloor <= ttl <= TtlCeiling ==> r == ttl
    ensures ttl < TtlFloor ==> r == TtlFloor
    ensures ttl > TtlCeiling ==> r == TtlCeiling
  {
    Max(TtlFloor, Min(TtlCeiling, ttl))
  }

  /** A card as the generator shows it: a popup type, a clamped ttl, and one
      line of text without whitespace at its ends. */
  predicate Shown(p: Popup) {
    p.kind in PopupTypes && TtlFloor <= p.ttl <= TtlCeiling && '\n' !in p.message && Edge(p.message)
  }

  /** What one entry of "popups" comes to: the loop stops (Crash), the entry is
      dropped (Skip), or it yields cards. */
  datatype Item = Crash | Skip | Cards(cards: seq<Popup>)

  /** One entry of "popups": non-dictionaries are skipped; the message is cut
      to two lines and the ttl read and clamped; a record failing validation or
      the message guard is skipped; a valid one is exploded into cards. */
  function ScreenPopup(item: Value, profile: Profile): (r: Item)
    requires Readable(profile)
    ensures !item.Dict? ==> r == Skip
    ensures r.Cards? ==> r.cards != [] && forall c <- r.cards :: Shown(c)
    ensures r.Crash? <==> item.Dict? && (MessageText(Get(item.fields, "message")).None? || TtlOf(item.fields).None?)
  {
    if !item.Dict? then Skip
    else if MessageText(Get(item.fields, "message")).None? || TtlOf(item.fields).None? then Crash
    else
      match AcceptedPopup(item.fields, profile)
      case None => Skip
      case Some(v) => Cards(Exploded(v))
  }

  /** An entry whose message and ttl are readable: the validated popup, kept
      only when its message passes the guard. */
  function AcceptedPopup(fields: map<string, Value>, profile: Profile): (r: Option<Popup>)
    requires Readable(profile)
    requires MessageText(Get(fields, "message")).Some? && TtlOf(fields).Some?
  {
    var text := MessageText(Get(fields, "message")).value;
    var v := ValidatePopup(Get(fields, "type"), NormalizeTwoLines(text, MaxTotal, MaxLine), ClampTtl(TtlOf(fields).value));
    if v.None? || !ValidatePopupMessage(v.value.message, profile) then None else v
  }

  // ---------------------------------------------------------------------
  // Collecting the cards

  /** The key a card is told apart by: its type and its stripped message. */
  function ShownKey(p: Popup): Key {
    (p.kind, Strip(p.message))
  }

  /** Each card whose key is not yet seen, in order; each key then seen. */
  function AddUnique(cards: seq<Popup>, acc: Acc): (r: Acc)
    decreases |cards|
  {
    if cards == [] then acc
    else
      var key := ShownKey(cards[0]);
      if key in acc.seen then AddUnique(cards[1..], acc)
      else AddUnique(cards[1..], Acc(acc.created + [cards[0]], acc.seen + {key}))
  }

  /** Every entry of "popups" screened. Screening has no side effect, so
      screening all of them and then stopping at the first Crash is the loop
      that stops there. */
  function Screened(items: seq<Value>, profile: Profile): (r: seq<Item>)
    requires Readable(profile)
    ensures |r| == |items|
    ensures forall i :: 0 <= i < |r| ==> r[i] == ScreenPopup(items[i], profile)
    ensures forall it <- r :: ItemOk(it)
  {
    var r := seq(|items|, i requires 0 <= i < |items| => ScreenPopup(items[i], profile));
    assert forall it <- r :: ItemOk(it) by {
      forall it <- r ensures ItemOk(it) {
        var i :| 0 <= i < |r| && r[i] == it;
      }
    }
    r
  }

  /** What a screened entry may yield: some shown cards. */
  predicate ItemOk(it: Item) {
    it.Cards? ==> it.cards != [] && forall c <- it.cards :: Shown(c)
  }

  /** The loop over "popups": None when an entry raises. */
  function ScreenFrom(items: seq<Item>, acc: Acc): (r: Option<Acc>)
    decreases |items|
  {
    if items == [] then Some(acc)
    else
      match items[0]
      case Crash => None
      case Skip => ScreenFrom(items[1..], acc)
      case Cards(cards) => ScreenFrom(items[1..], AddUnique(cards, acc))
  }

  predicate DistinctKeys(ps: seq<Popup>) {
    forall i, j :: 0 <= i < j < |ps| ==> KeyOf(ps[i]) != KeyOf(ps[j])
  }

  /** The collected cards are all shown cards with distinct keys, and the seen
      set holds exactly their keys. */
  predicate Good(acc: Acc) {
    && (forall p <- acc.created :: Shown(p))
    && DistinctKeys(acc.created)
    && acc.seen == KeysOf(acc.created)
  }

  /** Adding cards keeps the collection good, keeps what was there, and leaves
      every offered key seen. */
  lemma {:induction false} AddUniqueGood(cards: seq<Popup>, acc: Acc)
    requires Good(acc) && forall c <- cards :: Shown(c)
    ensures Good(AddUnique(cards, acc))
    ensures acc.created <= AddUnique(cards, acc).created
    ensures forall c <- cards :: KeyOf(c) in AddUnique(cards, acc).seen
    decreases |cards|
  {
    if cards != [] {
      var c := cards[0];
      assert c in cards;
      StripOfEdge(c.message);
      assert ShownKey(c) == KeyOf(c);
      var next := if KeyOf(c) in acc.seen then acc else Acc(acc.created + [c], acc.seen + {KeyOf(c)});
      if KeyOf(c) !in acc.seen {
        GoodSnoc(acc, c);
      }
      assert forall d <- cards[1..] :: d in cards;
      AddUniqueGood(cards[1..], next);
      var r := AddUnique(cards[1..], next);
      assert AddUnique(cards, acc) == r;
      assert acc.created <= next.created;
      PrefixTrans(acc.created, next.created, r.created);
      KeysOfPrefix(next.created, r.created);
      assert KeyOf(c) in next.seen;
    }
  }

  lemma PrefixTrans(a: seq<Popup>, b: seq<Popup>, c: seq<Popup>)
    requires a <= b && b <= c
    ensures a <= c
  {
    assert c[..|a|] == b[..|a|];
  }

  lemma KeysOfPrefix(a: seq<Popup>, b: seq<Popup>)
    requires a <= b
    ensures KeysOf(a) <= KeysOf(b)
  {
    forall k | k in KeysOf(a) ensures k in KeysOf(b) {
      var p :| p in a && KeyOf(p) == k;
      var i :| 0 <= i < |a| && a[i] == p;
      assert b[i] == p;
    }
  }

  lemma StripOfEdge(x: string)
    requires Edge(x)
    ensures Strip(x) == x
  {
    StripOfStripped(x);
  }

  lemma GoodSnoc(acc: Acc, c: Popup)
    requires Good(acc) && Shown(c) && KeyOf(c) !in acc.seen
    ensures Good(Acc(acc.created + [c], acc.seen + {KeyOf(c)}))
  {
    var cs := acc.created + [c];
    KeysOfConcat(acc.created, [c]);
    forall i, j | 0 <= i < j < |cs| ensures KeyOf(cs[i]) != KeyOf(cs[j]) {
      if j == |cs| - 1 {
        assert cs[i] in acc.created;
      } else {
        assert cs[i] == acc.created[i] && cs[j] == acc.created[j];
      }
    }
  }

  /** A loop that finishes leaves a good collection that extends the one it
      started from; a non-empty card list always leaves some card. */
  lemma {:induction false} ScreenFromGood(items: seq<Item>, acc: Acc)
    requires Good(acc) && forall it <- items :: ItemOk(it)
    ensures ScreenFrom(items, acc).Some? ==>
      Good(ScreenFrom(items, acc).value) && acc.created <= ScreenFrom(items, acc).value.created
    decreases |items|
  {
    if items != [] {
      assert items[0] in items;
      assert forall it <- items[1..] :: it in items;
      match items[0]
      case Crash =>
      case Skip =>
        ScreenFromGood(items[1..], acc);
      case Cards(cards) =>
        AddUniqueGood(cards, acc);
        var next := AddUnique(cards, acc);
        ScreenFromGood(items[1..], next);
        var r := ScreenFrom(items[1..], next);
        assert ScreenFrom(items, acc) == r;
        if r.Some? {
          PrefixTrans(acc.created, next.created, r.value.created);
        }
    }
  }

  // ---------------------------------------------------------------------
  // One attempt and the whole of generate_popups

  /** `data.get("popups") or []` as the loop sees it: None where it raises. A
      string or dictionary is iterated as its characters or keys, all of them
      strings and so all skipped; they are given as no entries. */
  function PopupItems(data: Value): (r: Option<seq<Value>>)
    ensures !data.Dict? ==> r.None?
    ensures data.Dict? && Get(data.fields, "popups").List? ==> r == Some(Get(data.fields, "popups").items)
  {
    if !data.Dict? then None
    else
      var v := Get(data.fields, "popups");
      if Falsy(v) then Some([])
      else
        match v
        case List(items) => Some(items)
        case Str(_) => Some([])
        case Dict(_) => Some([])
        case _ => None
  }

  /** How one attempt ends: stop trying, try again, or return these popups. */
  datatype Outcome = Stop | Retry | Done(popups: seq<Popup>)

  /** One attempt: a reply that fails to decode is retried; any other failure
      stops; an attempt that yields no card is retried; otherwise the cards,
      topped up to three and cut to fifteen, are the answer. */
  function AttemptOutcome(reply: Reply<Value>, profile: Profile, signals: seq<string>): (o: Outcome)
    requires Readable(profile)
  {
    match reply
    case Malformed => Retry
    case Crashed => Stop
    case Parsed(data) =>
      match PopupItems(data)
      case None => Stop
      case Some(items) =>
        match ScreenFrom(Screened(items, profile), Acc([], {}))
        case None => Stop
        case Some(acc) =>
          if acc.created == [] then Retry else Done(EnsureMinimum(acc.created, acc.seen, signals))
  }

  const Attempts: nat := 2

  /** The fallback when no attempt succeeds: three cards asked for, at most
      fifteen kept. */
  function FinalFallback(signals: seq<string>): seq<Popup> {
    First(Fallback(Minimum, {}, signals), Limit)
  }

  /** The answer given the replies of the attempts made. */
  function AttemptsFrom(profile: Profile, signals: seq<string>, replies: seq<Reply<Value>>): seq<Popup>
    requires Readable(profile)
    decreases |replies|
  {
    if replies == [] then FinalFallback(signals)
    else
      match AttemptOutcome(replies[0], profile, signals)
      case Done(popups) => popups
      case Stop => FinalFallback(signals)
      case Retry => AttemptsFrom(profile, signals, replies[1..])
  }

  /** generate_popups as a function of the model's replies: an empty profile
      gets no popups. */
  function Generated(profile: Profile, signals: seq<string>, replies: seq<Reply<Value>>): seq<Popup>
    requires Readable(profile)
  {
    if profile == map[] then [] else AttemptsFrom(profile, signals, replies)
  }

  /** What the model is asked: the stress profile and the emotion signals. */
  datatype Payload = Payload(profile: Profile, signals: seq<string>)

  /** One attempt after another, retrying at most twice in all. */
  lemma AttemptsStep(profile: Profile, signals: seq<string>, replies: seq<Reply<Value>>)
    requires Readable(profile)
    requires replies != [] && AttemptOutcome(replies[0], profile, signals) == Retry
    ensures AttemptsFrom(profile, signals, replies) == AttemptsFrom(profile, signals, replies[1..])
  {
  }

  lemma {:induction false} RetriesThen(profile: Profile, signals: seq<string>, tried: seq<Reply<Value>>, rest: seq<Reply<Value>>)
    requires Readable(profile)
    requires forall r <- tried :: AttemptOutcome(r, profile, signals) == Retry
    ensures AttemptsFrom(profile, signals, tried + rest) == AttemptsFrom(profile, signals, rest)
    decreases |tried|
  {
    if tried == [] {
      assert tried + rest == rest;
    } else {
      assert tried[0] in tried;
      assert (tried + rest)[0] == tried[0];
      AttemptsStep(profile, signals, tried + rest);
      assert (tried + rest)[1..] == tried[1..] + rest;
      assert forall r <- tried[1..] :: r in tried;
      RetriesThen(profile, signals, tried[1..], rest);
    }
  }

  // ---------------------------------------------------------------------
  // What reaches the student

  /** Every template card is shown: a popup type, a ttl of 12 seconds and one
      trimmed line. */
  lemma DrawnShown(pairs: map<string, (string, string)>, cards: seq<Popup>)
    requires forall t <- pairs :: CleanPair(pairs[t]) && t in PopupTypes
    requires Drawn(Joined(pairs), cards) && forall c <- cards :: c.ttl == CardTtl
    ensures forall c <- cards :: Shown(c)
  {
    JoinedWellFormed(pairs);
    forall c <- cards ensures Shown(c) {
      assert c.kind in pairs;
      var lines := FallbackLines(Joined(pairs), c.kind);
      assert lines == [pairs[c.kind].0, pairs[c.kind].1];
      assert CleanPair(pairs[c.kind]);
    }
  }

  lemma FallbackTemplateCardsShown(cards: seq<Popup>)
    requires Drawn(FallbackTemplates, cards) && forall c <- cards :: c.ttl == CardTtl
    ensures forall c <- cards :: Shown(c)
  {
    TemplatePairsClean();
    TemplateTypesArePopupTypes();
    DrawnShown(TemplatePairs, cards);
  }

  /** Topping up good cards keeps every card shown and every key distinct,
      never passes fifteen, and leaves a non-empty list non-empty. */
  lemma EnsureMinimumGood(popups: seq<Popup>, signals: seq<string>)
    requires Good(Acc(popups, KeysOf(popups)))
    ensures var r := EnsureMinimum(popups, KeysOf(popups), signals);
      && |r| <= Limit
      && (forall c <- r :: Shown(c))
      && DistinctKeys(r)
      && (popups != [] ==> r != [])
  {
    var seen := KeysOf(popups);
    if |popups| < Minimum {
      var order := FallbackOrder(FallbackTemplates, signals);
      var acc := FallbackFrom(FallbackTemplates, order, Minimum - |popups|, Acc([], seen));
      FallbackTemplatesWellFormed();
      FallbackExtends(FallbackTemplates, order, Minimum - |popups|, Acc([], seen));
      FreshTemplateCards(seen, acc);
      ConcatGood(popups, acc.created);
      FirstGood(popups + acc.created);
    } else {
      FirstGood(popups);
    }
  }

  /** Good cards followed by shown cards with distinct keys, none of them a key
      of the first, have distinct keys throughout. */
  lemma ConcatGood(popups: seq<Popup>, added: seq<Popup>)
    requires (forall c <- popups :: Shown(c)) && DistinctKeys(popups)
    requires (forall c <- added :: Shown(c)) && DistinctKeys(added)
    requires forall c <- added :: KeyOf(c) !in KeysOf(popups)
    ensures (forall c <- popups + added :: Shown(c)) && DistinctKeys(popups + added)
  {
    var r := popups + added;
    var n := |popups|;
    forall i, j | 0 <= i < j < |r| ensures KeyOf(r[i]) != KeyOf(r[j]) {
      if j < n {
        assert r[i] == popups[i] && r[j] == popups[j];
      } else if i < n {
        assert r[i] in popups && r[j] == added[j - n];
        assert r[j] in added;
      } else {
        assert r[i] == added[i - n] && r[j] == added[j - n];
      }
    }
  }

  lemma FirstGood(popups: seq<Popup>)
    requires (forall c <- popups :: Shown(c)) && DistinctKeys(popups)
    ensures forall c <- First(popups, Limit) :: Shown(c)
    ensures DistinctKeys(First(popups, Limit))
    ensures popups != [] ==> First(popups, Limit) != []
  {
    var r := First(popups, Limit);
    assert forall i :: 0 <= i < |r| ==> r[i] == popups[i];
  }

  /** The cards the fallback adds are shown cards with distinct keys, none of
      them seen before. */
  lemma FreshTemplateCards(seen: set<Key>, acc: Acc)
    requires Extends(Acc([], seen), acc) && Drawn(FallbackTemplates, acc.created)
    ensures (forall c <- acc.created :: Shown(c)) && DistinctKeys(acc.created)
    ensures forall c <- acc.created :: KeyOf(c) !in seen
  {
    FreshFromNothing(seen, acc);
    FallbackTemplateCardsShown(acc.created);
  }

  /** Cards added to an empty collection are fresh, with distinct keys. */
  lemma FreshFromNothing(seen: set<Key>, acc: Acc)
    requires Extends(Acc([], seen), acc)
    ensures forall c <- acc.created :: c.ttl == CardTtl && KeyOf(c) !in seen
    ensures DistinctKeys(acc.created)
  {
    var cs := acc.created;
    forall c <- cs ensures c.ttl == CardTtl && KeyOf(c) !in seen {
      var i :| 0 <= i < |cs| && cs[i] == c;
      assert FreshCard(Acc([], seen), cs[i]);
    }
  }

  /** The final fallback: between one and fifteen shown cards, keys distinct. */
  lemma FinalFallbackGood(signals: seq<string>)
    ensures var r := FinalFallback(signals);
      && 1 <= |r| <= Limit
      && (forall c <- r :: Shown(c))
      && DistinctKeys(r)
  {
    var order := FallbackOrder(FallbackTemplates, signals);
    var acc := FallbackFrom(FallbackTemplates, order, Minimum, Acc([], {}));
    FallbackTemplatesWellFormed();
    FallbackExtends(FallbackTemplates, order, Minimum, Acc([], {}));
    FallbackOvershoot(signals);
    FreshTemplateCards({}, acc);
    FirstGood(acc.created);
  }

  /** The popups are what reaches the student: predicate of a finished list. */
  predicate Delivered(ps: seq<Popup>) {
    && 1 <= |ps| <= Limit
    && (forall c <- ps :: Shown(c))
    && DistinctKeys(ps)
  }

  /** An attempt that succeeds returns a delivered list. */
  lemma AttemptGood(reply: Reply<Value>, profile: Profile, signals: seq<string>)
    requires Readable(profile)
    ensures AttemptOutcome(reply, profile, signals).Done? ==> Delivered(AttemptOutcome(reply, profile, signals).popups)
  {
    if reply.Parsed? && PopupItems(reply.value).Some? {
      var items := PopupItems(reply.value).value;
      assert KeysOf([]) == {};
      ScreenFromGood(Screened(items, profile), Acc([], {}));
      var r := ScreenFrom(Screened(items, profile), Acc([], {}));
      if r.Some? {
        EnsureMinimumGood(r.value.created, signals);
      }
    }
  }

  lemma {:induction false} AttemptsFromGood(profile: Profile, signals: seq<string>, replies: seq<Reply<Value>>)
    requires Readable(profile)
    ensures Delivered(AttemptsFrom(profile, signals, replies))
    decreases |replies|
  {
    FinalFallbackGood(signals);
    if replies != [] {
      AttemptGood(replies[0], profile, signals);
      AttemptsFromGood(profile, signals, replies[1..]);
    }
  }

  /** generate_popups gives nothing for an empty profile, and otherwise between
      one and fifteen cards, each of a popup type, with a ttl between 10 and 14
      seconds and one trimmed line of text, no two with the same type and
      text -- whatever the model replies. */
  lemma GeneratedShape(profile: Profile, signals: seq<string>, replies: seq<Reply<Value>>)
    requires Readable(profile)
    ensures profile == map[] ==> Generated(profile, signals, replies) == []
    ensures profile != map[] ==> Delivered(Generated(profile, signals, replies))
  {
    if profile != map[] {
      AttemptsFromGood(profile, signals, replies);
    }
  }

  // ---------------------------------------------------------------------
  // The loops of generate_popups

  /** The inner loop: each card whose key is not yet seen is kept. */
  method AddCards(cards: seq<Popup>, created0: seq<Popup>, seen0: set<Key>)
    returns (created: seq<Popup>, seen: set<Key>)
    ensures Acc(created, seen) == AddUnique(cards, Acc(created0, seen0))
  {
    created, seen := created0, seen0;
    for i := 0 to |cards|
      invariant AddUnique(cards, Acc(created0, seen0)) == AddUnique(cards[i..], Acc(created, seen))
    {
      assert cards[i..][1..] == cards[i + 1..];
      var card := cards[i];
      var key := (card.kind, Strip(card.message));
      if key !in seen {
        seen := seen + {key};
        created := created + [card];
      }
    }
    assert cards[|cards|..] == [];
  }

  /** One entry of "popups": `crashed` when it raised, otherwise the cards kept
      so far after its own cards were added. */
  method ScreenEntry(item: Value, profile: Profile, created0: seq<Popup>, seen0: set<Key>)
    returns (crashed: bool, created: seq<Popup>, seen: set<Key>)
    requires Readable(profile)
    ensures crashed <==> ScreenPopup(item, profile).Crash?
    ensures ScreenPopup(item, profile).Skip? ==> created == created0 && seen == seen0
    ensures ScreenPopup(item, profile).Cards? ==>
      Acc(created, seen) == AddUnique(ScreenPopup(item, profile).cards, Acc(created0, seen0))
  {
    created, seen := created0, seen0;
    crashed := item.Dict? && (MessageText(Get(item.fields, "message")).None? || TtlOf(item.fields).None?);
    if item.Dict? && !crashed {
      var popup := AcceptedPopup(item.fields, profile);
      if popup.Some? {
        var cards := ExplodePopup(popup.value);
        created, seen := AddCards(cards, created, seen);
      }
    }
  }

  /** The loop over "popups"; `ok` is false when an entry raised. */
  method ScreenItems(items: seq<Value>, profile: Profile)
    returns (ok: bool, created: seq<Popup>, seen: set<Key>)
    requires Readable(profile)
    ensures ok <==> ScreenFrom(Screened(items, profile), Acc([], {})).Some?
    ensures ok ==> Acc(created, seen) == ScreenFrom(Screened(items, profile), Acc([], {})).value
  {
    created, seen := [], {};
    ghost var screened := Screened(items, profile);
    var i := 0;
    ok := true;
    while i < |items| && ok
      invariant 0 <= i <= |items|
      invariant ok ==> ScreenFrom(screened, Acc([], {})) == ScreenFrom(screened[i..], Acc(created, seen))
      invariant !ok ==> ScreenFrom(screened, Acc([], {})).None?
    {
      assert screened[i..][1..] == screened[i + 1..];
      assert screened[i..][0] == ScreenPopup(items[i], profile);
      var crashed;
      crashed, created, seen := ScreenEntry(items[i], profile, created, seen);
      ok := !crashed;
      i := i + 1;
    }
    if ok {
      assert screened[i..] == [];
    }
  }

  /** One attempt, given the model's reply. */
  method Attempt(reply: Reply<Value>, profile: Profile, signals: seq<string>) returns (o: Outcome)
    requires Readable(profile)
    ensures o == AttemptOutcome(reply, profile, signals)
  {
    if reply.Malformed? {
      return Retry;
    }
    if reply.Crashed? {
      return Stop;
    }
    var items := PopupItems(reply.value);
    if items.None? {
      return Stop;
    }
    var ok, created, seen := ScreenItems(items.value, profile);
    if !ok {
      return Stop;
    }
    if created == [] {
      return Retry;
    }
    var popups := EnsureMinimumPopups(created, seen, signals);
    return Done(popups);
  }

  /** generate_popups: at most two questions to the model, each the same
      payload, none for an empty profile; the answer is the one the replies
      determine. */
  method GeneratePopups(profile: Profile, signals: seq<string>, model: Oracle<Payload, Value>)
    returns (popups: seq<Popup>)
    requires Readable(profile)
    modifies model
    ensures old(model.asked) <= model.asked && |model.asked| <= |old(model.asked)| + Attempts
    ensures forall i :: |old(model.asked)| <= i < |model.asked| ==> model.asked[i] == Payload(profile, signals)
    ensures profile == map[] ==> model.asked == old(model.asked)
    ensures old(model.answered) <= model.answered
    ensures popups == Generated(profile, signals, model.answered[|old(model.answered)|..])
  {
    if profile == map[] {
      assert model.answered[|old(model.answered)|..] == [];
      return [];
    }
    popups := AskModel(profile, signals, model);
  }

  /** The attempts: ask, and stop at the first attempt that does not call
      for another. */
  method AskModel(profile: Profile, signals: seq<string>, model: Oracle<Payload, Value>)
    returns (popups: seq<Popup>)
    requires Readable(profile)
    modifies model
    ensures old(model.asked) <= model.asked && |model.asked| <= |old(model.asked)| + Attempts
    ensures forall i :: |old(model.asked)| <= i < |model.asked| ==> model.asked[i] == Payload(profile, signals)
    ensures old(model.answered) <= model.answered
    ensures popups == AttemptsFrom(profile, signals, model.answered[|old(model.answered)|..])
  {
    ghost var tried: seq<Reply<Value>> := [];
    ghost var replies: seq<Reply<Value>> := [];
    var attempt := 0;
    var last: Outcome := Retry;
    while attempt < Attempts && last.Retry?
      invariant 0 <= attempt <= Attempts && |replies| == attempt
      invariant old(model.asked) <= model.asked && |model.asked| == |old(model.asked)| + attempt
      invariant forall i :: |old(model.asked)| <= i < |model.asked| ==> model.asked[i] == Payload(profile, signals)
      invariant model.answered == old(model.answered) + replies
      invariant forall r <- tried :: AttemptOutcome(r, profile, signals) == Retry
      invariant last.Retry? ==> tried == replies
      invariant !last.Retry? ==> 1 <= attempt && replies == tried + [replies[attempt - 1]] && last == AttemptOutcome(replies[attempt - 1], profile, signals)
    {
      var reply;
      reply, last := AskRound(profile, signals, model);
      replies := replies + [reply];
      if last.Retry? {
        tried := replies;
      }
      attempt := attempt + 1;
    }
    assert model.answered[|old(model.answered)|..] == replies;
    if last.Retry? {
      RetriesThen(profile, signals, replies, []);
      assert replies + [] == replies;
    } else {
      AfterRetries(profile, signals, tried, replies[attempt - 1]);
    }
    if last.Done? {
      popups := last.popups;
    } else {
      popups := FallbackOnly(signals);
    }
  }

  /** One attempt: the model is asked once and its reply judged. */
  method AskRound(profile: Profile, signals: seq<string>, model: Oracle<Payload, Value>)
    returns (reply: Reply<Value>, o: Outcome)
    requires Readable(profile)
    modifies model
    ensures model.asked == old(model.asked) + [Payload(profile, signals)]
    ensures model.answered == old(model.answered) + [reply]
    ensures o == AttemptOutcome(reply, profile, signals)
  {
    reply := model.Ask(Payload(profile, signals));
    o := Attempt(reply, profile, signals);
  }

  /** After retries, an attempt that does not retry decides the answer. */
  lemma AfterRetries(profile: Profile, signals: seq<string>, tried: seq<Reply<Value>>, reply: Reply<Value>)
    requires Readable(profile)
    requires forall r <- tried :: AttemptOutcome(r, profile, signals) == Retry
    requires !AttemptOutcome(reply, profile, signals).Retry?
    ensures AttemptsFrom(profile, signals, tried + [reply]) ==
      if AttemptOutcome(reply, profile, signals).Done? then AttemptOutcome(reply, profile, signals).popups else FinalFallback(signals)
  {
    RetriesThen(profile, signals, tried, [reply]);
  }

  /** The fallback when every attempt failed. */
  method FallbackOnly(signals: seq<string>) returns (popups: seq<Popup>)
    ensures popups == FinalFallback(signals)
  {
    var created, _ := FallbackPopups(Minimum, {}, signals);
    popups := First(created, Limit);
  }
}
