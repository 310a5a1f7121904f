/** The browser side of the interview page that is logic rather than
    rendering: HTML escaping, the popup queue that shows one popup card at a
    time, the on-screen duration of a card, the practice-question panel's
    index, the test that decides which questions to mutate, and the log box. */
module Client {
  import opened Text

  function Min(a: int, b: int): int { if a <= b then a else b }
  function Max(a: int, b: int): int { if a >= b then a else b }

  /** `Math.min(Math.max(x, lo), hi)`. */
  function Clamp(x: int, lo: int, hi: int): (r: int)
    requires lo <= hi
    ensures lo <= r <= hi
    ensures lo <= x <= hi ==> r == x
    ensures x < lo ==> r == lo
    ensures hi < x ==> r == hi
  {
    Min(Max(x, lo), hi)
  }

  // ---------------------------------------------------------------------
  // escapeHTML

  /** `s.replaceAll(c, rep)` for a one-character pattern. */
  function ReplaceAll(s: string, c: char, rep: string): (r: string)
    decreases |s|
  {
    if s == [] then [] else (if s[0] == c then rep else [s[0]]) + ReplaceAll(s[1..], c, rep)
  }

  lemma {:induction false} ReplaceAllAbsent(s: string, c: char, rep: string)
    requires c !in s
    ensures ReplaceAll(s, c, rep) == s
    decreases |s|
  {
    if s != [] {
      ReplaceAllAbsent(s[1..], c, rep);
      assert [s[0]] + s[1..] == s;
    }
  }

  lemma {:induction false} ReplaceAllAppend(a: string, b: string, c: char, rep: string)
    ensures ReplaceAll(a + b, c, rep) == ReplaceAll(a, c, rep) + ReplaceAll(b, c, rep)
    decreases |a|
  {
    if a == [] {
      assert a + b == b;
    } else {
      assert (a + b)[1..] == a[1..] + b;
      ReplaceAllAppend(a[1..], b, c, rep);
    }
  }

  /** escapeHTML: the five replacements in the source's order, "&" first. */
  function EscapeHtml(s: string): string {
    ReplaceAll(ReplaceAll(ReplaceAll(ReplaceAll(ReplaceAll(s, '&', "&amp;"), '<', "&lt;"), '>', "&gt;"), '"', "&quot;"), '\'', "&#039;")
  }

  /** The entity each character becomes on its own. */
  function EscapeChar(c: char): (r: string)
    ensures r == [c] || (4 <= |r| && r[0] == '&')
  {
    if c == '&' then "&amp;"
    else if c == '<' then "&lt;"
    else if c == '>' then "&gt;"
    else if c == '"' then "&quot;"
    else if c == '\'' then "&#039;"
    else [c]
  }

  /** The reference escaping: every character replaced by its entity at once. */
  function EscapedEach(s: string): (r: string)
    ensures forall i :: 0 <= i < |r| ==> r[i] != '<' && r[i] != '>' && r[i] != '"' && r[i] != '\''
    decreases |s|
  {
    if s == [] then [] else EscapeChar(s[0]) + EscapedEach(s[1..])
  }

  lemma EscapeHtmlAppend(a: string, b: string)
    ensures EscapeHtml(a + b) == EscapeHtml(a) + EscapeHtml(b)
  {
    var a1, b1 := ReplaceAll(a, '&', "&amp;"), ReplaceAll(b, '&', "&amp;");
    ReplaceAllAppend(a, b, '&', "&amp;");
    var a2, b2 := ReplaceAll(a1, '<', "&lt;"), ReplaceAll(b1, '<', "&lt;");
    ReplaceAllAppend(a1, b1, '<', "&lt;");
    var a3, b3 := ReplaceAll(a2, '>', "&gt;"), ReplaceAll(b2, '>', "&gt;");
    ReplaceAllAppend(a2, b2, '>', "&gt;");
    var a4, b4 := ReplaceAll(a3, '"', "&quot;"), ReplaceAll(b3, '"', "&quot;");
    ReplaceAllAppend(a3, b3, '"', "&quot;");
    ReplaceAllAppend(a4, b4, '\'', "&#039;");
  }

  lemma ReplaceAllOne(x: char, c: char, rep: string)
    ensures ReplaceAll([x], c, rep) == (if x == c then rep else [x])
  {
    assert [x][1..] == [];
  }

  /** A character the escaping leaves as it is. */
  lemma EscapePlain(c: char)
    requires c != '&' && c != '<' && c != '>' && c != '"' && c != '\''
    ensures EscapeHtml([c]) == [c]
  {
    ReplaceAllOne(c, '&', "&amp;");
    ReplaceAllOne(c, '<', "&lt;");
    ReplaceAllOne(c, '>', "&gt;");
    ReplaceAllOne(c, '"', "&quot;");
    ReplaceAllOne(c, '\'', "&#039;");
  }

  /** Each special character becomes its entity, which the later replacements
      in the chain leave alone. */
  lemma EscapeAmp()
    ensures EscapeHtml("&") == "&amp;"
  {
    ReplaceAllOne('&', '&', "&amp;");
    assert '<' !in "&amp;" && '>' !in "&amp;" && '"' !in "&amp;" && '\'' !in "&amp;";
    ReplaceAllAbsent("&amp;", '<', "&lt;");
    ReplaceAllAbsent("&amp;", '>', "&gt;");
    ReplaceAllAbsent("&amp;", '"', "&quot;");
    ReplaceAllAbsent("&amp;", '\'', "&#039;");
  }

  lemma EscapeLt()
    ensures EscapeHtml("<") == "&lt;"
  {
    ReplaceAllOne('<', '&', "&amp;");
    ReplaceAllOne('<', '<', "&lt;");
  }

  lemma EscapeGt()
    ensures EscapeHtml(">") == "&gt;"
  {
    ReplaceAllOne('>', '&', "&amp;");
    ReplaceAllOne('>', '<', "&lt;");
    ReplaceAllOne('>', '>', "&gt;");
  }

  lemma EscapeQuot()
    ensures EscapeHtml("\"") == "&quot;"
  {
    ReplaceAllOne('"', '&', "&amp;");
    ReplaceAllOne('"', '<', "&lt;");
    ReplaceAllOne('"', '>', "&gt;");
    ReplaceAllOne('"', '"', "&quot;");
  }

  lemma EscapeApos()
    ensures EscapeHtml("'") == "&#039;"
  {
    ReplaceAllOne('\'', '&', "&amp;");
    ReplaceAllOne('\'', '<', "&lt;");
    ReplaceAllOne('\'', '>', "&gt;");
    ReplaceAllOne('\'', '"', "&quot;");
    ReplaceAllOne('\'', '\'', "&#039;");
  }

  lemma EscapeOne(c: char)
    ensures EscapeHtml([c]) == EscapeChar(c)
  {
    if c == '&' {
      EscapeAmp();
    } else if c == '<' {
      EscapeLt();
    } else if c == '>' {
      EscapeGt();
    } else if c == '"' {
      EscapeQuot();
    } else if c == '\'' {
      EscapeApos();
    } else {
      EscapePlain(c);
    }
  }

  /** The chain of replaceAll calls escapes each character independently. */
  lemma {:induction false} EscapeHtmlIsEach(s: string)
    ensures EscapeHtml(s) == EscapedEach(s)
    decreases |s|
  {
    if s != [] {
      assert s == [s[0]] + s[1..];
      EscapeHtmlAppend([s[0]], s[1..]);
      EscapeOne(s[0]);
      EscapeHtmlIsEach(s[1..]);
    }
  }

  /** The escaped text carries no raw "<", ">", '"' or "'". */
  lemma EscapeHtmlSafe(s: string)
    ensures var r := EscapeHtml(s);
      forall i :: 0 <= i < |r| ==> r[i] != '<' && r[i] != '>' && r[i] != '"' && r[i] != '\''
  {
    EscapeHtmlIsEach(s);
  }

  /** The character an entity at the head of t stands for, and the entity's length. */
  function EntityAt(t: string): (r: Option<(char, nat)>)
    ensures r.Some? ==> 4 <= r.value.1 <= |t|
  {
    if 5 <= |t| && t[0] == '&' && t[1] == 'a' && t[2] == 'm' && t[3] == 'p' && t[4] == ';' then Some(('&', 5))
    else if 4 <= |t| && t[0] == '&' && t[1] == 'l' && t[2] == 't' && t[3] == ';' then Some(('<', 4))
    else if 4 <= |t| && t[0] == '&' && t[1] == 'g' && t[2] == 't' && t[3] == ';' then Some(('>', 4))
    else if 6 <= |t| && t[0] == '&' && t[1] == 'q' && t[2] == 'u' && t[3] == 'o' && t[4] == 't' && t[5] == ';' then Some(('"', 6))
    else if 6 <= |t| && t[0] == '&' && t[1] == '#' && t[2] == '0' && t[3] == '3' && t[4] == '9' && t[5] == ';' then Some(('\'', 6))
    else None
  }

  /** Decodes the five entities escapeHTML produces; everything else is kept. */
  function UnescapeHtml(t: string): string
    decreases |t|
  {
    if t == [] then []
    else match EntityAt(t)
      case Some((c, n)) => [c] + UnescapeHtml(t[n..])
      case None => [t[0]] + UnescapeHtml(t[1..])
  }

  lemma UnescapeStep(c: char, t: string)
    ensures UnescapeHtml(EscapeChar(c) + t) == [c] + UnescapeHtml(t)
  {
    var e := EscapeChar(c);
    var u := e + t;
    assert u[..|e|] == e;
    if c == '&' || c == '<' || c == '>' || c == '"' || c == '\'' {
      assert EntityAt(u) == Some((c, |e|));
      assert u[|e|..] == t;
    } else {
      assert EntityAt(u).None?;
      assert u[1..] == t;
    }
  }

  /** Unescaping recovers the original text, so escaping loses nothing. */
  lemma {:induction false} UnescapeEscape(s: string)
    ensures UnescapeHtml(EscapeHtml(s)) == s
  {
    EscapeHtmlIsEach(s);
    UnescapeEach(s);
  }

  lemma {:induction false} UnescapeEach(s: string)
    ensures UnescapeHtml(EscapedEach(s)) == s
    decreases |s|
  {
    if s != [] {
      UnescapeStep(s[0], EscapedEach(s[1..]));
      UnescapeEach(s[1..]);
      assert [s[0]] + s[1..] == s;
    }
  }

  // ---------------------------------------------------------------------
  // The popup queue

  /** A popup as the server pushes it; a missing, null or zero ttl is 0 here,
      which is what `ttl || default` cannot tell apart anyway. */
  datatype Payload = Payload(kind: string, message: string, ttl: int)

  /** `ttl || default`. */
  function TtlOr(ttl: int, default: int): (r: int)
    ensures r == (if ttl == 0 then default else ttl)
  {
    if ttl == 0 then default else ttl
  }

  /** How long a card stays on screen: `Math.min(Math.max(ttl || 3500, 2000), 7000)`. */
  function Duration(p: Payload): (d: int)
    ensures 2000 <= d <= 7000
    ensures p.ttl == 0 ==> d == 3500
    ensures p.ttl != 0 && 2000 <= p.ttl <= 7000 ==> d == p.ttl
    ensures p.ttl != 0 && p.ttl < 2000 ==> d == 2000
    ensures 7000 < p.ttl ==> d == 7000
  {
    Clamp(TtlOr(p.ttl, 3500), 2000, 7000)
  }

  /** String.prototype.trim's whitespace: WhiteSpace and LineTerminator. */
  predicate IsJsSpace(c: char) {
    || c == '\t' || c == '\n' || c == '\U{000B}' || c == '\U{000C}' || c == '\r' || c == ' '
    || c == '\U{00A0}' || c == '\U{1680}' || ('\U{2000}' <= c <= '\U{200A}') || c == '\U{2028}'
    || c == '\U{2029}' || c == '\U{202F}' || c == '\U{205F}' || c == '\U{3000}' || c == '\U{FEFF}'
  }

  function TrimStart(s: string): (r: string)
    ensures |r| <= |s| && r == s[|s| - |r|..]
    ensures r == [] || !IsJsSpace(r[0])
    decreases |s|
  {
    if s != [] && IsJsSpace(s[0]) then TrimStart(s[1..]) else s
  }

  function TrimEnd(s: string): (r: string)
    ensures |r| <= |s| && r == s[..|r|]
    ensures r == [] || !IsJsSpace(r[|r| - 1])
    decreases |s|
  {
    if s != [] && IsJsSpace(s[|s| - 1]) then TrimEnd(s[..|s| - 1]) else s
  }

  /** A line with no whitespace at either end. */
  predicate Trimmed(s: string) {
    s == [] || (!IsJsSpace(s[0]) && !IsJsSpace(s[|s| - 1]))
  }

  function JsTrim(s: string): (r: string)
    ensures Trimmed(r)
    ensures |r| <= |s|
  {
    TrimStart(TrimEnd(s))
  }

  /** `lines.map(trim).filter(Boolean)`. */
  function NonBlankTrimmed(lines: seq<string>): (r: seq<string>)
    ensures |r| <= |lines|
    ensures forall k :: 0 <= k < |r| ==> r[k] != [] && Trimmed(r[k])
  {
    if lines == [] then []
    else (if JsTrim(lines[0]) == [] then [] else [JsTrim(lines[0])]) + NonBlankTrimmed(lines[1..])
  }

  /** The parts a message splits into: its trimmed non-blank lines. */
  function Parts(message: string): (r: seq<string>)
  {
    NonBlankTrimmed(SplitOn(message, '\n'))
  }

  /** The ttl each part of a split message gets. */
  function PartTtl(ttl: int, parts: nat): (r: int)
    requires 0 < parts
    ensures 2500 <= r
    ensures r == Max(2500, TtlOr(ttl, 4000) / parts)
  {
    Max(2500, TtlOr(ttl, 4000) / parts)
  }

  /** A part's ttl is the whole ttl (4000 when unset) shared evenly and rounded
      down, but never less than 2500. */
  lemma PartTtlShare(ttl: int, parts: nat)
    requires 0 < parts
    ensures TtlOr(ttl, 4000) < 2500 * parts ==> PartTtl(ttl, parts) == 2500
    ensures TtlOr(ttl, 4000) >= 2500 * parts ==>
      PartTtl(ttl, parts) * parts <= TtlOr(ttl, 4000) < (PartTtl(ttl, parts) + 1) * parts
  {
    FloorShare(TtlOr(ttl, 4000), parts);
  }

  /** `Math.floor(t / n)` for a positive n: the largest q with q * n <= t. */
  lemma FloorShare(t: int, n: int)
    requires 0 < n
    ensures (t / n) * n <= t < (t / n + 1) * n
    ensures t < 2500 * n <==> t / n < 2500
  {
    var q, r := t / n, t % n;
    assert t == q * n + r && 0 <= r < n;
    assert (q + 1) * n == q * n + n;
    if q >= 2500 {
      MulMono(2500, q, n);
    } else {
      MulMono(q + 1, 2500, n);
    }
  }

  lemma MulMono(a: int, b: int, n: int)
    requires a <= b && 0 < n
    ensures a * n <= b * n
  {
    assert b * n - a * n == (b - a) * n;
  }

  /** What enqueuePopup appends to the queue. */
  function Entries(payload: Option<Payload>): seq<Payload> {
    match payload
    case None => []
    case Some(p) =>
      var parts := Parts(p.message);
      if |parts| <= 1 then [p] else Split(p, parts, PartTtl(p.ttl, |parts|))
  }

  lemma EntriesOf(p: Payload, parts: seq<string>)
    requires parts == Parts(p.message)
    ensures |parts| <= 1 ==> Entries(Some(p)) == [p]
    ensures 1 < |parts| ==> Entries(Some(p)) == Split(p, parts, PartTtl(p.ttl, |parts|))
  {
  }

  /** One popup per part, each with the payload's other fields and the shared ttl. */
  function Split(p: Payload, parts: seq<string>, ttl: int): (r: seq<Payload>)
    ensures |r| == |parts|
  {
    if parts == [] then []
    else Split(p, parts[..|parts| - 1], ttl) + [p.(message := parts[|parts| - 1], ttl := ttl)]
  }

  lemma {:induction false} SplitAt(p: Payload, parts: seq<string>, ttl: int, k: nat)
    requires k < |parts|
    ensures Split(p, parts, ttl)[k] == p.(message := parts[k], ttl := ttl)
  {
    if k < |parts| - 1 {
      SplitAt(p, parts[..|parts| - 1], ttl, k);
    }
  }

  /** Nothing is queued for a null payload; a message of at most one non-blank
      line is queued as it is; otherwise each trimmed non-blank line becomes
      its own popup, in order, with the same kind and a ttl of at least 2500. */
  lemma {:induction false} EntriesShape(payload: Option<Payload>)
    ensures payload.None? ==> Entries(payload) == []
    ensures payload.Some? && |Parts(payload.value.message)| <= 1 ==> Entries(payload) == [payload.value]
    ensures payload.Some? && 1 < |Parts(payload.value.message)| ==>
      var p := payload.value;
      var parts := Parts(p.message);
      var es := Entries(payload);
      |es| == |parts| &&
      forall k :: 0 <= k < |es| ==>
        es[k].kind == p.kind && es[k].message == parts[k] && es[k].message != [] &&
        Trimmed(es[k].message) && 2500 <= es[k].ttl &&
        es[k].ttl == Max(2500, TtlOr(p.ttl, 4000) / |parts|)
  {
    if payload.Some? && 1 < |Parts(payload.value.message)| {
      var p := payload.value;
      var parts := Parts(p.message);
      var es := Entries(payload);
      assert es == Split(p, parts, PartTtl(p.ttl, |parts|));
      forall k | 0 <= k < |es|
        ensures es[k].kind == p.kind && es[k].message == parts[k] && es[k].message != [] && Trimmed(es[k].message)
        ensures 2500 <= es[k].ttl && es[k].ttl == Max(2500, TtlOr(p.ttl, 4000) / |parts|)
      {
        SplitAt(p, parts, PartTtl(p.ttl, |parts|), k);
      }
    }
  }

  /** The popup queue and the card on screen. `enqueued` and `shown` are the
      history: every popup ever queued, and every popup handed to a card. */
  class PopupQueue {
    var queue: seq<Payload>
    var active: bool
    ghost var current: Option<Payload>
    ghost var enqueued: seq<Payload>
    ghost var shown: seq<Payload>

    /** Popups are shown first in, first out; a card is up exactly when
        `active`, and it is the last one shown; the queue only waits while a
        card is up. */
    ghost predicate Ordered()
      reads this
    {
      && enqueued == shown + queue
      && (active <==> current.Some?)
      && (current.Some? ==> shown != [] && current.value == shown[|shown| - 1])
    }

    ghost predicate Valid()
      reads this
    {
      Ordered() && (!active ==> queue == [])
    }

    constructor()
      ensures Valid() && queue == [] && !active && enqueued == [] && shown == []
    {
      queue := [];
      active := false;
      current := None;
      enqueued := [];
      shown := [];
    }

    /** processPopupQueue: nothing while a card is up or the queue is empty;
        otherwise the head of the queue goes on screen. */
    method Process()
      requires Ordered()
      modifies this
      ensures Valid()
      ensures enqueued == old(enqueued)
      ensures old(active) || old(queue) == [] ==>
        queue == old(queue) && active == old(active) && shown == old(shown) && current == old(current)
      ensures !old(active) && old(queue) != [] ==>
        && active && current == Some(old(queue)[0])
        && queue == old(queue)[1..] && shown == old(shown) + [old(queue)[0]]
    {
      if active || |queue| == 0 {
        return;
      }
      active := true;
      var payload := queue[0];
      queue := queue[1..];
      current := Some(payload);
      shown := shown + [payload];
    }

    /** enqueuePopup: queues the entries of the payload, then processes. */
    method Enqueue(payload: Option<Payload>)
      requires Valid()
      modifies this
      ensures Valid()
      ensures enqueued == old(enqueued) + Entries(payload)
      ensures old(active) ==> shown == old(shown) && current == old(current)
      ensures !old(active) && Entries(payload) != [] ==> shown == old(shown) + [Entries(payload)[0]]
      ensures payload.None? ==> queue == old(queue) && active == old(active) && shown == old(shown)
    {
      if payload.None? {
        return;
      }
      Push(payload.value);
      Process();
    }

    /** The queueing half of enqueuePopup. */
    method Push(p: Payload)
      modifies this
      ensures queue == old(queue) + Entries(Some(p))
      ensures enqueued == old(enqueued) + Entries(Some(p))
      ensures active == old(active) && shown == old(shown) && current == old(current)
    {
      var parts := Parts(p.message);
      EntriesOf(p, parts);
      if |parts| <= 1 {
        PushWhole(p);
      } else {
        PushParts(p, parts);
      }
    }

    /** A payload of at most one line is queued as it is. */
    method PushWhole(p: Payload)
      modifies this
      ensures queue == old(queue) + [p] && enqueued == old(enqueued) + [p]
      ensures active == old(active) && shown == old(shown) && current == old(current)
    {
      queue := queue + [p];
      enqueued := enqueued + [p];
    }

    /** The forEach of enqueuePopup: one popup per part, in order. */
    method PushParts(p: Payload, parts: seq<string>)
      requires 0 < |parts|
      modifies this
      ensures queue == old(queue) + Split(p, parts, PartTtl(p.ttl, |parts|))
      ensures enqueued == old(enqueued) + Split(p, parts, PartTtl(p.ttl, |parts|))
      ensures active == old(active) && shown == old(shown) && current == old(current)
    {
      var perTtl := PartTtl(p.ttl, |parts|);
      var i := 0;
      while i < |parts|
        invariant 0 <= i <= |parts|
        invariant queue == old(queue) + Split(p, parts[..i], perTtl)
        invariant enqueued == old(enqueued) + Split(p, parts[..i], perTtl)
        invariant active == old(active) && shown == old(shown) && current == old(current)
      {
        var popup := p.(message := parts[i], ttl := perTtl);
        assert parts[..i + 1][..i] == parts[..i];
        queue := queue + [popup];
        enqueued := enqueued + [popup];
        i := i + 1;
      }
      assert parts[..i] == parts;
    }

    /** The callback a card calls when its time is up: the next popup, if any,
        goes on screen. */
    method Done()
      requires Valid() && active
      modifies this
      ensures Valid()
      ensures enqueued == old(enqueued)
      ensures old(queue) == [] ==> !active && shown == old(shown)
      ensures old(queue) != [] ==> active && shown == old(shown) + [old(queue)[0]] && queue == old(queue)[1..]
    {
      active := false;
      current := None;
      Process();
    }
  }

  /** Whatever has been shown is the oldest part of what was queued, in order. */
  lemma ShownInOrder(q: PopupQueue, k: nat)
    requires q.Valid() && k < |q.shown|
    ensures k < |q.enqueued| && q.shown[k] == q.enqueued[k]
  {
  }

  // ---------------------------------------------------------------------
  // The practice-question panel

  /** A question as the page holds it: its type (empty when missing), stem,
      option texts (None when `options` is not an array; a missing text is
      empty) and the two mutation marks. */
  datatype ClientQuestion = ClientQuestion(
    questionType: string, questionHtml: string, options: Option<seq<string>>,
    mutated: bool, metaMutated: bool)

  predicate IsDigit(c: char) { '0' <= c <= '9' }

  /** `/\d/.test(s)`. */
  function HasDigit(s: string): (r: bool)
    ensures r <==> exists i :: 0 <= i < |s| && IsDigit(s[i])
    decreases |s|
  {
    if s == [] then false else IsDigit(s[0]) || HasDigit(s[1..])
  }

  /** `options.some((opt) => /\d/.test(opt?.text || ""))`. */
  function SomeHasDigit(options: seq<string>): (r: bool)
    ensures r <==> exists k :: 0 <= k < |options| && HasDigit(options[k])
    decreases |options|
  {
    if options == [] then false else HasDigit(options[0]) || SomeHasDigit(options[1..])
  }

  /** toLowerCase on ASCII letters. */
  function LowerAscii(s: string): (r: string)
    ensures |r| == |s|
    decreases |s|
  {
    if s == [] then []
    else [if 'A' <= s[0] <= 'Z' then (s[0] as int + 32) as char else s[0]] + LowerAscii(s[1..])
  }

  /** shouldMutateQuestion. */
  function ShouldMutate(q: Option<ClientQuestion>): (r: bool)
    ensures r <==>
      && q.Some?
      && LowerAscii(q.value.questionType) in {"scq", "integer"}
      && ((exists i :: 0 <= i < |q.value.questionHtml| && IsDigit(q.value.questionHtml[i])) ||
          (q.value.options.Some? &&
           exists k :: 0 <= k < |q.value.options.value| && HasDigit(q.value.options.value[k])))
      && !q.value.mutated && !q.value.metaMutated
  {
    match q
    case None => false
    case Some(question) =>
      var kind := LowerAscii(question.questionType);
      if kind != "scq" && kind != "integer" then false
      else
        var hasDigits := HasDigit(question.questionHtml) ||
          (question.options.Some? && SomeHasDigit(question.options.value));
        hasDigits && !question.mutated && !question.metaMutated
  }

  /** A question already marked as mutated, either way, is never mutated again. */
  lemma MutatedStaysPut(q: ClientQuestion)
    requires q.mutated || q.metaMutated
    ensures !ShouldMutate(Some(q))
  {
  }

  /** The question list and the index of the question on screen. */
  class QuestionPanel {
    var questions: seq<ClientQuestion>
    var index: int

    /** The index is 0 for an empty list and names a question otherwise. */
    ghost predicate Valid()
      reads this
    {
      && 0 <= index
      && (questions == [] ==> index == 0)
      && (questions != [] ==> index < |questions|)
    }

    constructor()
      ensures Valid() && questions == [] && index == 0
    {
      questions := [];
      index := 0;
    }

    /** loadTestQuestions, and resetFlow with an empty list: a new list starts
        at its first question. */
    method Load(qs: seq<ClientQuestion>)
      modifies this
      ensures Valid() && questions == qs && index == 0
    {
      questions := qs;
      index := 0;
    }

    /** renderTestQuestion clamps the index into the list when there is one. */
    method Render()
      modifies this
      ensures questions == old(questions)
      ensures questions == [] ==> index == old(index)
      ensures questions != [] ==> index == Clamp(old(index), 0, |questions| - 1)
      ensures old(Valid()) ==> Valid() && index == old(index)
    {
      if |questions| == 0 {
        return;
      }
      index := Min(Max(index, 0), |questions| - 1);
    }

    /** gotoQuestion: moves by delta, clamped to the list; a no-op on an
        empty list. */
    method Goto(delta: int)
      requires Valid()
      modifies this
      ensures Valid() && questions == old(questions)
      ensures questions == [] ==> index == old(index)
      ensures questions != [] ==> index == Clamp(old(index) + delta, 0, |questions| - 1)
    {
      if |questions| == 0 {
        return;
      }
      index := Min(Max(index + delta, 0), |questions| - 1);
      Render();
    }

    /** The end of mutateQuestionAt: a question that is there and not yet
        mutated is replaced by its mutated form, which the page re-renders
        when it is the one on screen. */
    method ReplaceMutated(at: int, mutated: ClientQuestion)
      requires Valid()
      modifies this
      ensures Valid() && |questions| == |old(questions)| && index == old(index)
      ensures 0 <= at < |old(questions)| && !old(questions)[at].mutated && !old(questions)[at].metaMutated ==>
        questions == old(questions)[at := mutated]
      ensures !(0 <= at < |old(questions)| && !old(questions)[at].mutated && !old(questions)[at].metaMutated) ==>
        questions == old(questions)
    {
      if at < 0 || at >= |questions| || questions[at].mutated || questions[at].metaMutated {
        return;
      }
      questions := questions[at := mutated];
      if at == index {
        Render();
      }
    }
  }

  // ---------------------------------------------------------------------
  // The log box

  /** The log text after one more line: the last 15000 characters of the
      text, the line and a newline. */
  function Appended(text: string, line: string): (r: string)
    ensures |r| <= 15000 && |r| <= |text| + |line| + 1
    ensures r != [] && r[|r| - 1] == '\n'
    ensures var full := text + line + "\n"; r == full[|full| - |r|..]
    ensures |text| + |line| + 1 <= 15000 ==> r == text + line + "\n"
    ensures 15000 < |text| + |line| + 1 ==> |r| == 15000
  {
    var full := text + line + "\n";
    if |full| <= 15000 then full else full[|full| - 15000..]
  }

  class LogBox {
    var text: string

    constructor()
      ensures text == []
    {
      text := [];
    }

    /** log: the line is appended and the text cut to its last 15000 characters. */
    method Log(line: string)
      modifies this
      ensures text == Appended(old(text), line)
    {
      text := Appended(text, line);
    }
  }
}
