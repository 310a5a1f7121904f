/** Negation-aware relevance of a free-text answer to a domain or a combo:
    whole-word keyword search that skips occurrences with a negator shortly
    before them, overridden by explicit denial phrases. The regular expressions
    of the denial table are written out as alternation patterns. */
module Relevance {
  import opened Text
  import opened Schema

  // ---------------------------------------------------------------------
  // Normalisation and whole-word search

  /** _norm: strip, lower-case, and turn every whitespace run into one space. */
  function Norm(text: string): (r: string)
    ensures Collapsed(r)
    ensures IsLowered(r)
  {
    CollapseShape(Lower(text));
    LowerIsLowered(text);
    LoweredCollapse(Lower(text));
    Collapse(Lower(text))
  }

  /** _norm is idempotent. */
  lemma NormIdempotent(text: string)
    ensures Norm(Norm(text)) == Norm(text)
  {
    var n := Norm(text);
    LowerOfLowered(n);
    CollapseOfCollapsed(n);
  }

  /** `\bp\b` matches at index i, for a phrase that starts and ends with a word
      character. */
  predicate WholeWordAt(t: string, i: int, p: string) {
    && At(t, i, p)
    && (i == 0 || !IsWordChar(t[i - 1]))
    && (i + |p| == |t| || !IsWordChar(t[i + |p|]))
  }

  // ---------------------------------------------------------------------
  // Denial patterns

  /** A regular expression made of literal text and alternation groups: each
      element lists the alternatives for one part; an optional part has "" among
      them. */
  type Pattern = seq<seq<string>>

  /** Every concatenation of `x` with an element of `ys`. */
  function PrefixAll(x: string, ys: seq<string>): (r: seq<string>)
    ensures |r| == |ys|
    ensures forall j :: 0 <= j < |ys| ==> r[j] == x + ys[j]
  {
    seq(|ys|, j requires 0 <= j < |ys| => x + ys[j])
  }

  /** Every concatenation of an element of `xs` with an element of `ys`. */
  function Product(xs: seq<string>, ys: seq<string>): (r: seq<string>)
  {
    if xs == [] then [] else PrefixAll(xs[0], ys) + Product(xs[1..], ys)
  }

  /** The texts a pattern matches. */
  function Expand(p: Pattern): seq<string>
  {
    if p == [] then [""] else Product(p[0], Expand(p[1..]))
  }

  lemma {:induction false} ProductHas(xs: seq<string>, ys: seq<string>, i: nat, j: nat)
    requires i < |xs| && j < |ys|
    ensures xs[i] + ys[j] in Product(xs, ys)
  {
    if i == 0 {
      assert PrefixAll(xs[0], ys)[j] == xs[0] + ys[j];
    } else {
      assert xs[1..][i - 1] == xs[i];
      ProductHas(xs[1..], ys, i - 1, j);
    }
  }

  lemma {:induction false} ProductFrom(xs: seq<string>, ys: seq<string>, t: string)
    requires t in Product(xs, ys)
    ensures exists i, j :: 0 <= i < |xs| && 0 <= j < |ys| && t == xs[i] + ys[j]
  {
    if t !in PrefixAll(xs[0], ys) {
      ProductFrom(xs[1..], ys, t);
      var i, j :| 0 <= i < |xs[1..]| && 0 <= j < |ys| && t == xs[1..][i] + ys[j];
      assert t == xs[i + 1] + ys[j];
    }
  }

  /** The pattern matches `a + rest` when `a` is one of the first part's
      alternatives and the remaining parts match `rest`. */
  lemma ExpandHas(p: Pattern, i: nat, rest: string)
    requires p != [] && i < |p[0]| && rest in Expand(p[1..])
    ensures p[0][i] + rest in Expand(p)
  {
    var j :| 0 <= j < |Expand(p[1..])| && Expand(p[1..])[j] == rest;
    ProductHas(p[0], Expand(p[1..]), i, j);
  }

  const Phones: seq<string> := ["phone", "mobile"]

  /** `\bnot distracted by (my )?(phone|mobile|instagram|reels|games|friends?)\b` */
  const NotDistractedBy: Pattern :=
    [["not distracted by "], ["", "my "], ["phone", "mobile", "instagram", "reels", "games", "friend", "friends"]]
  /** `\bno (phone|mobile|friends?) distraction\b` */
  const NoDistraction: Pattern := [["no "], ["phone", "mobile", "friend", "friends"], [" distraction"]]
  /** `\b(phone|mobile) (does not|doesn't) distract\b` */
  const DoesNotDistract: Pattern := [Phones, [" "], ["does not", "doesn't"], [" distract"]]
  /** `\bi am not distracted by (phone|mobile|friends?)\b` */
  const IAmNotDistracted: Pattern := [["i am not distracted by "], ["phone", "mobile", "friend", "friends"]]
  /** `\b(i )?(dont|don't|do not) compare\b` */
  const DontCompare: Pattern := [["", "i "], ["dont", "don't", "do not"], [" compare"]]
  /** `\bno comparison\b` */
  const NoComparison: Pattern := [["no comparison"]]
  /** `\bnot comparing\b` */
  const NotComparing: Pattern := [["not comparing"]]

  /** DOMAIN_DENIAL_PATTERNS */
  const DenialPatterns: seq<(string, seq<Pattern>)> := [
    ("distractions", [NotDistractedBy, NoDistraction, DoesNotDistract, IAmNotDistracted]),
    ("social_comparison", [DontCompare, NoComparison, NotComparing])
  ]

  /** DOMAIN_DENIAL_PATTERNS.get(domain, []) */
  function DenialsOf(domain: string): (r: seq<Pattern>)
    ensures domain != "distractions" && domain != "social_comparison" ==> r == []
  {
    match Find(DenialPatterns, domain)
    case Some(ps) => ps
    case None => []
  }

  /** `re.search(pattern, t)` for a pattern whose alternatives all start and end
      with a word character. */
  predicate Matches(t: string, p: Pattern) {
    exists j, i :: 0 <= j < |Expand(p)| && 0 <= i <= |t| && WholeWordAt(t, i, Expand(p)[j])
  }

  /** _has_denial */
  predicate HasDenial(domain: string, text: string) {
    var t := Norm(text);
    var ps := DenialsOf(domain);
    exists k :: 0 <= k < |ps| && Matches(t, ps[k])
  }

  /** Only distractions and social_comparison have denial patterns. */
  lemma DenialDomains(domain: string, text: string)
    requires HasDenial(domain, text)
    ensures domain == "distractions" || domain == "social_comparison"
  {
  }

  // ---------------------------------------------------------------------
  // Keyword search

  const Negators: seq<string> :=
    ["not", "no", "never", "dont", "don't", "do not", "isnt", "isn't", "am not", "aren't", "without"]

  /** `any(neg in s for neg in NEGATORS)`: a plain substring test, so "no" also
      fires inside "know". */
  predicate HasNegator(s: string) {
    exists k :: 0 <= k < |Negators| && Contains(s, Negators[k])
  }

  /** `xs[-n:]` for a non-negative n. */
  function LastItems<T>(xs: seq<T>, n: nat): (r: seq<T>)
    ensures |r| == if |xs| < n then |xs| else n
    ensures r == xs[|xs| - |r|..]
  {
    if |xs| <= n then xs else xs[|xs| - n..]
  }

  /** The left context of a keyword occurrence starting at `start`: the last five
      words of the 80 characters before it, joined with spaces. */
  function LeftContext(t: string, start: nat): string
    requires start <= |t|
  {
    var from := if start >= 80 then start - 80 else 0;
    Join(LastItems(Words(t[from..start]), 5), " ")
  }

  /** The occurrence at `start` is negated. */
  predicate NegatedAt(t: string, start: nat)
    requires start <= |t|
  {
    HasNegator(LeftContext(t, start))
  }

  /** The `re.finditer` loop of _keyword_positive from position `pos`, given which
      occurrence starts count as negated: the first whole-word occurrence at or
      after `pos` is examined; a negated one sends the search on from its end,
      since matches of finditer never overlap. An empty keyword (none of the
      tables has one) never matches. */
  function ScanFrom(t: string, kw: string, pos: nat, negated: nat -> bool): bool
    decreases |t| - pos
  {
    if kw == [] || pos + |kw| > |t| then false
    else if WholeWordAt(t, pos, kw) then
      if negated(pos) then ScanFrom(t, kw, pos + |kw|, negated) else true
    else ScanFrom(t, kw, pos + 1, negated)
  }

  /** Which positions of `t` start a negated occurrence. */
  function Negation(t: string): nat -> bool {
    (i: nat) => i <= |t| && NegatedAt(t, i)
  }

  /** _keyword_positive */
  predicate KeywordPositive(text: string, keyword: string) {
    ScanFrom(Norm(text), Lower(keyword), 0, Negation(Norm(text)))
  }

  /** Two whole-word occurrences of `kw` can only overlap if `kw` has a non-word
      character followed by a copy of its own beginning. */
  predicate NoSelfOverlap(kw: string) {
    forall j :: 0 < j < |kw| && !IsWordChar(kw[j - 1]) ==> kw[j..] != kw[..|kw| - j]
  }

  lemma OverlapShape(t: string, kw: string, p: nat, i: nat)
    requires WholeWordAt(t, p, kw) && WholeWordAt(t, i, kw) && p < i
    ensures i < p + |kw| ==> !IsWordChar(kw[i - p - 1]) && kw[i - p..] == kw[..|kw| - (i - p)]
  {
    if i < p + |kw| {
      assert t[i - 1] == kw[i - p - 1];
      forall m | 0 <= m < p + |kw| - i ensures kw[i - p + m] == kw[m] {
        assert kw[i - p + m] == t[i + m];
      }
      assert kw[i - p..] == kw[..|kw| - (i - p)];
    }
  }

  /** A found occurrence is whole-word and not negated. */
  lemma {:induction false} ScanSound(t: string, kw: string, pos: nat, negated: nat -> bool)
    requires ScanFrom(t, kw, pos, negated)
    ensures exists i: nat :: pos <= i <= |t| && WholeWordAt(t, i, kw) && !negated(i)
    decreases |t| - pos
  {
    if WholeWordAt(t, pos, kw) && !negated(pos) {
    } else if WholeWordAt(t, pos, kw) {
      ScanSound(t, kw, pos + |kw|, negated);
    } else {
      ScanSound(t, kw, pos + 1, negated);
    }
  }

  /** A whole-word, non-negated occurrence at or after `pos` is found, when the
      keyword cannot overlap itself. */
  lemma {:induction false} ScanComplete(t: string, kw: string, pos: nat, negated: nat -> bool, i: nat)
    requires kw != [] && NoSelfOverlap(kw)
    requires pos <= i <= |t| && WholeWordAt(t, i, kw) && !negated(i)
    ensures ScanFrom(t, kw, pos, negated)
    decreases |t| - pos
  {
    if pos < i {
      if WholeWordAt(t, pos, kw) {
        OverlapShape(t, kw, pos, i);
        if negated(pos) {
          ScanComplete(t, kw, pos + |kw|, negated, i);
        }
      } else {
        ScanComplete(t, kw, pos + 1, negated, i);
      }
    }
  }

  /** _keyword_positive holds iff some whole-word occurrence of the lower-cased
      keyword in the normalised text has no negator among the last five words of
      the 80 characters before it. */
  lemma KeywordPositiveIff(text: string, keyword: string)
    requires keyword != [] && NoSelfOverlap(Lower(keyword))
    ensures KeywordPositive(text, keyword) <==>
      exists i: nat :: i <= |Norm(text)| && WholeWordAt(Norm(text), i, Lower(keyword)) && !NegatedAt(Norm(text), i)
  {
    var t := Norm(text);
    var kw := Lower(keyword);
    var negated := Negation(t);
    if ScanFrom(t, kw, 0, negated) {
      ScanSound(t, kw, 0, negated);
    }
    forall i: nat | i <= |t| && WholeWordAt(t, i, kw) && !NegatedAt(t, i) ensures ScanFrom(t, kw, 0, negated) {
      ScanComplete(t, kw, 0, negated, i);
    }
  }

  /** A keyword made of word characters only never overlaps itself. */
  lemma WordKeywordNoOverlap(kw: string)
    requires forall j :: 0 <= j < |kw| ==> IsWordChar(kw[j])
    ensures NoSelfOverlap(kw)
  {
  }

  /** `any(_keyword_positive(text, k) for k in keywords)` */
  predicate AnyPositive(text: string, keywords: seq<string>) {
    exists k :: 0 <= k < |keywords| && KeywordPositive(text, keywords[k])
  }

  // ---------------------------------------------------------------------
  // Domains and combos

  /** DOMAIN_KEYWORDS */
  const DomainKeywords: seq<(string, seq<string>)> := [
    ("distractions", ["phone", "instagram", "youtube", "reels", "game", "gaming", "pubg", "bgmi",
                      "free fire", "call of duty", "cod"]),
    ("time_pressure", ["time", "timetable", "schedule", "overload", "syllabus", "backlog", "chapters",
                       "many subjects", "handle all"]),
    ("academic_confidence", ["hard", "difficult", "weak", "cannot understand", "low marks", "scores",
                             "math", "physics", "chemistry", "bio"]),
    ("social_comparison", ["compare", "topper", "better than me", "others", "rank", "friend scored",
                           "competition"]),
    ("family_pressure", ["family", "parents", "dad", "mom", "pressure", "scold"]),
    ("motivation", ["motivation", "dream", "goal", "want to", "demotivated", "lost"]),
    ("backlog_stress", ["backlog", "pending", "left", "incomplete", "syllabus left"])
  ]

  /** COMBO_KEYWORDS */
  const ComboKeywords: seq<(string, seq<string>)> := [
    ("friend_compare_emotion", ["friend", "compare", "comparison", "distract"]),
    ("distraction_time_combo", ["gaming", "game", "time pressure", "timetable"])
  ]

  /** is_domain_relevant with a keyword table; an empty table means
      DOMAIN_KEYWORDS (Python's `domain_keywords or DOMAIN_KEYWORDS`). */
  predicate IsDomainRelevantWith(table: seq<(string, seq<string>)>, domain: string, text: string) {
    var keywords := if table == [] then DomainKeywords else table;
    !HasDenial(domain, text) && AnyPositive(text, ListOf(keywords, domain))
  }

  /** domain_relevant: is_domain_relevant with DOMAIN_KEYWORDS. */
  predicate IsDomainRelevant(domain: string, text: string) {
    IsDomainRelevantWith(DomainKeywords, domain, text)
  }

  /** A denial overrides every keyword; without one, relevance is exactly a
      positive keyword occurrence; a domain the table does not list is never
      relevant. */
  lemma DomainRelevance(table: seq<(string, seq<string>)>, domain: string, text: string)
    ensures HasDenial(domain, text) ==> !IsDomainRelevantWith(table, domain, text)
    ensures !HasDenial(domain, text) ==>
      var keywords := ListOf(if table == [] then DomainKeywords else table, domain);
      (IsDomainRelevantWith(table, domain, text) <==> exists k :: 0 <= k < |keywords| && KeywordPositive(text, keywords[k]))
    ensures table != [] && domain !in KeysOf(table) ==> !IsDomainRelevantWith(table, domain, text)
  {
  }

  /** is_combo_relevant with a keyword table (empty means COMBO_KEYWORDS). */
  predicate IsComboRelevantWith(table: seq<(string, seq<string>)>, combo: string, text: string) {
    var keywords := if table == [] then ComboKeywords else table;
    if combo == "friend_compare_emotion" && HasDenial("distractions", text) then false
    else AnyPositive(text, ListOf(keywords, combo))
  }

  /** combo_relevant: is_combo_relevant with COMBO_KEYWORDS. */
  predicate IsComboRelevant(combo: string, text: string) {
    IsComboRelevantWith(ComboKeywords, combo, text)
  }

  /** A distractions denial rules out the friend comparison combo, whatever the
      keyword table. */
  lemma FriendComboDenied(table: seq<(string, seq<string>)>, text: string)
    requires HasDenial("distractions", text)
    ensures !IsComboRelevantWith(table, "friend_compare_emotion", text)
  {
  }

  // ---------------------------------------------------------------------
  // Scenario

  const NotDistractedPhrase: string := "not distracted by " + ("my " + "phone")
  const NotDistractedText: string := "I am " + NotDistractedPhrase

  lemma NotDistractedPhraseMatches()
    ensures NotDistractedPhrase in Expand(NotDistractedBy)
  {
    var g1: seq<string>, g2: seq<string>, g3: seq<string> := NotDistractedBy[0], NotDistractedBy[1], NotDistractedBy[2];
    var last: Pattern := [g3];
    assert NotDistractedBy == [g1, g2, g3];
    assert [g1, g2, g3][1..] == [g2, g3] && [g2, g3][1..] == last && last[1..] == [];
    assert Expand(last) == Product(g3, [""]);
    ProductHas(g3, [""], 0, 0);
    assert g3[0] + "" == "phone";
    assert g2[1] == "my ";
    ExpandHas([g2, g3], 1, "phone");
    assert g1[0] == "not distracted by ";
    ExpandHas([g1, g2, g3], 0, "my " + "phone");
  }

  const NotDistractedWords: seq<string> := ["i", "am", "not", "distracted", "by", "my", "phone"]

  lemma NotDistractedJoin()
    ensures Join(NotDistractedWords, " ") == "i am " + NotDistractedPhrase
  {
  }

  lemma NotDistractedWordsAreWords()
    ensures forall k :: 0 <= k < |NotDistractedWords| ==> IsWord(NotDistractedWords[k])
  {
  }

  lemma NotDistractedLower()
    ensures Lower(NotDistractedText) == "i am " + NotDistractedPhrase
  {
    assert NotDistractedText == "I" + " am " + NotDistractedPhrase;
    NotDistractedRestLowered();
    LowerConcat("I", " am " + NotDistractedPhrase);
    LowerOfLowered(" am " + NotDistractedPhrase);
  }

  lemma NotDistractedRestLowered()
    ensures IsLowered(" am " + NotDistractedPhrase)
  {
  }

  lemma NotDistractedNorm()
    ensures Norm(NotDistractedText) == "i am " + NotDistractedPhrase
  {
    NotDistractedJoin();
    NotDistractedWordsAreWords();
    JoinShape(NotDistractedWords);
    NotDistractedLower();
    CollapseOfCollapsed("i am " + NotDistractedPhrase);
  }

  lemma NotDistractedWholeWord()
    ensures WholeWordAt("i am " + NotDistractedPhrase, 5, NotDistractedPhrase)
  {
    var t := "i am " + NotDistractedPhrase;
    assert t[5..] == NotDistractedPhrase;
    assert t[4] == ' ';
  }

  /** "I am not distracted by my phone" makes distractions irrelevant although
      "phone" is one of its keywords. */
  lemma NotDistractedByPhone()
    ensures !IsDomainRelevant("distractions", NotDistractedText)
  {
    NotDistractedNorm();
    NotDistractedPhraseMatches();
    NotDistractedWholeWord();
    var t := Norm(NotDistractedText);
    var p := NotDistractedPhrase;
    var j :| 0 <= j < |Expand(NotDistractedBy)| && Expand(NotDistractedBy)[j] == p;
    assert WholeWordAt(t, 5, Expand(NotDistractedBy)[j]);
    assert Matches(t, NotDistractedBy);
    assert DenialsOf("distractions")[0] == NotDistractedBy;
  }
}
