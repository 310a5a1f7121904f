/** The guard every generated follow-up question must pass before it is shown:
    one question mark at the very end, a short sentence, no clinical vocabulary,
    no compound request and no list punctuation. The regular expressions are
    written out as predicates over the lower-cased, whitespace-collapsed text. */
module Validators {
  import opened Text
  import opened Relevance

  /** The banned terms, one alternation pattern per regular expression. */
  const Banned: seq<Pattern> := [
    [["why"]],
    [["therapy"]],
    [["counsel"], ["or", "ing"]],
    [["mental health"]],
    [["diagnos"], ["is", "e"]],
    [["trauma"]],
    [["depress"], ["ed", "ion"]]
  ]

  /** Some banned pattern matches as a whole word. */
  predicate HasBanned(t: string) {
    exists k :: 0 <= k < |Banned| && Matches(t, Banned[k])
  }

  /** Every character of t[a..b] is whitespace. */
  predicate AllSpace(t: string, a: int, b: int)
    requires 0 <= a <= b <= |t|
  {
    forall m :: a <= m < b ==> IsSpace(t[m])
  }

  /** `,\s*(and|also)\s+`: a comma, optional whitespace, "and" or "also", then
      at least one whitespace character. */
  predicate CommaJoin(t: string) {
    exists i, k :: 0 <= i < k <= |t| && t[i] == ',' && AllSpace(t, i + 1, k) && JoinWordAt(t, k)
  }

  /** "and" or "also" at k, followed by whitespace. */
  predicate JoinWordAt(t: string, k: int) {
    || (At(t, k, "and") && k + 3 < |t| && IsSpace(t[k + 3]))
    || (At(t, k, "also") && k + 4 < |t| && IsSpace(t[k + 4]))
  }

  const AskVerbs: seq<string> := ["tell", "share", "explain", "describe", "mention"]

  /** `\band\b.*\b(tell|share|explain|describe|mention)\b`: the word "and" and,
      later on the same line, one of the request verbs. */
  predicate AndThenAsk(t: string) {
    exists i, j :: 0 <= i && i + 3 <= j <= |t| && WholeWordAt(t, i, "and") && '\n' !in t[i + 3..j] && VerbAt(t, j)
  }

  predicate VerbAt(t: string, j: int) {
    exists v <- AskVerbs :: WholeWordAt(t, j, v)
  }

  /** The question mark occurs once, as the last character. */
  predicate EndsInOnlyQuestionMark(c: string) {
    |c| > 0 && c[|c| - 1] == '?' && forall i :: 0 <= i < |c| - 1 ==> c[i] != '?'
  }

  /** is_valid_question */
  predicate IsValidQuestion(q: string) {
    && q != []
    && var c := Collapse(q);
    && CountChar(c, '?') == 1 && EndsWith(c, "?")
    && |Words(c)| <= 24
    && var low := Lower(c);
    && !HasBanned(low)
    && !CommaJoin(low)
    && !AndThenAsk(low)
    && ';' !in c && '/' !in c
  }

  /** A text whose last character is '?' and that holds exactly one '?' has no
      other question mark. */
  lemma CountOneAtEnd(c: string)
    requires CountChar(c, '?') == 1 && EndsWith(c, "?")
    ensures EndsInOnlyQuestionMark(c)
  {
    var init := c[..|c| - 1];
    assert c == init + [c[|c| - 1]];
    assert c[|c| - 1..] == "?";
    CountCharConcat(init, [c[|c| - 1]], '?');
    forall i | 0 <= i < |c| - 1 ensures c[i] != '?' {
      assert c[i] == init[i];
    }
  }

  /** An accepted question, once its whitespace is collapsed, holds exactly one
      question mark, as its last character, no ';' and no '/', and has at most
      24 words. */
  lemma AcceptedShape(q: string)
    requires IsValidQuestion(q)
    ensures q != []
    ensures EndsInOnlyQuestionMark(Collapse(q))
    ensures ';' !in Collapse(q) && '/' !in Collapse(q)
    ensures |Words(q)| <= 24
  {
    CountOneAtEnd(Collapse(q));
    WordsOfCollapse(q);
  }

  /** The banned terms written out one by one. */
  const BannedWords: seq<string> := [
    "why", "therapy", "counsel" + "or", "counsel" + "ing", "mental health",
    "diagnos" + "is", "diagnos" + "e", "trauma", "depress" + "ed", "depress" + "ion"
  ]

  lemma InSingle(a: string)
    ensures a in Expand([[a]])
  {
    var p: Pattern := [[a]];
    assert p[1..] == [];
    ProductHas([a], [""], 0, 0);
    assert a + "" == a;
  }

  lemma InPair(a: string, alts: seq<string>, i: nat)
    requires i < |alts|
    ensures a + alts[i] in Expand([[a], alts])
  {
    var p: Pattern := [[a], alts];
    var tail: Pattern := [alts];
    assert p[1..] == tail && tail[1..] == [];
    ProductHas(alts, [""], i, 0);
    assert alts[i] + "" == alts[i];
    ExpandHas(p, 0, alts[i]);
  }

  lemma CounselorWords()
    ensures BannedWords[2] in Expand(Banned[2]) && BannedWords[3] in Expand(Banned[2])
  {
    InPair("counsel", ["or", "ing"], 0);
    InPair("counsel", ["or", "ing"], 1);
  }

  lemma DiagnosWords()
    ensures BannedWords[5] in Expand(Banned[4]) && BannedWords[6] in Expand(Banned[4])
  {
    InPair("diagnos", ["is", "e"], 0);
    InPair("diagnos", ["is", "e"], 1);
  }

  lemma DepressWords()
    ensures BannedWords[8] in Expand(Banned[6]) && BannedWords[9] in Expand(Banned[6])
  {
    InPair("depress", ["ed", "ion"], 0);
    InPair("depress", ["ed", "ion"], 1);
  }

  /** Every spelled-out banned word is matched by one of the patterns. */
  lemma BannedWordCovered(k: nat)
    requires k < |BannedWords|
    ensures exists m :: 0 <= m < |Banned| && BannedWords[k] in Expand(Banned[m])
  {
    if k == 0 {
      InSingle("why");
      assert BannedWords[0] in Expand(Banned[0]);
    } else if k == 1 {
      InSingle("therapy");
      assert BannedWords[1] in Expand(Banned[1]);
    } else if k == 2 || k == 3 {
      CounselorWords();
    } else if k == 4 {
      InSingle("mental health");
      assert BannedWords[4] in Expand(Banned[3]);
    } else if k == 5 || k == 6 {
      DiagnosWords();
    } else if k == 7 {
      InSingle("trauma");
      assert BannedWords[7] in Expand(Banned[5]);
    } else {
      DepressWords();
    }
  }

  /** No banned word occurs as a whole word, in any letter case, in an accepted
      question. */
  lemma AcceptedHasNoBannedWord(q: string, k: nat, i: nat)
    requires IsValidQuestion(q) && k < |BannedWords|
    ensures !WholeWordAt(Lower(Collapse(q)), i, BannedWords[k])
  {
    var low := Lower(Collapse(q));
    BannedWordCovered(k);
    var m :| 0 <= m < |Banned| && BannedWords[k] in Expand(Banned[m]);
    var j :| 0 <= j < |Expand(Banned[m])| && Expand(Banned[m])[j] == BannedWords[k];
    assert !Matches(low, Banned[m]);
    assert !WholeWordAt(low, i, Expand(Banned[m])[j]);
  }

  /** ", and" / ", also" followed by a space rejects the question. */
  lemma CommaAndRejected(q: string, i: nat)
    requires var low := Lower(Collapse(q));
      i + 5 < |low| && low[i] == ',' && low[i + 1] == ' ' && At(low, i + 2, "and") && IsSpace(low[i + 5])
    ensures !IsValidQuestion(q)
  {
    var low := Lower(Collapse(q));
    assert AllSpace(low, i + 1, i + 2);
    assert JoinWordAt(low, i + 2);
  }

  /** The word "and" with a request verb after it on the same line rejects the
      question. */
  lemma AndThenVerbRejected(q: string, i: nat, j: nat, v: nat)
    requires var low := Lower(Collapse(q));
      && v < |AskVerbs| && i + 3 <= j <= |low|
      && WholeWordAt(low, i, "and") && '\n' !in low[i + 3..j] && WholeWordAt(low, j, AskVerbs[v])
    ensures !IsValidQuestion(q)
  {
    assert VerbAt(Lower(Collapse(q)), j);
  }

  /** The verdict does not change when the whitespace is collapsed first. */
  lemma CollapseInvariant(q: string)
    ensures IsValidQuestion(Collapse(q)) == IsValidQuestion(q)
  {
    CollapseIdempotent(q);
    if Collapse(q) == [] {
      assert CountChar(Collapse(q), '?') == 0;
    }
  }
}
