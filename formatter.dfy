/** The question formatter of the question-bank routes: it turns one raw record
    of the external question bank into the layout the practice page renders —
    a single-choice (scq), multiple-choice (mcq) or integer-answer question,
    with the options of a single-choice question recovered from its HTML. */
module Formatter {
  import opened Text
  import opened Json

  const QuestionMissing: string := "<p>Question not available</p>"
  const SolutionMissing: string := "<p>Solution not available</p>"

  /** `fields.get(key, default)`: a key that is present keeps its value, even null. */
  function Lookup(fields: map<string, Value>, key: string, default: Value): (r: Value)
    ensures key in fields ==> r == fields[key]
    ensures key !in fields ==> r == default
  {
    if key in fields then fields[key] else default
  }

  // ---------------------------------------------------------------------
  // Options: re.findall(r"\(([A-D])\)\s*(.+?)(?=\(|$)", html, re.DOTALL)

  predicate IsLabel(c: char) { 'A' <= c <= 'D' }

  /** The lookahead `(?=\(|$)` at position m: a "(" follows, or `$` holds, which
      without MULTILINE is at the end or just before a final newline. */
  predicate Stop(s: string, m: nat)
    requires m <= |s|
  {
    m == |s| || s[m] == '(' || (m == |s| - 1 && s[m] == '\n')
  }

  /** The first position from k on at which the lookahead holds: where the lazy
      `(.+?)` stops once it has taken the character before k. */
  function FirstStop(s: string, k: nat): (m: nat)
    requires k <= |s|
    ensures k <= m <= |s| && Stop(s, m)
    ensures forall i :: k <= i < m ==> !Stop(s, i)
    ensures forall i :: k <= i < m ==> s[i] != '('
    decreases |s| - k
  {
    if Stop(s, k) then k else FirstStop(s, k + 1)
  }

  /** Where the greedy `\s*` that starts at k ends. */
  function SkipSpace(s: string, k: nat): (j: nat)
    requires k <= |s|
    ensures k <= j <= |s|
    ensures j == |s| || !IsSpace(s[j])
    ensures forall i :: k <= i < j ==> IsSpace(s[i])
    decreases |s| - k
  {
    if k < |s| && IsSpace(s[k]) then SkipSpace(s, k + 1) else k
  }

  /** One match: the label group, the content group and the position after it. */
  datatype Hit = Hit(letter: char, content: string, end: nat)

  /** The match that starts exactly at p, if any. When `\s*` has swallowed the
      rest of the text it gives one character back, which becomes the content;
      with nothing after the ")" there is no match. */
  function MatchAt(s: string, p: nat): (r: Option<Hit>)
    requires p <= |s|
    ensures r.Some? ==> p + 3 < r.value.end <= |s| && IsLabel(r.value.letter)
    ensures r.Some? ==> s[p] == '(' && s[p + 1] == r.value.letter && s[p + 2] == ')'
    ensures r.Some? ==> 0 < |r.value.content| <= r.value.end && r.value.content == s[r.value.end - |r.value.content|..r.value.end]
    ensures r.Some? ==> forall i :: 1 <= i < |r.value.content| ==> r.value.content[i] != '('
  {
    if p + 3 <= |s| && s[p] == '(' && IsLabel(s[p + 1]) && s[p + 2] == ')' then
      var j := SkipSpace(s, p + 3);
      if j < |s| then
        var m := FirstStop(s, j + 1);
        Some(Hit(s[p + 1], s[j..m], m))
      else if p + 3 < j then
        Some(Hit(s[p + 1], s[j - 1..], j))
      else
        None
    else
      None
  }

  /** findall from position p: a match resumes the scan after itself, no match
      at p moves on by one character. */
  function Matches(s: string, p: nat): (r: seq<Hit>)
    requires p <= |s|
    ensures forall k :: 0 <= k < |r| ==> IsLabel(r[k].letter) && r[k].content != []
    decreases |s| - p
  {
    if p == |s| then []
    else
      match MatchAt(s, p)
      case Some(h) => [h] + Matches(s, h.end)
      case None => Matches(s, p + 1)
  }

  /** Every match opens with "(": a text without one has no options. */
  lemma {:induction false} NoParenNoMatches(s: string, p: nat)
    requires p <= |s|
    requires forall i :: p <= i < |s| ==> s[i] != '('
    ensures Matches(s, p) == []
    decreases |s| - p
  {
    if p < |s| {
      assert MatchAt(s, p).None?;
      NoParenNoMatches(s, p + 1);
    }
  }

  // ---------------------------------------------------------------------
  // Option text: re.sub(r"<[^>]+>", "", content).strip()[:200]

  /** Removes every `<[^>]+>`, scanning left to right: a "<" opens a tag only
      when a later ">" exists and is not the very next character. */
  function StripTags(s: string): (r: string)
    ensures |r| <= |s|
    ensures forall c :: c in r ==> c in s
    decreases |s|
  {
    if s == [] then []
    else if s[0] == '<' && 0 < IndexOf(s[1..], '>') < |s| - 1 then
      StripTags(s[IndexOf(s[1..], '>') + 2..])
    else
      [s[0]] + StripTags(s[1..])
  }

  /** No `<[^>]+>` is left in r: the first ">" after any "<" follows it directly. */
  predicate TagFree(r: string) {
    forall i, j :: 0 <= i < j < |r| && r[i] == '<' && r[j] == '>' ==> r[i + 1] == '>'
  }

  lemma StripTagsKeepsHead(s: string)
    requires s != [] && s[0] != '<'
    ensures StripTags(s) != [] && StripTags(s)[0] == s[0]
  {
  }

  lemma {:induction false} StripTagsTagFree(s: string)
    ensures TagFree(StripTags(s))
    decreases |s|
  {
    if s == [] {
    } else if s[0] == '<' && 0 < IndexOf(s[1..], '>') < |s| - 1 {
      StripTagsTagFree(s[IndexOf(s[1..], '>') + 2..]);
    } else {
      var t := StripTags(s[1..]);
      StripTagsTagFree(s[1..]);
      var r := [s[0]] + t;
      assert StripTags(s) == r;
      if s[0] == '<' {
        if IndexOf(s[1..], '>') < |s| - 1 {
          StripTagsKeepsHead(s[1..]);
        } else {
          assert '>' !in s[1..];
          assert '>' !in t;
        }
      }
      forall i, j | 0 <= i < j < |r| && r[i] == '<' && r[j] == '>'
        ensures r[i + 1] == '>'
      {
        if 0 < i {
          assert t[i - 1] == '<' && t[j - 1] == '>';
        } else {
          assert t[j - 1] == '>';
        }
      }
    }
  }

  lemma TagFreeSlice(r: string, a: nat, b: nat)
    requires TagFree(r) && a <= b <= |r|
    ensures TagFree(r[a..b])
  {
    var q := r[a..b];
    forall i, j | 0 <= i < j < |q| && q[i] == '<' && q[j] == '>'
      ensures q[i + 1] == '>'
    {
      assert r[a + i] == '<' && r[a + j] == '>';
    }
  }

  /** The cleaned text of one option's content. */
  function CleanOption(content: string): (text: string)
  {
    Take(Strip(StripTags(content)), 200)
  }

  /** What the cleaning guarantees: at most 200 characters, no leading
      whitespace and no HTML tag left. */
  lemma CleanOptionShape(content: string)
    ensures var text := CleanOption(content);
      |text| <= 200 && (text == [] || !IsSpace(text[0])) && TagFree(text)
  {
    var x := StripTags(content);
    StripTagsTagFree(content);
    StripKeepsTagFree(x);
    var ls := Strip(x);
    var text := Take(ls, 200);
    TagFreeSlice(ls, 0, |text|);
    assert text == ls[0..|text|];
  }

  lemma StripKeepsTagFree(x: string)
    requires TagFree(x)
    ensures TagFree(Strip(x))
  {
    RStripKeepsTagFree(x);
    LStripKeepsTagFree(RStrip(x));
  }

  lemma RStripKeepsTagFree(x: string)
    requires TagFree(x)
    ensures TagFree(RStrip(x))
  {
    var rs := RStrip(x);
    TagFreeSlice(x, 0, |rs|);
  }

  lemma LStripKeepsTagFree(x: string)
    requires TagFree(x)
    ensures TagFree(LStrip(x))
  {
    TagFreeSuffix(x, |x| - |LStrip(x)|);
  }

  lemma TagFreeSuffix(r: string, a: nat)
    requires TagFree(r) && a <= |r|
    ensures TagFree(r[a..])
  {
    var q := r[a..];
    forall i, j | 0 <= i < j < |q| && q[i] == '<' && q[j] == '>'
      ensures q[i + 1] == '>'
    {
      assert r[a + i] == '<' && r[a + j] == '>';
    }
  }

  datatype Choice = Choice(letter: string, text: string)

  const Placeholders: seq<Choice> :=
    [Choice("A", "Option A"), Choice("B", "Option B"), Choice("C", "Option C"), Choice("D", "Option D")]

  /** `html or ""`: a truthy value other than a string makes findall raise. */
  function HtmlText(html: Value): (r: Option<string>)
    ensures r.Some? <==> Falsy(html) || html.Str?
  {
    if Falsy(html) then Some("") else if html.Str? then Some(html.s) else None
  }

  /** The option one match gives. */
  function ChoiceOf(h: Hit): Choice {
    Choice([h.letter], CleanOption(h.content))
  }

  /** One option per match, in order. */
  function Cleaned(hits: seq<Hit>): (r: seq<Choice>)
    ensures |r| == |hits|
  {
    if hits == [] then [] else Cleaned(hits[..|hits| - 1]) + [ChoiceOf(hits[|hits| - 1])]
  }

  lemma {:induction false} CleanedAt(hits: seq<Hit>, k: nat)
    requires k < |hits|
    ensures Cleaned(hits)[k] == ChoiceOf(hits[k])
  {
    if k < |hits| - 1 {
      CleanedAt(hits[..|hits| - 1], k);
    }
  }

  /** _extract_options_from_html: the cleaned matches, or the four placeholders
      when fewer than four were found; None when it raises. */
  function OptionsFromHtml(html: Value): (r: Option<seq<Choice>>)
    ensures r.Some? ==> 4 <= |r.value|
  {
    match HtmlText(html)
    case None => None
    case Some(s) =>
      var found := Cleaned(Matches(s, 0));
      Some(if |found| < 4 then Placeholders else found)
  }

  /** The options always number at least four; fewer than four matches give
      exactly the placeholders, otherwise option k comes from match k, labelled
      A to D, with a tag-free text of at most 200 characters. */
  lemma {:induction false} OptionsShape(html: Value)
    ensures OptionsFromHtml(html).Some? <==> Falsy(html) || html.Str?
    ensures html.Str? && |Matches(html.s, 0)| < 4 ==> OptionsFromHtml(html) == Some(Placeholders)
    ensures html.Str? && 4 <= |Matches(html.s, 0)| ==>
      var hits := Matches(html.s, 0);
      var opts := OptionsFromHtml(html).value;
      |opts| == |hits| &&
      forall k :: 0 <= k < |hits| ==>
        opts[k].letter == [hits[k].letter] && IsLabel(opts[k].letter[0]) &&
        |opts[k].text| <= 200 && TagFree(opts[k].text)
  {
    if html.Str? && 4 <= |Matches(html.s, 0)| {
      var hits := Matches(html.s, 0);
      forall k | 0 <= k < |hits|
        ensures Cleaned(hits)[k] == ChoiceOf(hits[k])
        ensures |CleanOption(hits[k].content)| <= 200 && TagFree(CleanOption(hits[k].content))
      {
        CleanedAt(hits, k);
        CleanOptionShape(hits[k].content);
      }
    }
  }

  /** A question whose HTML has no "(" gets the placeholders. */
  lemma NoParenPlaceholders(s: string)
    requires '(' !in s
    ensures OptionsFromHtml(Str(s)) == Some(Placeholders)
  {
    if s != [] {
      NoParenNoMatches(s, 0);
    }
  }

  /** The loop of _extract_options_from_html. */
  method ExtractOptions(html: Value) returns (r: Option<seq<Choice>>)
    ensures r == OptionsFromHtml(html)
  {
    var text := HtmlText(html);
    if text.None? {
      return None;
    }
    var options := CleanAll(Matches(text.value, 0));
    if |options| < 4 {
      options := Placeholders;
    }
    r := Some(options);
  }

  /** The options loop proper: one cleaned option per match. */
  method CleanAll(hits: seq<Hit>) returns (options: seq<Choice>)
    ensures options == Cleaned(hits)
  {
    options := [];
    var i := 0;
    while i < |hits|
      invariant 0 <= i <= |hits|
      invariant options == Cleaned(hits[..i])
    {
      CleanedSnoc(hits, i);
      options := options + [ChoiceOf(hits[i])];
      i := i + 1;
    }
    assert hits[..i] == hits;
  }

  lemma CleanedSnoc(hits: seq<Hit>, i: nat)
    requires i < |hits|
    ensures Cleaned(hits[..i + 1]) == Cleaned(hits[..i]) + [ChoiceOf(hits[i])]
  {
    assert hits[..i + 1][..i] == hits[..i];
  }

  // ---------------------------------------------------------------------
  // Sub-concepts

  /** The sub-concept one tag contributes: its "subConcept" when the tag is a
      dict that has one. */
  function SubconceptOf(tag: Value): (r: seq<Value>)
    ensures |r| <= 1
  {
    if tag.Dict? && "subConcept" in tag.fields then [tag.fields["subConcept"]] else []
  }

  function Subconcepts(tags: seq<Value>): (r: seq<Value>)
    ensures |r| <= |tags|
  {
    if tags == [] then [] else Subconcepts(tags[..|tags| - 1]) + SubconceptOf(tags[|tags| - 1])
  }

  /** Exactly the sub-concepts of the dict tags that carry one appear. */
  lemma {:induction false} SubconceptsMembers(tags: seq<Value>, x: Value)
    ensures x in Subconcepts(tags) <==>
      exists k :: 0 <= k < |tags| && tags[k].Dict? && "subConcept" in tags[k].fields && tags[k].fields["subConcept"] == x
  {
    if tags != [] {
      var init := tags[..|tags| - 1];
      SubconceptsMembers(init, x);
      if x in Subconcepts(tags) && x !in Subconcepts(init) {
        var k := |tags| - 1;
        assert tags[k].Dict? && "subConcept" in tags[k].fields && tags[k].fields["subConcept"] == x;
      }
      if x in Subconcepts(init) {
        var k :| 0 <= k < |init| && init[k].Dict? && "subConcept" in init[k].fields && init[k].fields["subConcept"] == x;
        assert tags[k] == init[k];
      }
      if exists k :: 0 <= k < |tags| && tags[k].Dict? && "subConcept" in tags[k].fields && tags[k].fields["subConcept"] == x {
        var k :| 0 <= k < |tags| && tags[k].Dict? && "subConcept" in tags[k].fields && tags[k].fields["subConcept"] == x;
        if k < |init| {
          assert init[k] == tags[k];
        }
      }
    }
  }

  /** Tags are read in order: the sub-concepts of a concatenation concatenate. */
  lemma {:induction false} SubconceptsAppend(a: seq<Value>, b: seq<Value>)
    ensures Subconcepts(a + b) == Subconcepts(a) + Subconcepts(b)
    decreases |b|
  {
    if b != [] {
      var b' := b[..|b| - 1];
      assert (a + b)[..|a + b| - 1] == a + b';
      SubconceptsAppend(a, b');
    } else {
      assert a + b == a;
    }
  }

  /** `raw.get("tagSubConcept", []) or []` as the loop sees it: a string is
      iterated character by character and a dict over its keys, both of which
      yield only strings; a truthy number or boolean makes the loop raise. */
  function TagList(raw: map<string, Value>): (r: Option<seq<Value>>)
  {
    var v := Lookup(raw, "tagSubConcept", List([]));
    if Falsy(v) then Some([])
    else match v
      case List(items) => Some(items)
      case Str(s) => Some(seq(|s|, k requires 0 <= k < |s| => Str([s[k]])))
      case Dict(_) => Some([])
      case _ => None
  }

  /** _extract_subconcepts; None when it raises. */
  function SubconceptsIn(raw: map<string, Value>): (r: Option<seq<Value>>)
  {
    match TagList(raw)
    case None => None
    case Some(tags) => Some(Subconcepts(tags))
  }

  /** A missing, null or empty tag list gives no sub-concepts; a list gives
      the sub-concepts of its dict tags; any other value gives none or raises. */
  lemma SubconceptsInCases(raw: map<string, Value>)
    ensures ("tagSubConcept" !in raw || Falsy(raw["tagSubConcept"])) ==> SubconceptsIn(raw) == Some([])
    ensures SubconceptsIn(raw).None? <==>
      "tagSubConcept" in raw && !Falsy(raw["tagSubConcept"]) && (raw["tagSubConcept"].Num? || raw["tagSubConcept"].Bool?)
    ensures "tagSubConcept" in raw && raw["tagSubConcept"].List? ==>
      SubconceptsIn(raw) == Some(Subconcepts(raw["tagSubConcept"].items))
    ensures "tagSubConcept" in raw && (raw["tagSubConcept"].Str? || raw["tagSubConcept"].Dict?) ==>
      SubconceptsIn(raw) == Some([])
  {
    var v := Lookup(raw, "tagSubConcept", List([]));
    if v.Str? {
      var tags := TagList(raw).value;
      assert forall k :: 0 <= k < |tags| ==> tags[k].Str?;
      if Subconcepts(tags) != [] {
        SubconceptsMembers(tags, Subconcepts(tags)[0]);
      }
    }
  }

  lemma SubconceptsSnoc(tags: seq<Value>, i: nat)
    requires i < |tags|
    ensures Subconcepts(tags[..i + 1]) == Subconcepts(tags[..i]) + SubconceptOf(tags[i])
  {
    assert tags[..i + 1][..i] == tags[..i];
  }

  /** The loop of _extract_subconcepts. */
  method ExtractSubconcepts(raw: map<string, Value>) returns (r: Option<seq<Value>>)
    ensures r == SubconceptsIn(raw)
  {
    var tags := TagList(raw);
    if tags.None? {
      return None;
    }
    var items := tags.value;
    var found: seq<Value> := [];
    var i := 0;
    while i < |items|
      invariant 0 <= i <= |items|
      invariant found == Subconcepts(items[..i])
    {
      var tag := items[i];
      SubconceptsSnoc(items, i);
      if tag.Dict? && "subConcept" in tag.fields {
        found := found + [tag.fields["subConcept"]];
      }
      i := i + 1;
    }
    assert items[..i] == items;
    r := Some(found);
  }

  // ---------------------------------------------------------------------
  // Layouts

  datatype Header = Header(id: Value, index: int, subject: Value, chapter: Value, difficulty: Value, level: Value)

  datatype Formatted =
    | Scq(header: Header, questionHtml: Value, questionImages: Value, options: seq<Choice>,
          correctAnswer: Value, solutionHtml: Value, solutionImages: Value,
          smartTrick: Value, trap: Value, sillyMistake: Value, isLengthy: Value, isNcert: Value,
          subconcepts: seq<Value>)
    | Mcq(header: Header, questionHtml: Value, questionImages: Value, correctAnswers: Value,
          solutionHtml: Value, solutionImages: Value, smartTrick: Value, trap: Value)
    | Integer(header: Header, questionHtml: Value, questionImages: Value, integerAnswer: Value,
              solutionHtml: Value, solutionImages: Value)

  /** The "question_type" each layout reports. */
  function QuestionType(f: Formatted): string {
    match f
    case Scq(_, _, _, _, _, _, _, _, _, _, _, _, _) => "scq"
    case Mcq(_, _, _, _, _, _, _, _) => "mcq"
    case Integer(_, _, _, _, _, _) => "integer"
  }

  /** The fields every layout shares, with the source's defaults. */
  function HeaderOf(raw: map<string, Value>, idx: int): Header {
    Header(Lookup(raw, "_id", Str("unknown")), idx + 1, Lookup(raw, "subject", Str("Unknown")),
           Lookup(raw, "chapter", Str("Unknown")), Lookup(raw, "difficulty", Str("Medium")),
           Lookup(raw, "level", Str("MEDIUM")))
  }

  /** `raw.get(key, {})` when it is a dict; None when `.get` on it would raise. */
  function Part(raw: map<string, Value>, key: string): (r: Option<map<string, Value>>)
    ensures r.Some? <==> Lookup(raw, key, Dict(map[])).Dict?
  {
    var v := Lookup(raw, key, Dict(map[]));
    if v.Dict? then Some(v.fields) else None
  }

  /** _format_scq. */
  function FormatScq(raw: map<string, Value>, idx: int): (r: Option<Formatted>)
  {
    match Part(raw, "scq")
    case None => None
    case Some(scq) =>
      var html := Lookup(scq, "question", Str(QuestionMissing));
      match (OptionsFromHtml(html), SubconceptsIn(raw))
      case (Some(options), Some(subconcepts)) =>
        Some(Scq(HeaderOf(raw, idx), html, Lookup(scq, "quesImages", List([])), options,
                 Lookup(scq, "answer", Str("A")), Lookup(scq, "solution", Str(SolutionMissing)),
                 Lookup(scq, "solutionImages", List([])),
                 Lookup(raw, "smartTrick", Bool(false)), Lookup(raw, "trap", Bool(false)),
                 Lookup(raw, "sillyMistake", Bool(false)), Lookup(raw, "isLengthy", Num(0)),
                 Lookup(raw, "isNCERT", Bool(false)), subconcepts))
      case _ => None
  }

  /** _format_mcq: the question and solution come from the scq part. */
  function FormatMcq(raw: map<string, Value>, idx: int): (r: Option<Formatted>)
  {
    match (Part(raw, "mcq"), Part(raw, "scq"))
    case (Some(mcq), Some(scq)) =>
      Some(Mcq(HeaderOf(raw, idx), Lookup(scq, "question", Str(QuestionMissing)),
               Lookup(mcq, "quesImages", List([])), Lookup(mcq, "answer", List([])),
               Lookup(scq, "solution", Str(SolutionMissing)), Lookup(mcq, "solutionImages", List([])),
               Lookup(raw, "smartTrick", Bool(false)), Lookup(raw, "trap", Bool(false))))
    case _ => None
  }

  /** `first or raw.get("scq", {}).get(key, default)`: the scq part is consulted,
      and must be a dict, only when first is falsy. */
  function OrScq(first: Value, raw: map<string, Value>, key: string, default: Value): (r: Option<Value>)
  {
    if !Falsy(first) then Some(first)
    else match Part(raw, "scq")
      case None => None
      case Some(scq) => Some(Lookup(scq, key, default))
  }

  /** _format_integer. */
  function FormatInteger(raw: map<string, Value>, idx: int): (r: Option<Formatted>)
  {
    match Part(raw, "integerQuestion")
    case None => None
    case Some(iq) =>
      match (OrScq(Get(iq, "question"), raw, "question", Null), OrScq(Get(iq, "solution"), raw, "solution", Null))
      case (Some(question), Some(solution)) =>
        (match (OrScq(Get(iq, "quesImages"), raw, "quesImages", List([])),
                OrScq(Get(iq, "solutionImages"), raw, "solutionImages", List([])))
         case (Some(images), Some(solutionImages)) =>
           Some(Integer(HeaderOf(raw, idx), Or(question, Str(QuestionMissing)), images, Get(iq, "answer"),
                        Or(solution, Str(SolutionMissing)), solutionImages))
         case _ => None)
      case _ => None
  }

  /** The "questionType" a record declares, "scq" when it declares none. */
  function DeclaredType(raw: map<string, Value>): Value {
    Lookup(raw, "questionType", Str("scq"))
  }

  /** format_question: dispatches on the declared type, anything other than
      "mcq" or "integerQuestion" being formatted as single-choice. */
  function FormatQuestion(raw: map<string, Value>, idx: int): (r: Option<Formatted>)
    ensures r.Some? ==> r.value.header.index == idx + 1
    ensures r.Some? ==> r.value.header.id == (if "_id" in raw then raw["_id"] else Str("unknown"))
    ensures r.Some? ==> (r.value.Mcq? <==> DeclaredType(raw) == Str("mcq"))
    ensures r.Some? ==> (r.value.Integer? <==> DeclaredType(raw) == Str("integerQuestion"))
    ensures r.Some? && r.value.Scq? ==> 4 <= |r.value.options|
  {
    var t := DeclaredType(raw);
    if t == Str("mcq") then FormatMcq(raw, idx)
    else if t == Str("integerQuestion") then FormatInteger(raw, idx)
    else FormatScq(raw, idx)
  }

  /** A single-choice record fails to format exactly when its scq part is not a
      dict, its question HTML is truthy but not a string, or its tag list is a
      truthy number or boolean. */
  lemma ScqFailure(raw: map<string, Value>, idx: int)
    requires DeclaredType(raw) != Str("mcq") && DeclaredType(raw) != Str("integerQuestion")
    ensures FormatQuestion(raw, idx).None? <==>
      || Part(raw, "scq").None?
      || HtmlText(Lookup(Part(raw, "scq").value, "question", Str(QuestionMissing))).None?
      || TagList(raw).None?
  {
  }

  /** A record without an scq part formats, as single-choice, with the
      placeholder question, the four placeholder options and answer "A". */
  lemma ScqDefaults(raw: map<string, Value>, idx: int)
    requires DeclaredType(raw) != Str("mcq") && DeclaredType(raw) != Str("integerQuestion")
    requires "scq" !in raw && "tagSubConcept" !in raw
    ensures FormatQuestion(raw, idx).Some?
    ensures var f := FormatQuestion(raw, idx).value;
      f.Scq? && f.questionHtml == Str(QuestionMissing) && f.options == Placeholders &&
      f.correctAnswer == Str("A") && f.subconcepts == []
  {
    MissingQuestionOptions();
  }

  lemma MissingQuestionOptions()
    ensures OptionsFromHtml(Str(QuestionMissing)) == Some(Placeholders)
  {
    assert '(' !in QuestionMissing;
    NoParenPlaceholders(QuestionMissing);
  }

  /** A multiple-choice record fails exactly when its mcq or its scq part is
      not a dict. */
  lemma McqFailure(raw: map<string, Value>, idx: int)
    requires DeclaredType(raw) == Str("mcq")
    ensures FormatQuestion(raw, idx).None? <==> Part(raw, "mcq").None? || Part(raw, "scq").None?
  {
  }

  /** The integer layout never shows an empty question or solution, and prefers
      the integer part's own question and solution to the scq part's. */
  lemma IntegerTexts(raw: map<string, Value>, idx: int)
    requires DeclaredType(raw) == Str("integerQuestion")
    requires FormatQuestion(raw, idx).Some?
    ensures var f := FormatQuestion(raw, idx).value;
      var iq := Part(raw, "integerQuestion").value;
      && !Falsy(f.questionHtml) && !Falsy(f.solutionHtml)
      && (!Falsy(Get(iq, "question")) ==> f.questionHtml == Get(iq, "question"))
      && (!Falsy(Get(iq, "solution")) ==> f.solutionHtml == Get(iq, "solution"))
      && f.integerAnswer == Get(iq, "answer")
  {
  }

  /** The scq part is consulted only for what the integer part lacks: when
      the integer part has a truthy question, solution, image list and
      solution-image list, the scq part, whatever it holds, changes nothing. */
  lemma IntegerIgnoresScq(raw: map<string, Value>, idx: int, scq: Value)
    requires DeclaredType(raw) == Str("integerQuestion")
    requires Part(raw, "integerQuestion").Some?
    requires var iq := Part(raw, "integerQuestion").value;
      !Falsy(Get(iq, "question")) && !Falsy(Get(iq, "solution")) &&
      !Falsy(Get(iq, "quesImages")) && !Falsy(Get(iq, "solutionImages"))
    ensures FormatQuestion(raw, idx).Some?
    ensures FormatQuestion(raw["scq" := scq], idx) == FormatQuestion(raw, idx)
  {
    var raw' := raw["scq" := scq];
    assert DeclaredType(raw') == DeclaredType(raw);
    assert Part(raw', "integerQuestion") == Part(raw, "integerQuestion");
    assert HeaderOf(raw', idx) == HeaderOf(raw, idx);
  }
}
