/** Question mutation (app/services/question_mutator.py): the model is asked for
    a variant of an scq or integer question with other numbers, and its reply
    is merged into a copy of the question; a deterministic nudge of the first
    number is the fallback when the merge changed nothing. A question is a
    dictionary of JSON values; the model's reply is an oracle answer. */
module Mutator {
  import opened Text
  import opened Json
  import opened Oracles

  type Question = map<string, Value>

  // ---------------------------------------------------------------------
  // _safe_options

  const LabelMax: nat := 5
  const TextMax: nat := 300

  /** One cleaned answer choice, stored as {"label": label, "text": text}. */
  datatype Choice = Choice(letter: string, text: string)

  function ChoiceValue(c: Choice): Value {
    Dict(map["label" := Str(c.letter), "text" := Str(c.text)])
  }

  function ChoiceValues(cs: seq<Choice>): (r: seq<Value>)
    ensures |r| == |cs| && forall i :: 0 <= i < |cs| ==> r[i] == ChoiceValue(cs[i])
  {
    seq(|cs|, i requires 0 <= i < |cs| => ChoiceValue(cs[i]))
  }

  /** Text with single spaces between non-blank runs and no whitespace at its
      start: a prefix of `" ".join(t.split())`. */
  predicate SpacedText(t: string) {
    && t != [] && !IsSpace(t[0])
    && (forall i :: 0 <= i < |t| && IsSpace(t[i]) ==> t[i] == ' ')
    && (forall i :: 0 <= i < |t| - 1 ==> !(IsSpace(t[i]) && IsSpace(t[i + 1])))
  }

  /** What a kept choice looks like: a label of one to five characters that
      starts with a non-space, and a text of at most 300 characters. */
  predicate CleanChoice(c: Choice) {
    && 1 <= |c.letter| <= LabelMax && !IsSpace(c.letter[0])
    && |c.text| <= TextMax && SpacedText(c.text)
  }

  /** One pass of the loop over the options. */
  datatype Entry = Skipped | Kept(choice: Choice) | EntryRaises

  /** An entry: a non-dictionary is skipped; a label or text that is neither
      a string nor falsy makes `.strip()` raise; an entry whose cut label or
      text is empty is skipped. */
  function CleanEntry(opt: Value): (r: Entry)
    ensures r.Kept? ==> CleanChoice(r.choice)
    ensures r.EntryRaises? <==>
      opt.Dict? && !(TextLike(Get(opt.fields, "label")) && TextLike(Get(opt.fields, "text")))
  {
    if !opt.Dict? then Skipped
    else
      var l := Get(opt.fields, "label");
      var t := Get(opt.fields, "text");
      if !TextLike(l) || !TextLike(t) then EntryRaises
      else
        var letter := Take(Strip(TextOr(l)), LabelMax);
        var text := Take(Collapse(TextOr(t)), TextMax);
        if letter != [] && text != [] then
          CutStrippedHead(TextOr(l));
          CutCollapsedSpaced(TextOr(t));
          Kept(Choice(letter, text))
        else Skipped
  }

  lemma CutStrippedHead(s: string)
    ensures Take(Strip(s), LabelMax) != [] ==> !IsSpace(Take(Strip(s), LabelMax)[0])
  {
  }

  lemma CutCollapsedSpaced(s: string)
    ensures Take(Collapse(s), TextMax) != [] ==> SpacedText(Take(Collapse(s), TextMax))
  {
    var c := Collapse(s);
    CollapseShape(s);
    var t := Take(c, TextMax);
    assert forall i :: 0 <= i < |t| ==> t[i] == c[i];
  }

  /** The entry each option turns into. */
  function Entries(items: seq<Value>): (r: seq<Entry>)
    ensures |r| == |items| && forall i :: 0 <= i < |items| ==> r[i] == CleanEntry(items[i])
  {
    seq(|items|, i requires 0 <= i < |items| => CleanEntry(items[i]))
  }

  /** The loop over the entries: None when one of them raises. */
  function CleanAll(es: seq<Entry>): (r: Option<seq<Choice>>)
    ensures r.None? <==> exists i :: 0 <= i < |es| && es[i].EntryRaises?
    ensures r.Some? ==> |r.value| <= |es| && forall c <- r.value :: exists i :: 0 <= i < |es| && es[i] == Kept(c)
    ensures r == Some([]) <==> forall i :: 0 <= i < |es| ==> es[i].Skipped?
    decreases |es|
  {
    if es == [] then Some([])
    else
      var init := es[..|es| - 1];
      var last := es[|es| - 1];
      assert forall i :: 0 <= i < |init| ==> init[i] == es[i];
      match CleanAll(init)
      case None => None
      case Some(cs) =>
        match last
        case EntryRaises => None
        case Skipped => Some(cs)
        case Kept(c) => Some(cs + [c])
  }

  /** What `_safe_options` yields: an exception, None, or the kept choices. */
  datatype Options = OptionsRaise | NoOptions | Cleaned(choices: seq<Choice>)

  /** `_safe_options(options)`: None for a non-list and for a list that keeps
      nothing; an exception when an entry raises; otherwise the kept choices,
      each of them clean. */
  function SafeOptions(v: Value): (r: Options)
    ensures !v.List? ==> r == NoOptions
    ensures r.Cleaned? ==> r.choices != [] && |r.choices| <= |v.items| && forall c <- r.choices :: CleanChoice(c)
    ensures r.OptionsRaise? <==> v.List? && exists i :: 0 <= i < |v.items| && CleanEntry(v.items[i]).EntryRaises?
    ensures r.NoOptions? <==> !v.List? || forall i :: 0 <= i < |v.items| ==> CleanEntry(v.items[i]).Skipped?
  {
    if !v.List? then NoOptions
    else
      CleanAllOfEntries(v.items);
      match CleanAll(Entries(v.items))
      case None => OptionsRaise
      case Some(cs) => if cs == [] then NoOptions else Cleaned(cs)
  }

  /** The loop's outcome over the option list, stated entry by entry. */
  lemma CleanAllOfEntries(items: seq<Value>)
    ensures CleanAll(Entries(items)).None? <==> exists i :: 0 <= i < |items| && CleanEntry(items[i]).EntryRaises?
    ensures CleanAll(Entries(items)) == Some([]) <==> forall i :: 0 <= i < |items| ==> CleanEntry(items[i]).Skipped?
    ensures CleanAll(Entries(items)).Some? ==>
      |CleanAll(Entries(items)).value| <= |items| && forall c <- CleanAll(Entries(items)).value :: CleanChoice(c)
  {
    var es := Entries(items);
    if CleanAll(es).Some? {
      var cs := CleanAll(es).value;
      forall c <- cs ensures CleanChoice(c) {
        var i :| 0 <= i < |es| && es[i] == Kept(c);
      }
    }
  }

  /** Once an entry raised, the rest of the loop does not matter. */
  lemma RaisedStays(es: seq<Entry>, i: nat)
    requires i <= |es| && CleanAll(es[..i]).None?
    ensures CleanAll(es).None?
  {
    var k :| 0 <= k < i && es[..i][k].EntryRaises?;
    assert es[..i][k] == es[k];
  }

  /** One more entry of the loop over the entries. */
  lemma CleanAllSnoc(es: seq<Entry>, i: nat, cleaned: seq<Choice>)
    requires i < |es| && CleanAll(es[..i]) == Some(cleaned)
    ensures es[i].EntryRaises? ==> CleanAll(es[..i + 1]).None?
    ensures es[i].Skipped? ==> CleanAll(es[..i + 1]) == Some(cleaned)
    ensures es[i].Kept? ==> CleanAll(es[..i + 1]) == Some(cleaned + [es[i].choice])
  {
    assert es[..i + 1][..i] == es[..i];
  }

  /** `_safe_options`: the list check, then the loop. */
  method CleanOptions(v: Value) returns (r: Options)
    ensures r == SafeOptions(v)
  {
    if !v.List? {
      return NoOptions;
    }
    var res := CleanLoop(v.items);
    match res
    case None => r := OptionsRaise;
    case Some(cleaned) => r := if cleaned == [] then NoOptions else Cleaned(cleaned);
  }

  /** The loop of `_safe_options`, entry by entry, stopping at the first entry
      that raises. */
  method CleanLoop(items: seq<Value>) returns (res: Option<seq<Choice>>)
    ensures res == CleanAll(Entries(items))
  {
    ghost var es := Entries(items);
    var cleaned: seq<Choice> := [];
    var raised := false;
    var i := 0;
    while i < |items| && !raised
      invariant 0 <= i <= |items|
      invariant !raised ==> CleanAll(es[..i]) == Some(cleaned)
      invariant raised ==> CleanAll(es[..i]).None?
      decreases |items| - i, !raised
    {
      var e := CleanEntry(items[i]);
      CleanAllSnoc(es, i, cleaned);
      if e.EntryRaises? {
        raised := true;
      } else if e.Kept? {
        cleaned := cleaned + [e.choice];
      }
      i := i + 1;
    }
    if raised {
      RaisedStays(es, i);
      res := None;
    } else {
      assert es[..i] == es;
      res := Some(cleaned);
    }
  }

  // ---------------------------------------------------------------------
  // _nudge_first_number, as written

  /** The number of 'd' characters from position j on. */
  function DRun(s: string, j: nat): (n: nat)
    requires j <= |s|
    ensures j + n <= |s| && forall k :: j <= k < j + n ==> s[k] == 'd'
    ensures j + n < |s| ==> s[j + n] != 'd'
    decreases |s| - j
  {
    if j < |s| && s[j] == 'd' then 1 + DRun(s, j + 1) else 0
  }

  /** Where a match of the pattern `\\d+(?:\\.\\d+)?` that starts at i ends.
      In the raw string the pattern reads: a backslash, one or more letters
      'd', then optionally a backslash, any character but a line break, a
      backslash and one or more letters 'd'. Both repetitions are greedy,
      and the optional part can only start where the first run of 'd' ends. */
  function MatchEnd(s: string, i: nat): (r: Option<nat>)
    requires i <= |s|
    ensures r.Some? ==> i + 2 <= r.value <= |s| && s[i] == '\\' && s[i + 1] == 'd'
  {
    if i + 1 < |s| && s[i] == '\\' && s[i + 1] == 'd' then
      var j := i + 1 + DRun(s, i + 1);
      if j + 3 < |s| && s[j] == '\\' && s[j + 1] != '\n' && s[j + 2] == '\\' && s[j + 3] == 'd' then
        Some(j + 3 + DRun(s, j + 3))
      else
        Some(j)
    else
      None
  }

  /** `re.search`: the leftmost match at or after position i. */
  function Search(s: string, i: nat): (r: Option<(nat, nat)>)
    requires i <= |s|
    ensures r.Some? ==> i <= r.value.0 && r.value.0 + 2 <= r.value.1 <= |s|
    ensures r.Some? ==> s[r.value.0] == '\\' && s[r.value.0 + 1] == 'd'
    decreases |s| - i
  {
    if i == |s| then None
    else
      match MatchEnd(s, i)
      case Some(e) => Some((i, e))
      case None => Search(s, i + 1)
  }

  /** A text without a backslash never matches, whatever digits it holds. */
  lemma {:induction false} NoBackslashNoMatch(s: string, i: nat)
    requires i <= |s| && '\\' !in s
    ensures Search(s, i).None?
    decreases |s| - i
  {
    if i < |s| {
      assert s[i] != '\\';
      NoBackslashNoMatch(s, i + 1);
    }
  }

  function Pow10(n: nat): (r: nat)
    ensures r >= 1
  {
    if n == 0 then 1 else 10 * Pow10(n - 1)
  }

  /** float() on a string, for plain decimal literals: surrounding whitespace,
      an optional sign, digits, and an optional '.' followed by digits, with at
      least one digit in all; anything else raises (None). */
  function FloatOf(s: string): Option<real> {
    var t := Strip(s);
    var signed := t != [] && (t[0] == '-' || t[0] == '+');
    var body := if signed then t[1..] else t;
    var k := IndexOf(body, '.');
    var whole := body[..k];
    var frac := if k < |body| then body[k + 1..] else [];
    if AllDigits(whole) && AllDigits(frac) && |whole| + |frac| >= 1 then
      assert body != [];
      var v := DigitsValue(whole) as real + DigitsValue(frac) as real / Pow10(|frac|) as real;
      Some(if signed && t[0] == '-' then -v else v)
    else
      None
  }

  /** Rounding to the nearest integer, ties to even, as `.2f` formatting does. */
  function RoundHalfEven(x: real): (n: int)
    ensures x - 1.0 < n as real < x + 1.0
  {
    var f := x.Floor;
    var d := x - f as real;
    if d < 0.5 then f
    else if d > 0.5 then f + 1
    else if f % 2 == 0 then f else f + 1
  }

  /** Two digits for a value below 100, with a leading zero. */
  function TwoDigits(n: nat): (r: string)
    requires n < 100
    ensures |r| == 2
  {
    [DigitChar(n / 10), DigitChar(n % 10)]
  }

  /** s.rstrip(c) for one character c. */
  function RStripChar(s: string, c: char): (r: string)
    ensures r <= s && (r == [] || r[|r| - 1] != c)
    decreases |s|
  {
    if s != [] && s[|s| - 1] == c then RStripChar(s[..|s| - 1], c) else s
  }

  /** `f"{x:.2f}".rstrip("0").rstrip(".")` */
  function FixedTwo(x: real): (r: string)
  {
    var a := if x < 0.0 then -x else x;
    var cents: int := RoundHalfEven(a * 100.0);
    var c: nat := cents;
    var text := NatDigits(c / 100) + "." + TwoDigits(c % 100);
    var body := RStripChar(RStripChar(text, '0'), '.');
    if x < 0.0 then "-" + body else body
  }

  /** What `_nudge_first_number` returns: the text, whether it changed, and
      the increment (1 in both branches). */
  datatype Nudge = Nudge(text: Value, changed: bool, delta: Option<int>)

  /** `_nudge_first_number(text)` as written. */
  function NudgeFirstNumber(text: Value): (r: Nudge)
    ensures !text.Str? ==> r == Nudge(text, false, None)
  {
    if !text.Str? then Nudge(text, false, None)
    else
      var s := text.s;
      match Search(s, 0)
      case None => Nudge(text, false, None)
      case Some((start, end)) =>
        var original := s[start..end];
        if '.' in original then
          match FloatOf(original)
          case None => Nudge(text, false, None)
          case Some(v) => Nudge(Str(s[..start] + FixedTwo(v + 1.0) + s[end..]), true, Some(1))
        else
          match ParseInt(original)
          case None => Nudge(text, false, None)
          case Some(n) => Nudge(Str(s[..start] + Decimal(n + 1) + s[end..]), true, Some(1))
  }

  /** int() and float() both reject a text that starts with a backslash. */
  lemma BackslashIsNoNumber(s: string)
    requires s != [] && s[0] == '\\'
    ensures ParseInt(s).None? && FloatOf(s).None?
  {
    StripHead(s);
    var t := Strip(s);
    var k := IndexOf(t, '.');
    assert !IsDigit(t[..k][0]);
  }

  /** Every match of the pattern starts with a backslash, which both int()
      and float() reject: the nudge never changes anything. */
  lemma NudgeNeverChanges(text: Value)
    ensures NudgeFirstNumber(text) == Nudge(text, false, None)
  {
    if text.Str? {
      var s := text.s;
      var m := Search(s, 0);
      if m.Some? {
        var original := s[m.value.0..m.value.1];
        BackslashIsNoNumber(original);
      }
    }
  }

  /** A nudge that reports no change leaves the text as it was. */
  lemma UnchangedMeansSame(text: Value)
    ensures !NudgeFirstNumber(text).changed ==>
      NudgeFirstNumber(text).text == text && NudgeFirstNumber(text).delta.None?
  {
  }

  // ---------------------------------------------------------------------
  // _deterministic_nudge and mutate_question

  /** What a mutation step yields: an exception, or a question and whether
      it counts as changed. */
  datatype Mutation = Raised | Mutated(question: Question, changed: bool)

  /** `(question.get("question_type") or "").lower()`; None where `.lower()`
      raises. */
  function TypeOf(question: Question): (r: Option<string>)
    ensures r.Some? <==> TextLike(Get(question, "question_type"))
  {
    var v := Get(question, "question_type");
    if TextLike(v) then Some(Lower(TextOr(v))) else None
  }

  /** `(d.get(key) or "")` as a value. */
  function TextField(d: Question, key: string): Value {
    Or(Get(d, key), Str([]))
  }

  /** The entries a `for` loop visits in `x or []`: a list's items; a string's
      characters and a dictionary's keys, none of them a dictionary; None
      where iterating raises. */
  function LoopEntries(v: Value): (r: Option<seq<Value>>)
    ensures v.List? ==> r == Some(v.items)
  {
    if Falsy(v) then Some([])
    else
      match v
      case List(items) => Some(items)
      case Str(_) => Some([])
      case Dict(_) => Some([])
      case _ => None
  }

  /** The rebuilt scq option for an entry: {"label": opt.get("label"), "text": text}. */
  function NudgedOption(opt: Value): (r: Value)
    requires opt.Dict?
  {
    Dict(map["label" := Get(opt.fields, "label"), "text" := NudgeFirstNumber(TextField(opt.fields, "text")).text])
  }

  /** The loop over the options of `_deterministic_nudge`: the rebuilt options
      and whether one of their texts changed. */
  function NudgedOptions(items: seq<Value>): (r: (seq<Value>, bool))
    ensures |r.0| <= |items|
    decreases |items|
  {
    if items == [] then ([], false)
    else
      var init := items[..|items| - 1];
      var last := items[|items| - 1];
      var (opts, changed) := NudgedOptions(init);
      if !last.Dict? then (opts, changed)
      else (opts + [NudgedOption(last)], changed || NudgeFirstNumber(TextField(last.fields, "text")).changed)
  }

  /** `_deterministic_nudge(question)`. The integer answer is updated only
      from an answer that int() reads. */
  function Nudged(question: Question): (r: Mutation)
    ensures TypeOf(question).None? ==> r == Raised
  {
    match TypeOf(question)
    case None => Raised
    case Some(qtype) =>
      if qtype == "integer" then IntegerNudged(question)
      else if qtype == "scq" then ScqNudged(question)
      else Mutated(question, false)
  }

  /** The integer branch of `_deterministic_nudge`. */
  function IntegerNudged(question: Question): Mutation {
    IntegerNudgedBy(question, NudgeFirstNumber(TextField(question, "question_html")))
  }

  /** The integer branch once the nudge `n` of the question text is known. */
  function IntegerNudgedBy(question: Question, n: Nudge): Mutation {
    var q1 := if n.changed then question["question_html" := n.text] else question;
    var base := Get(q1, "integer_answer");
    var q2 :=
      if n.changed && base != Null && n.delta.Some? && IntOf(base).Some? then
        q1["integer_answer" := Num(IntOf(base).value + n.delta.value)]
      else q1;
    Mutated(q2["options" := List([])], n.changed)
  }

  /** The scq branch of `_deterministic_nudge`. */
  function ScqNudged(question: Question): Mutation {
    var n := NudgeFirstNumber(TextField(question, "question_html"));
    var q1 := if n.changed then question["question_html" := n.text] else question;
    match LoopEntries(Get(q1, "options"))
    case None => Raised
    case Some(items) =>
      var (opts, changed) := NudgedOptions(items);
      Mutated(if opts != [] then q1["options" := List(opts)] else q1, n.changed || changed)
  }

  lemma {:induction false} NudgedOptionsShape(items: seq<Value>)
    ensures !NudgedOptions(items).1
    ensures forall o <- NudgedOptions(items).0 ::
      o.Dict? && o.fields.Keys == {"label", "text"}
    ensures |NudgedOptions(items).0| == |DictsIn(items)|
    decreases |items|
  {
    if items != [] {
      var init := items[..|items| - 1];
      var last := items[|items| - 1];
      NudgedOptionsShape(init);
      assert items == init + [last];
      DictsSnoc(init, last);
      if last.Dict? {
        NudgeNeverChanges(TextField(last.fields, "text"));
      }
    }
  }

  /** The dictionary entries of a list, in order. */
  function DictsIn(items: seq<Value>): (r: seq<Value>)
    ensures |r| <= |items| && forall d <- r :: d.Dict? && d in items
    decreases |items|
  {
    if items == [] then []
    else if items[0].Dict? then [items[0]] + DictsIn(items[1..])
    else DictsIn(items[1..])
  }

  lemma {:induction false} DictsSnoc(items: seq<Value>, x: Value)
    ensures DictsIn(items + [x]) == DictsIn(items) + (if x.Dict? then [x] else [])
    decreases |items|
  {
    if items == [] {
      assert items + [x] == [x];
    } else {
      assert (items + [x])[1..] == items[1..] + [x];
      DictsSnoc(items[1..], x);
    }
  }

  /** The nudge never reports a change. */
  lemma NudgedUnchanged(question: Question)
    ensures Nudged(question).Mutated? ==> !Nudged(question).changed
  {
    NudgeNeverChanges(TextField(question, "question_html"));
    var v := Get(question, "options");
    if LoopEntries(v).Some? {
      NudgedOptionsShape(LoopEntries(v).value);
    }
  }

  /** An integer question comes back with no options and nothing else changed. */
  lemma NudgedInteger(question: Question)
    requires TypeOf(question) == Some("integer")
    ensures Nudged(question) == Mutated(question["options" := List([])], false)
  {
    NudgeNeverChanges(TextField(question, "question_html"));
  }

  /** Any question type but scq and integer comes back as it is. */
  lemma NudgedOther(question: Question)
    requires TypeOf(question).Some? && TypeOf(question).value !in {"integer", "scq"}
    ensures Nudged(question) == Mutated(question, false)
  {
  }

  /** An scq question comes back with one rebuilt option ({"label", "text"})
      per dictionary entry of its options, or with its own options when they
      hold no dictionary; nothing else changes. */
  lemma NudgedScq(question: Question)
    requires TypeOf(question) == Some("scq") && Nudged(question).Mutated?
    ensures forall k :: k in Nudged(question).question && k != "options" ==>
      k in question && Nudged(question).question[k] == question[k]
    ensures Get(Nudged(question).question, "options") == Get(question, "options") ||
      WellRebuilt(Nudged(question).question["options"], Get(question, "options"))
  {
    NudgeNeverChanges(TextField(question, "question_html"));
    var items := LoopEntries(Get(question, "options")).value;
    NudgedOptionsShape(items);
  }

  /** Options rebuilt from the list `before`: one {"label", "text"}
      dictionary per dictionary entry of `before`. */
  predicate WellRebuilt(opts: Value, before: Value) {
    && opts.List? && before.List? && opts.items != []
    && |opts.items| == |DictsIn(before.items)|
    && forall o <- opts.items :: o.Dict? && o.fields.Keys == {"label", "text"}
  }

  /** What the model is sent: the question type and the question's fields. */
  function BasePayload(question: Question, qtype: string): (r: Question)
    ensures r.Keys == {"question_type", "question_html", "options", "correct_answer", "integer_answer", "solution_html"}
    ensures r["question_type"] == Str(qtype)
  {
    map[
      "question_type" := Str(qtype),
      "question_html" := TextField(question, "question_html"),
      "options" := Or(Get(question, "options"), List([])),
      "correct_answer" := Get(question, "correct_answer"),
      "integer_answer" := Get(question, "integer_answer"),
      "solution_html" := TextField(question, "solution_html")
    ]
  }

  /** The question types that are mutated. */
  predicate Mutable(question: Question) {
    TypeOf(question).Some? && TypeOf(question).value in {"scq", "integer"}
  }

  /** `{opt.get("label") for opt in mutated.get("options", []) if isinstance(opt, dict)}`;
      None where the loop raises or a label cannot go in a set (a list or a
      dictionary is unhashable). */
  function LabelsOf(q: Question): (r: Option<set<Value>>)
    ensures r.Some? && "options" in q && q["options"].List? ==>
      forall l <- r.value :: exists o <- q["options"].items :: o.Dict? && Get(o.fields, "label") == l
  {
    var v := if "options" in q then q["options"] else List([]);
    var items := match v
      case List(items) => Some(items)
      case Str(_) => Some([])
      case Dict(_) => Some([])
      case _ => None;
    match items
    case None => None
    case Some(items) =>
      if exists o <- items :: o.Dict? && (Get(o.fields, "label").List? || Get(o.fields, "label").Dict?) then None
      else Some(set o <- items | o.Dict? :: Get(o.fields, "label"))
  }

  /** The merge of a decoded reply into a copy of the question; None where a
      step raises (a reply that is not a dictionary has no `.get`). */
  function Merged(question: Question, qtype: string, data: Value): (r: Option<Question>)
    requires qtype in {"scq", "integer"}
  {
    if !data.Dict? then None
    else
      var d := data.fields;
      var q1 := question["question_html" := Or(TextField(d, "question_html"), TextField(question, "question_html"))];
      var q2 := q1["solution_html" := Or(TextField(d, "solution_html"), TextField(q1, "solution_html"))];
      if qtype == "scq" then
        match SafeOptions(Get(d, "options"))
        case OptionsRaise => None
        case NoOptions => MergeAnswer(q2, Get(d, "correct_answer"))
        case Cleaned(cs) => MergeAnswer(q2["options" := List(ChoiceValues(cs))], Get(d, "correct_answer"))
      else
        var q3 := q2["options" := List([])];
        var ia := Get(d, "integer_answer");
        if ia != Null && IntOf(ia).Some? then Some(q3["integer_answer" := Num(IntOf(ia).value)])
        else Some(q3)
  }

  /** The options of `q` hold a dictionary whose label is `l`. */
  predicate LabelAmong(q: Question, l: Value) {
    "options" in q && q["options"].List? &&
    exists o <- q["options"].items :: o.Dict? && Get(o.fields, "label") == l
  }

  /** The answer of `q` differs from `before`'s (or `before` has none). */
  predicate AnswerChanged(q: Question, before: Question) {
    "correct_answer" in q && ("correct_answer" !in before || q["correct_answer"] != before["correct_answer"])
  }

  /** The scq answer: replaced only by a stripped, non-empty label that one of
      the options carries; nothing else changes. */
  function MergeAnswer(q: Question, answer: Value): (r: Option<Question>)
    ensures r.Some? ==> forall k :: k != "correct_answer" ==>
      (k in r.value <==> k in q) && (k in q ==> r.value[k] == q[k])
    ensures r.Some? && AnswerChanged(r.value, q) ==>
      && r.value["correct_answer"].Str? && r.value["correct_answer"].s != []
      && LabelAmong(r.value, r.value["correct_answer"])
  {
    if !TextLike(answer) then None
    else
      var a := Strip(TextOr(answer));
      match LabelsOf(q)
      case None => None
      case Some(labels) =>
        if a != [] && Str(a) in labels then
          AnswerSet(q, a);
          Some(q["correct_answer" := Str(a)])
        else Some(q)
  }

  /** Setting the answer to a label that the options carry. */
  lemma AnswerSet(q: Question, a: string)
    requires LabelsOf(q).Some? && Str(a) in LabelsOf(q).value
    ensures LabelAmong(q["correct_answer" := Str(a)], Str(a))
  {
    var r := q["correct_answer" := Str(a)];
    assert r["options"] == q["options"];
  }

  /** `mutate_question(question)` given the model's reply. */
  function MutationOf(question: Question, reply: Reply<Value>): (r: Mutation)
  {
    match TypeOf(question)
    case None => Raised
    case Some(qtype) =>
      if qtype !in {"scq", "integer"} then Mutated(question, false)
      else
        match reply
        case Malformed => Mutated(question, false)
        case Crashed => Mutated(question, false)
        case Parsed(data) =>
          match Merged(question, qtype, data)
          case None => Raised
          case Some(m) =>
            if m != question then Mutated(m, true)
            else
              match Nudged(question)
              case Raised => Raised
              case Mutated(n, nudged) => if nudged then Mutated(n, true) else Mutated(m, false)
  }

  /** What mutate_question promises: other question types and failed model
      calls give the question back unchanged; the flag says exactly whether
      the question changed; an scq answer is only ever replaced by a label
      among the resulting options; a merged integer question has no options. */
  lemma MutationShape(question: Question, reply: Reply<Value>)
    ensures TypeOf(question).None? ==> MutationOf(question, reply).Raised?
    ensures MutationOf(question, reply).Raised? ==> TypeOf(question).None? || (Mutable(question) && reply.Parsed?)
    ensures !Mutable(question) && TypeOf(question).Some? ==> MutationOf(question, reply) == Mutated(question, false)
    ensures Mutable(question) && !reply.Parsed? ==> MutationOf(question, reply) == Mutated(question, false)
    ensures MutationOf(question, reply).Mutated? ==>
      (MutationOf(question, reply).changed <==> MutationOf(question, reply).question != question)
    ensures && MutationOf(question, reply).Mutated? && TypeOf(question) == Some("scq")
            && AnswerChanged(MutationOf(question, reply).question, question) ==>
      var q := MutationOf(question, reply).question;
      q["correct_answer"].Str? && q["correct_answer"].s != [] && LabelAmong(q, q["correct_answer"])
    ensures MutationOf(question, reply).Mutated? && TypeOf(question) == Some("integer") && reply.Parsed? ==>
      MutationOf(question, reply).question["options"] == List([])
  {
    NudgedUnchanged(question);
    match TypeOf(question)
    case None =>
    case Some(qtype) =>
      if qtype in {"scq", "integer"} && reply.Parsed? {
        MergedShape(question, qtype, reply.value);
      }
  }

  lemma MergedShape(question: Question, qtype: string, data: Value)
    requires qtype in {"scq", "integer"}
    ensures Merged(question, qtype, data).Some? && qtype == "integer" ==>
      Merged(question, qtype, data).value["options"] == List([])
    ensures Merged(question, qtype, data).Some? && qtype == "scq" && AnswerChanged(Merged(question, qtype, data).value, question) ==>
      var q := Merged(question, qtype, data).value;
      q["correct_answer"].Str? && q["correct_answer"].s != [] && LabelAmong(q, q["correct_answer"])
  {
    if data.Dict? && qtype == "scq" {
      var d := data.fields;
      var q1 := question["question_html" := Or(TextField(d, "question_html"), TextField(question, "question_html"))];
      var q2 := q1["solution_html" := Or(TextField(d, "solution_html"), TextField(q1, "solution_html"))];
      var q3 := match SafeOptions(Get(d, "options"))
        case Cleaned(cs) => q2["options" := List(ChoiceValues(cs))]
        case _ => q2;
      assert "correct_answer" in q3 <==> "correct_answer" in question;
      assert "correct_answer" in q3 ==> q3["correct_answer"] == question["correct_answer"];
    }
  }

  /** `_deterministic_nudge`: a copy of the question, its fields assigned
      step by step. */
  method DeterministicNudge(question: Question) returns (r: Mutation)
    ensures r == Nudged(question)
  {
    var t := TypeOf(question);
    if t.None? {
      return Raised;
    }
    if t.value == "integer" {
      r := NudgeInteger(question);
    } else if t.value == "scq" {
      r := NudgeScq(question);
    } else {
      r := Mutated(question, false);
    }
  }

  /** The integer branch of `_deterministic_nudge`. */
  method NudgeInteger(question: Question) returns (r: Mutation)
    ensures r == IntegerNudged(question)
  {
    var n := NudgeFirstNumber(TextField(question, "question_html"));
    r := ApplyIntegerNudge(question, n);
  }

  /** The field assignments of the integer branch. */
  method ApplyIntegerNudge(question: Question, n: Nudge) returns (r: Mutation)
    ensures r == IntegerNudgedBy(question, n)
  {
    var mutated := question;
    if n.changed {
      mutated := mutated["question_html" := n.text];
    }
    ghost var q1 := mutated;
    var base := Get(mutated, "integer_answer");
    if n.changed && base != Null && n.delta.Some? && IntOf(base).Some? {
      mutated := mutated["integer_answer" := Num(IntOf(base).value + n.delta.value)];
    }
    assert mutated == if n.changed && base != Null && n.delta.Some? && IntOf(base).Some? then
      q1["integer_answer" := Num(IntOf(base).value + n.delta.value)] else q1;
    r := Mutated(mutated["options" := List([])], n.changed);
  }

  /** The scq branch of `_deterministic_nudge`. */
  method NudgeScq(question: Question) returns (r: Mutation)
    ensures r == ScqNudged(question)
  {
    var mutated := question;
    var changed := false;
    var n := NudgeFirstNumber(TextField(mutated, "question_html"));
    if n.changed {
      mutated := mutated["question_html" := n.text];
      changed := true;
    }
    var entries := LoopEntries(Get(mutated, "options"));
    if entries.None? {
      return Raised;
    }
    var opts, optsChanged := NudgeOptions(entries.value);
    changed := changed || optsChanged;
    if opts != [] {
      mutated := mutated["options" := List(opts)];
    }
    return Mutated(mutated, changed);
  }

  /** The loop of `_deterministic_nudge` over the scq options. */
  method NudgeOptions(items: seq<Value>) returns (opts: seq<Value>, changed: bool)
    ensures (opts, changed) == NudgedOptions(items)
  {
    opts := [];
    changed := false;
    for i := 0 to |items|
      invariant (opts, changed) == NudgedOptions(items[..i])
    {
      assert items[..i + 1][..i] == items[..i];
      var opt := items[i];
      if opt.Dict? {
        var m := NudgeFirstNumber(TextField(opt.fields, "text"));
        if m.changed {
          changed := true;
        }
        opts := opts + [Dict(map["label" := Get(opt.fields, "label"), "text" := m.text])];
      }
    }
    assert items[..|items|] == items;
  }

  /** `mutate_question`: one question to the model for an scq or integer
      question, none otherwise; the answer is the one the reply determines. */
  method MutateQuestion(question: Question, model: Oracle<Question, Value>) returns (r: Mutation)
    modifies model
    ensures Mutable(question) ==>
      && model.asked == old(model.asked) + [BasePayload(question, TypeOf(question).value)]
      && |model.answered| == |old(model.answered)| + 1
      && r == MutationOf(question, model.answered[|model.answered| - 1])
    ensures !Mutable(question) ==>
      && model.asked == old(model.asked) && model.answered == old(model.answered)
      && r == (if TypeOf(question).None? then Raised else Mutated(question, false))
  {
    var t := TypeOf(question);
    if t.None? {
      return Raised;
    }
    var qtype := t.value;
    if qtype != "scq" && qtype != "integer" {
      return Mutated(question, false);
    }
    var reply := model.Ask(BasePayload(question, qtype));
    r := Settle(question, qtype, reply);
  }

  /** What mutate_question does with the model's reply. */
  method Settle(question: Question, qtype: string, reply: Reply<Value>) returns (r: Mutation)
    requires TypeOf(question) == Some(qtype) && qtype in {"scq", "integer"}
    ensures r == MutationOf(question, reply)
  {
    if !reply.Parsed? {
      return Mutated(question, false);
    }
    var merged := MergeReply(question, qtype, reply.value);
    if merged.None? {
      return Raised;
    }
    if merged.value != question {
      return Mutated(merged.value, true);
    }
    var nudged := DeterministicNudge(question);
    if nudged.Raised? {
      return Raised;
    }
    if nudged.changed {
      return Mutated(nudged.question, true);
    }
    return Mutated(merged.value, false);
  }

  /** The merge of the decoded reply into a copy of the question, field by field. */
  method MergeReply(question: Question, qtype: string, data: Value) returns (r: Option<Question>)
    requires qtype in {"scq", "integer"}
    ensures r == Merged(question, qtype, data)
  {
    if !data.Dict? {
      return None;
    }
    var d := data.fields;
    var mutated := question;
    mutated := mutated["question_html" := Or(TextField(d, "question_html"), TextField(mutated, "question_html"))];
    mutated := mutated["solution_html" := Or(TextField(d, "solution_html"), TextField(mutated, "solution_html"))];
    if qtype == "scq" {
      var newOpts := CleanOptions(Get(d, "options"));
      if newOpts.OptionsRaise? {
        return None;
      }
      if newOpts.Cleaned? {
        mutated := mutated["options" := List(ChoiceValues(newOpts.choices))];
      }
      r := MergeLabel(mutated, Get(d, "correct_answer"));
    } else {
      mutated := mutated["options" := List([])];
      var ia := Get(d, "integer_answer");
      if ia != Null && IntOf(ia).Some? {
        mutated := mutated["integer_answer" := Num(IntOf(ia).value)];
      }
      r := Some(mutated);
    }
  }

  /** The scq answer step of the merge. */
  method MergeLabel(q: Question, answer: Value) returns (r: Option<Question>)
    ensures r == MergeAnswer(q, answer)
  {
    if !TextLike(answer) {
      return None;
    }
    var newAnswer := Strip(TextOr(answer));
    var labels := LabelsOf(q);
    if labels.None? {
      return None;
    }
    if newAnswer != [] && Str(newAnswer) in labels.value {
      return Some(q["correct_answer" := Str(newAnswer)]);
    }
    return Some(q);
  }
}
