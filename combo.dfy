/** The combo catalog: one message that asks for several related slots at once,
    and the line-oriented parsers that read the student's three-line answer. */
module Combo {
  import opened Text
  import opened Json
  import opened Schema
  import opened Slots

  // ---------------------------------------------------------------------
  // Which spec slots are still open

  /** A combo slot is open when its value is None or a whitespace-only string;
      any other value, even [] or {}, counts as answered. */
  predicate ComboMissing(v: Value) {
    v.Null? || (v.Str? && Strip(v.s) == [])
  }

  lemma ComboMissingIff(v: Value)
    ensures ComboMissing(v) <==> v.Null? || (v.Str? && IsBlank(v.s))
  {
    if v.Str? {
      StripEmptyIffBlank(v.s);
    }
  }

  /** _missing_slots: the spec's pairs whose stored value is open, in spec order. */
  function MissingFrom(f: FilledSlots, slots: seq<(string, string)>): (r: seq<(string, string)>)
    ensures forall p :: p in r <==> p in slots && ComboMissing(SlotValue(f, p.0, p.1))
    ensures IsSubseq(r, slots)
    ensures |r| <= |slots|
  {
    if slots == [] then []
    else
      var rest := MissingFrom(f, slots[1..]);
      var p := slots[0];
      assert forall q :: q in slots <==> q == p || q in slots[1..];
      if ComboMissing(SlotValue(f, p.0, p.1)) then
        assert ([p] + rest)[1..] == rest;
        [p] + rest
      else
        SubseqCons(rest, slots);
        rest
  }

  // ---------------------------------------------------------------------
  // Categories and the forbidden pairs

  predicate HasDomain(slots: seq<(string, string)>, d: string) {
    exists p <- slots :: p.0 == d
  }

  /** The categories contributed by the slots' domains. */
  function SlotCategories(slots: seq<(string, string)>): (r: set<string>)
    ensures "distraction" in r <==> HasDomain(slots, "distractions")
    ensures "comparison" in r <==> HasDomain(slots, "social_comparison")
    ensures r <= {"distraction", "comparison"}
    decreases |slots|
  {
    if slots == [] then {}
    else
      var last := slots[|slots| - 1];
      var init := slots[..|slots| - 1];
      var r := SlotCategories(init);
      assert forall p :: p in slots <==> p in init || p == last by {
        InitLast(slots);
      }
      r
        + (if last.0 == "distractions" then {"distraction"} else {})
        + (if last.0 == "social_comparison" then {"comparison"} else {})
  }

  /** _combo_categories */
  function Categories(spec: ComboSpec): (r: set<string>)
    ensures "distraction" in r <==> HasDomain(spec.slots, "distractions")
    ensures "comparison" in r <==> HasDomain(spec.slots, "social_comparison")
    ensures "emotion" in r <==> spec.emotionProbe
    ensures r <= ComboCategories
  {
    SlotCategories(spec.slots) + (if spec.emotionProbe then {"emotion"} else {})
  }

  /** Some forbidden combination is a subset of the categories. */
  predicate Blocked(cats: set<string>) {
    exists k :: 0 <= k < |ForbiddenCombos| && ForbiddenCombos[k] <= cats
  }

  /** A spec is blocked exactly when it touches at least two of the three
      categories. */
  lemma BlockedIff(cats: set<string>)
    ensures Blocked(cats) <==>
      || ("emotion" in cats && "comparison" in cats)
      || ("comparison" in cats && "distraction" in cats)
      || ("emotion" in cats && "distraction" in cats)
  {
    if "emotion" in cats && "comparison" in cats {
      assert ForbiddenCombos[0] <= cats;
    }
    if "comparison" in cats && "distraction" in cats {
      assert ForbiddenCombos[1] <= cats;
    }
    if "emotion" in cats && "distraction" in cats {
      assert ForbiddenCombos[2] <= cats;
    }
  }

  // ---------------------------------------------------------------------
  // The question text

  // The longer texts are written as concatenations of short pieces; each piece
  // is checked for line boundaries on its own.
  const Header: string := "Quick check so " + "I can personalize" + " things:"
  const AskFriend: string := "Which friend distracts you the most (if any)?"
  const AskPerson: string := "Who do you usually compare yourself with (if you do compare)?"
  const AskGap: string := "When you compare, does the gap feel small or big?"
  const AskDetail: string := "Can you share one short detail about that?"
  const LineFriend: string := "1) Friend who " + "distracts you " + "most (or say " + "'none')"
  const LinePerson: string := "2) Person you " + "compare yourself" + " to (or say " + "'no one')"
  const LineGap: string := "3) Gap feels " + "small or big"
  const LineEmotion: string := "4) Emotion right" + " now: pressure " + "/ panic / " + "self_doubt / " + "motivation"

  const FriendSlot: (string, string) := ("distractions", "friend_name")
  const PersonSlot: (string, string) := ("social_comparison", "comparison_person")
  const GapSlot: (string, string) := ("social_comparison", "comparison_gap")

  /** The question asked when only `p` is open. */
  function SingleQuestion(p: (string, string)): (q: string)
    ensures q in {AskFriend, AskPerson, AskGap, AskDetail}
  {
    if p == FriendSlot then AskFriend
    else if p == PersonSlot then AskPerson
    else if p == GapSlot then AskGap
    else AskDetail
  }

  /** The prompt line for `p` when several slots are open. */
  function PromptLine(p: (string, string)): (l: string)
    ensures p !in {FriendSlot, PersonSlot, GapSlot} ==> l == "- " + p.0 + "." + p.1
  {
    if p == FriendSlot then LineFriend
    else if p == PersonSlot then LinePerson
    else if p == GapSlot then LineGap
    else "- " + p.0 + "." + p.1
  }

  function PromptLines(m: seq<(string, string)>): (ls: seq<string>)
    ensures |ls| == |m| && forall k :: 0 <= k < |m| ==> ls[k] == PromptLine(m[k])
  {
    seq(|m|, k requires 0 <= k < |m| => PromptLine(m[k]))
  }

  /** The emotion line, present only when the spec probes emotion. */
  function EmotionLines(spec: ComboSpec): seq<string> {
    if spec.emotionProbe then [LineEmotion] else []
  }

  /** generate_combo_question once the spec has been looked up. */
  function GenerateFor(spec: ComboSpec, f: FilledSlots): (r: Option<string>)
    ensures r.Some? ==> !Blocked(Categories(spec))
  {
    if Blocked(Categories(spec)) then None
    else
      var m := MissingFrom(f, spec.slots);
      if m == [] then None
      else if |m| == 1 then Some(SingleQuestion(m[0]))
      else Some(Prompt(spec, m))
  }

  /** The message asking for several open slots `m` at once. */
  function Prompt(spec: ComboSpec, m: seq<(string, string)>): string {
    Header + "\n" + Join(PromptLines(m) + EmotionLines(spec), "\n")
  }

  /** generate_combo_question */
  function GenerateComboQuestion(key: string, f: FilledSlots): (r: Option<string>)
    ensures key !in KeysOf(ComboSpecs) ==> r == None
  {
    match Find(ComboSpecs, key)
    case None => None
    case Some(spec) => GenerateFor(spec, f)
  }

  /** No question exactly when the spec is blocked or none of its slots is open. */
  lemma NoneIff(spec: ComboSpec, f: FilledSlots)
    ensures GenerateFor(spec, f).None? <==>
      Blocked(Categories(spec)) || forall p <- spec.slots :: !ComboMissing(SlotValue(f, p.0, p.1))
  {
    var m := MissingFrom(f, spec.slots);
    if m != [] {
      assert m[0] in m;
    }
  }

  /** With one open slot the question is one of the four single questions. */
  lemma SingleMissing(spec: ComboSpec, f: FilledSlots)
    requires !Blocked(Categories(spec)) && |MissingFrom(f, spec.slots)| == 1
    ensures GenerateFor(spec, f).Some?
    ensures GenerateFor(spec, f).value in {AskFriend, AskPerson, AskGap, AskDetail}
  {
  }

  lemma NoBreakConcat(a: string, b: string)
    requires NoBreak(a) && NoBreak(b)
    ensures NoBreak(a + b)
  {
    assert forall i :: |a| <= i < |a + b| ==> (a + b)[i] == b[i - |a|];
  }

  lemma NoBreak3(a: string, b: string, c: string)
    requires NoBreak(a) && NoBreak(b) && NoBreak(c)
    ensures NoBreak(a + b + c)
  {
    NoBreakConcat(a, b);
    NoBreakConcat(a + b, c);
  }

  lemma NoBreak4(a: string, b: string, c: string, d: string)
    requires NoBreak(a) && NoBreak(b) && NoBreak(c) && NoBreak(d)
    ensures NoBreak(a + b + c + d)
  {
    NoBreak3(a, b, c);
    NoBreakConcat(a + b + c, d);
  }

  lemma HeaderNoBreak()
    ensures NoBreak(Header)
  {
    assert NoBreak("Quick check so ");
    assert NoBreak("I can personalize");
    assert NoBreak(" things:");
    NoBreak3("Quick check so ", "I can personalize", " things:");
  }

  lemma LineFriendNoBreak()
    ensures NoBreak(LineFriend)
  {
    assert NoBreak("1) Friend who ");
    assert NoBreak("distracts you ");
    assert NoBreak("most (or say ");
    assert NoBreak("'none')");
    NoBreak4("1) Friend who ", "distracts you ", "most (or say ", "'none')");
  }

  lemma LinePersonNoBreak()
    ensures NoBreak(LinePerson)
  {
    assert NoBreak("2) Person you ");
    assert NoBreak("compare yourself");
    assert NoBreak(" to (or say ");
    assert NoBreak("'no one')");
    NoBreak4("2) Person you ", "compare yourself", " to (or say ", "'no one')");
  }

  lemma LineGapNoBreak()
    ensures NoBreak(LineGap)
  {
    assert NoBreak("3) Gap feels ");
    assert NoBreak("small or big");
    NoBreakConcat("3) Gap feels ", "small or big");
  }

  lemma LineEmotionNoBreak()
    ensures NoBreak(LineEmotion)
  {
    assert NoBreak("4) Emotion right");
    assert NoBreak(" now: pressure ");
    assert NoBreak("/ panic / ");
    assert NoBreak("self_doubt / ");
    assert NoBreak("motivation");
    NoBreak4("4) Emotion right", " now: pressure ", "/ panic / ", "self_doubt / ");
    NoBreakConcat("4) Emotion right" + " now: pressure " + "/ panic / " + "self_doubt / ", "motivation");
  }

  lemma PromptLineNoBreak(p: (string, string))
    requires NoBreak(p.0) && NoBreak(p.1)
    ensures NoBreak(PromptLine(p))
  {
    if p == FriendSlot {
      LineFriendNoBreak();
    } else if p == PersonSlot {
      LinePersonNoBreak();
    } else if p == GapSlot {
      LineGapNoBreak();
    } else {
      NoBreakConcat("- ", p.0);
      NoBreakConcat("- " + p.0, ".");
      NoBreakConcat("- " + p.0 + ".", p.1);
    }
  }

  /** Prompt lines hold no line boundary when the slot names hold none. */
  lemma PromptLinesNoBreak(m: seq<(string, string)>)
    requires forall p <- m :: NoBreak(p.0) && NoBreak(p.1)
    ensures forall l <- PromptLines(m) :: NoBreak(l)
  {
    forall k | 0 <= k < |m| ensures NoBreak(PromptLines(m)[k]) {
      assert m[k] in m;
      PromptLineNoBreak(m[k]);
    }
  }

  /** With several open slots the question is the header line, then one prompt
      line per open slot in spec order, then the emotion line when the spec
      probes emotion. */
  lemma MultiLines(spec: ComboSpec, f: FilledSlots)
    requires !Blocked(Categories(spec)) && |MissingFrom(f, spec.slots)| >= 2
    requires forall p <- spec.slots :: NoBreak(p.0) && NoBreak(p.1)
    ensures GenerateFor(spec, f).Some?
    ensures SplitLines(GenerateFor(spec, f).value)
         == [Header] + PromptLines(MissingFrom(f, spec.slots)) + EmotionLines(spec)
  {
    var m := MissingFrom(f, spec.slots);
    assert forall p <- m :: NoBreak(p.0) && NoBreak(p.1);
    assert GenerateFor(spec, f) == Some(Prompt(spec, m));
    PromptSplit(spec, m);
  }

  lemma PromptSplit(spec: ComboSpec, m: seq<(string, string)>)
    requires m != [] && forall p <- m :: NoBreak(p.0) && NoBreak(p.1)
    ensures SplitLines(Prompt(spec, m)) == [Header] + PromptLines(m) + EmotionLines(spec)
  {
    PromptLinesNoBreak(m);
    HeaderNoBreak();
    LineEmotionNoBreak();
    HeadedLines(Header, PromptLines(m), EmotionLines(spec));
  }

  /** A header line followed by further lines, split back into lines. */
  lemma HeadedLines(h: string, a: seq<string>, b: seq<string>)
    requires a != [] && NoBreak(h) && (forall l <- a :: NoBreak(l)) && (forall l <- b :: NoBreak(l))
    ensures SplitLines(h + "\n" + Join(a + b, "\n")) == [h] + a + b
  {
    var ls := [h] + (a + b);
    JoinCons(h, a + b, "\n");
    assert forall l <- ls :: NoBreak(l);
    SplitLinesOfJoin(ls);
    assert ls == [h] + a + b;
  }

  // ---------------------------------------------------------------------
  // The shipped specs

  /** friend_compare_emotion touches all three categories, so it is blocked and
      never yields a question, whatever the stored slots. */
  lemma FriendCompareNeverOffered(f: FilledSlots)
    ensures GenerateComboQuestion("friend_compare_emotion", f) == None
  {
    assert FriendCompareEmotion.slots[0].0 == "distractions";
    assert FriendCompareEmotion.slots[1].0 == "social_comparison";
    var cats := Categories(FriendCompareEmotion);
    assert "distraction" in cats;
    BlockedIff(cats);
    FindEntry(ComboSpecs, 0);
    ComboSpecKeys();
  }

  /** distraction_time_combo touches only the distraction category. */
  lemma DistractionTimeNeverBlocked()
    ensures Categories(DistractionTimeCombo) == {"distraction"}
    ensures !Blocked(Categories(DistractionTimeCombo))
  {
    var ps := DistractionTimeCombo.slots;
    assert ps[0].0 == "distractions";
    assert forall p <- ps :: p.0 != "social_comparison";
    BlockedIff(Categories(DistractionTimeCombo));
  }

  /** distraction_time_combo yields a question exactly when one of its three
      slots is open. */
  lemma DistractionTimeOffered(f: FilledSlots)
    ensures GenerateComboQuestion("distraction_time_combo", f).Some? <==>
      exists p <- DistractionTimeCombo.slots :: ComboMissing(SlotValue(f, p.0, p.1))
  {
    ComboSpecKeys();
    FindEntry(ComboSpecs, 1);
    DistractionTimeNeverBlocked();
    NoneIff(DistractionTimeCombo, f);
  }

  // ---------------------------------------------------------------------
  // Answer parsing

  const AllowedEmotions: set<string> := {"pressure", "panic", "self_doubt", "motivation"}

  /** normalize_gap: "big gap" or "small gap" when the text says so, otherwise
      the lowercased, stripped text cut to 30 characters. */
  function NormalizeGap(value: string): (r: string)
    ensures Contains(Lower(value), "big") ==> r == "big gap"
    ensures !Contains(Lower(value), "big") && Contains(Lower(value), "small") ==> r == "small gap"
    ensures !Contains(Lower(value), "big") && !Contains(Lower(value), "small") ==>
      r <= Strip(Lower(value)) && |r| == if |Strip(Lower(value))| < 30 then |Strip(Lower(value))| else 30
    ensures |r| <= 30 && IsLowered(r)
  {
    var lowered := Lower(value);
    LowerIsLowered(value);
    if Contains(lowered, "big") then "big gap"
    else if Contains(lowered, "small") then "small gap"
    else
      var t := Strip(lowered);
      LoweredStrip(lowered);
      LoweredSlice(t, 0, |Take(t, 30)|);
      Take(t, 30)
  }

  lemma LoweredStrip(s: string)
    requires IsLowered(s)
    ensures IsLowered(Strip(s))
  {
    var r := RStrip(s);
    LoweredSlice(s, 0, |r|);
    LoweredSlice(r, |r| - |LStrip(r)|, |r|);
  }

  /** An enumeration of a set: every member once, in some order. */
  predicate Enumerates(order: seq<string>, s: set<string>) {
    NoDup(order) && (forall e <- order :: e in s) && (forall e <- s :: e in order)
  }

  /** The first entry of `order` that occurs in `text`. */
  function FirstContained(order: seq<string>, text: string): (r: Option<string>)
    ensures r.Some? ==> r.value in order && Contains(text, r.value)
    ensures r.None? <==> forall e <- order :: !Contains(text, e)
  {
    if order == [] then None
    else if Contains(text, order[0]) then Some(order[0])
    else FirstContained(order[1..], text)
  }

  /** normalize_emotion. Python iterates the set ALLOWED_EMOTIONS in an order it
      does not specify; `order` is that iteration order. */
  function NormalizeEmotion(order: seq<string>, value: string): (r: Option<string>)
    requires Enumerates(order, AllowedEmotions)
    ensures r.Some? ==> r.value in AllowedEmotions
    ensures (exists e <- AllowedEmotions :: Contains(Lower(value), e)) ==>
      r.Some? && Contains(Lower(value), r.value)
  {
    var lowered := Lower(value);
    match FirstContained(order, lowered)
    case Some(e) => Some(e)
    case None =>
      if Contains(lowered, "anx") || Contains(lowered, "panic") then Some("panic")
      else if Contains(lowered, "doubt") || Contains(lowered, "worth") then Some("self_doubt")
      else if Contains(lowered, "pressure") || Contains(lowered, "expect") then Some("pressure")
      else if Contains(lowered, "motivat") || Contains(lowered, "hope") then Some("motivation")
      else None
  }

  /** When no allowed emotion word occurs, the cue words decide, in this order. */
  lemma EmotionCues(order: seq<string>, value: string)
    requires Enumerates(order, AllowedEmotions)
    requires forall e <- AllowedEmotions :: !Contains(Lower(value), e)
    ensures var l := Lower(value); var r := NormalizeEmotion(order, value);
      && (Contains(l, "anx") ==> r == Some("panic"))
      && (!Contains(l, "anx") && (Contains(l, "doubt") || Contains(l, "worth")) ==> r == Some("self_doubt"))
      && (!Contains(l, "anx") && !Contains(l, "doubt") && !Contains(l, "worth") && Contains(l, "expect")
          ==> r == Some("pressure"))
      && (var quiet := !Contains(l, "anx") && !Contains(l, "doubt") && !Contains(l, "worth") && !Contains(l, "expect");
          && (quiet && (Contains(l, "motivat") || Contains(l, "hope")) ==> r == Some("motivation"))
          && (quiet && !Contains(l, "motivat") && !Contains(l, "hope") ==> r == None))
  {
    assert FirstContained(order, Lower(value)).None?;
    assert "panic" in AllowedEmotions && "pressure" in AllowedEmotions;
  }

  /** A parsed combo answer: "domain.slot" keys with their values, and the
      emotion read from the answer, if any. */
  datatype ComboAnswer = ComboAnswer(slots: seq<(string, string)>, emotion: Option<string>)

  /** The "domain.slot" key under which a parser reports a slot. */
  function SlotKey(p: (string, string)): string {
    p.0 + "." + p.1
  }

  function SlotKeys(ps: seq<(string, string)>): (ks: seq<string>)
    ensures |ks| == |ps| && forall k :: 0 <= k < |ps| ==> ks[k] == SlotKey(ps[k])
  {
    seq(|ps|, k requires 0 <= k < |ps| => SlotKey(ps[k]))
  }

  /** key.split(".", 1) recovers the pair when the domain holds no ".". */
  lemma SplitSlotKey(p: (string, string))
    requires '.' !in p.0
    ensures IndexOf(SlotKey(p), '.') == |p.0|
    ensures SlotKey(p)[..|p.0|] == p.0 && SlotKey(p)[|p.0| + 1..] == p.1
  {
    var k := SlotKey(p);
    assert forall i :: 0 <= i < |p.0| ==> k[i] == p.0[i];
    assert k[|p.0|] == '.';
    IndexOfFirst(k, '.', |p.0|);
  }

  lemma IndexOfFirst(s: string, c: char, n: nat)
    requires n < |s| && s[n] == c && forall i :: 0 <= i < n ==> s[i] != c
    ensures IndexOf(s, c) == n
    decreases n
  {
    if n > 0 {
      IndexOfFirst(s[1..], c, n - 1);
    }
  }

  const FriendKey: string := "distractions.friend_name"
  const PersonKey: string := "social_comparison.comparison_person"
  const GapKey: string := "social_comparison.comparison_gap"
  const GamingAppKey: string := "distractions.gaming_app"
  const GamingTimeKey: string := "distractions.gaming_time"
  const BreakerKey: string := "time_pressure.timetable_breaker"

  const FriendCompareKeys: seq<string> := [FriendKey, PersonKey, GapKey]
  const DistractionTimeKeys: seq<string> := [GamingAppKey, GamingTimeKey, BreakerKey]

  /** The three "key: value" entries of a parsed answer, keys in order. */
  function Entries(keys: seq<string>, a: string, b: string, c: string): (es: seq<(string, string)>)
    requires |keys| == 3
    ensures KeysOf(es) == keys
    ensures |es| == 3 && es[0].1 == a && es[1].1 == b && es[2].1 == c
  {
    [(keys[0], a), (keys[1], b), (keys[2], c)]
  }

  /** parse_friend_compare_emotion */
  function ParseFriendCompareEmotion(order: seq<string>, text: string): (r: Option<ComboAnswer>)
    requires Enumerates(order, AllowedEmotions)
    ensures var lines := NonBlankSplitLines(text);
      r.None? <==>
        || |lines| < 3
        || '|' !in lines[1]
        || NormalizeEmotion(order, lines[2]).None?
    ensures r.Some? ==> KeysOf(r.value.slots) == FriendCompareKeys
    ensures r.Some? ==> r.value.emotion.Some? && r.value.emotion.value in AllowedEmotions
    ensures r.Some? ==> |r.value.slots| == 3
    ensures r.Some? ==> |r.value.slots[0].1| <= 50 && |r.value.slots[1].1| <= 50 && |r.value.slots[2].1| <= 30
  {
    FriendLines(order, NonBlankSplitLines(text))
  }

  /** The parser once the text is split into its non-blank lines. */
  function FriendLines(order: seq<string>, lines: seq<string>): (r: Option<ComboAnswer>)
    requires Enumerates(order, AllowedEmotions)
    ensures r.None? <==>
        || |lines| < 3
        || '|' !in lines[1]
        || NormalizeEmotion(order, lines[2]).None?
    ensures r.Some? ==> KeysOf(r.value.slots) == FriendCompareKeys
    ensures r.Some? ==> r.value.emotion.Some? && r.value.emotion.value in AllowedEmotions
    ensures r.Some? ==> |r.value.slots| == 3
    ensures r.Some? ==> |r.value.slots[0].1| <= 50 && |r.value.slots[1].1| <= 50 && |r.value.slots[2].1| <= 30
  {
    if |lines| < 3 then None
    else
      var friend := Take(lines[0], 50);
      var bar := IndexOf(lines[1], '|');
      if bar == |lines[1]| then None
      else
        var person := Take(Strip(lines[1][..bar]), 50);
        var gap := NormalizeGap(Strip(lines[1][bar + 1..]));
        var emotion := NormalizeEmotion(order, lines[2]);
        if emotion.None? then None
        else Some(ComboAnswer(Entries(FriendCompareKeys, friend, person, gap), emotion))
  }

  /** What the parser reads out of three lines: the friend cut to 50, the
      trimmed text before the first "|" cut to 50, the gap normalised from the
      trimmed rest, and the emotion of the third line; later lines are ignored. */
  lemma FriendCompareFields(order: seq<string>, friend: string, left: string, right: string,
                            emotionLine: string, more: seq<string>)
    requires Enumerates(order, AllowedEmotions)
    requires '|' !in left
    requires var ls := [friend, left + "|" + right, emotionLine] + more;
      forall p <- ls :: Trimmed(p) && NoBreak(p)
    requires NormalizeEmotion(order, emotionLine).Some?
    ensures ParseFriendCompareEmotion(order, Join([friend, left + "|" + right, emotionLine] + more, "\n"))
         == Some(ComboAnswer(
              Entries(FriendCompareKeys, Take(friend, 50), Take(Strip(left), 50), NormalizeGap(Strip(right))),
              NormalizeEmotion(order, emotionLine)))
  {
    var mid := left + "|" + right;
    ThreeLines(friend, mid, emotionLine, more);
    FriendLinesFields(order, NonBlankSplitLines(Join([friend, mid, emotionLine] + more, "\n")), left, right);
  }

  lemma FriendLinesFields(order: seq<string>, lines: seq<string>, left: string, right: string)
    requires Enumerates(order, AllowedEmotions)
    requires '|' !in left
    requires |lines| >= 3 && lines[1] == left + "|" + right
    requires NormalizeEmotion(order, lines[2]).Some?
    ensures FriendLines(order, lines)
         == Some(ComboAnswer(
              Entries(FriendCompareKeys, Take(lines[0], 50), Take(Strip(left), 50), NormalizeGap(Strip(right))),
              NormalizeEmotion(order, lines[2])))
  {
    SplitAtBar(left, right);
  }

  lemma ThreeLines(a: string, b: string, c: string, more: seq<string>)
    requires forall p <- [a, b, c] + more :: Trimmed(p) && NoBreak(p)
    ensures var lines := NonBlankSplitLines(Join([a, b, c] + more, "\n"));
      |lines| >= 3 && lines[0] == a && lines[1] == b && lines[2] == c
  {
    NonBlankSplitLinesOfJoin([a, b, c] + more);
  }

  /** split("|", 1) of a text whose first "|" follows `left`. */
  lemma SplitAtBar(left: string, right: string)
    requires '|' !in left
    ensures var mid := left + "|" + right;
      && IndexOf(mid, '|') == |left|
      && mid[..|left|] == left
      && mid[|left| + 1..] == right
  {
    var mid := left + "|" + right;
    assert forall i :: 0 <= i < |left| ==> mid[i] == left[i];
    IndexOfFirst(mid, '|', |left|);
    assert mid[..|left|] == left;
    assert mid[|left| + 1..] == right;
  }

  lemma RStripTrailingSpace(s: string, c: char)
    requires IsSpace(c)
    ensures RStrip(s + [c]) == RStrip(s)
  {
    assert (s + [c])[..|s|] == s;
  }

  lemma LStripLeadingSpace(c: char, s: string)
    requires IsSpace(c)
    ensures LStrip([c] + s) == LStrip(s)
  {
    assert ([c] + s)[1..] == s;
  }

  lemma ExampleMiddle()
    ensures "Amit | big" == ("Amit" + " ") + "|" + (" " + "big")
    ensures NoBreak("Amit | big") && Trimmed("Amit | big")
  {
  }

  lemma ExampleOuter()
    ensures NoBreak("Raj") && Trimmed("Raj") && NoBreak("panic") && Trimmed("panic")
  {
  }

  lemma ExamplePerson()
    ensures Strip("Amit" + " ") == "Amit"
  {
    RStripTrailingSpace("Amit", ' ');
    AmitTrimmed();
    StripOfStripped("Amit");
  }

  lemma AmitTrimmed() ensures Trimmed("Amit") {}
  lemma NoBarInLeft() ensures '|' !in "Amit" + " " {}
  lemma BigTrimmed() ensures Trimmed("big") {}
  lemma BigLowered() ensures IsLowered("big") {}
  lemma BigHasBig() ensures Contains("big", "big") { ContainsWitness("big", 0, "big"); }

  /** A lower-case word naming the big gap, after one leading space. */
  lemma GapAfterSpace(w: string)
    requires Trimmed(w) && IsLowered(w) && Contains(w, "big")
    ensures NormalizeGap(Strip(" " + w)) == "big gap"
  {
    assert RStrip(" " + w) == " " + w;
    LStripLeadingSpace(' ', w);
    StripOfStripped(w);
    LowerOfLowered(w);
  }

  lemma ExampleGap()
    ensures NormalizeGap(Strip(" " + "big")) == "big gap"
  {
    BigTrimmed();
    BigLowered();
    BigHasBig();
    GapAfterSpace("big");
  }

  /** "panic" names one allowed emotion and holds no other, whatever the
      iteration order. */
  lemma ExampleEmotion(order: seq<string>)
    requires Enumerates(order, AllowedEmotions)
    ensures NormalizeEmotion(order, "panic") == Some("panic")
  {
    assert Lower("panic") == "panic";
    assert At("panic", 0, "panic");
  }

  lemma ThreeShaped(a: string, b: string, c: string)
    requires Trimmed(a) && NoBreak(a) && Trimmed(b) && NoBreak(b) && Trimmed(c) && NoBreak(c)
    ensures forall p <- [a, b, c] + [] :: Trimmed(p) && NoBreak(p)
  {
    assert [a, b, c] + [] == [a, b, c];
  }

  /** The worked example: the answer "Raj", "Amit | big", "panic" on three lines. */
  lemma FriendCompareExample(order: seq<string>)
    requires Enumerates(order, AllowedEmotions)
    ensures ParseFriendCompareEmotion(order, Join(["Raj", "Amit | big", "panic"], "\n"))
         == Some(ComboAnswer(Entries(FriendCompareKeys, "Raj", "Amit", "big gap"), Some("panic")))
  {
    ExampleMiddle();
    ExampleOuter();
    ExamplePerson();
    ExampleGap();
    ExampleEmotion(order);
    assert ["Raj", "Amit | big", "panic"] == ["Raj", ("Amit" + " ") + "|" + (" " + "big"), "panic"] + [];
    ThreeShaped("Raj", ("Amit" + " ") + "|" + (" " + "big"), "panic");
    NoBarInLeft();
    FriendCompareFields(order, "Raj", "Amit" + " ", " " + "big", "panic", []);
  }

  /** parse_distraction_time_combo */
  function ParseDistractionTime(text: string): (r: Option<ComboAnswer>)
    ensures r.None? <==> |NonBlankSplitLines(text)| < 3
    ensures r.Some? ==> KeysOf(r.value.slots) == DistractionTimeKeys
    ensures r.Some? ==> r.value.emotion.None?
    ensures r.Some? ==> |r.value.slots| == 3
    ensures r.Some? ==> |r.value.slots[0].1| <= 80 && |r.value.slots[1].1| <= 80 && |r.value.slots[2].1| <= 80
  {
    var lines := NonBlankSplitLines(text);
    if |lines| < 3 then None
    else
      Some(ComboAnswer(Entries(DistractionTimeKeys, Take(lines[0], 80), Take(lines[1], 80), Take(lines[2], 80)), None))
  }

  /** The three values are the first three non-blank lines, trimmed and cut to
      80 characters; later lines are ignored. */
  lemma DistractionTimeFields(a: string, b: string, c: string, more: seq<string>)
    requires forall p <- [a, b, c] + more :: Trimmed(p) && NoBreak(p)
    ensures ParseDistractionTime(Join([a, b, c] + more, "\n"))
         == Some(ComboAnswer(Entries(DistractionTimeKeys, Take(a, 80), Take(b, 80), Take(c, 80)), None))
  {
    ThreeLines(a, b, c, more);
  }

  /** The parser table PARSERS. */
  datatype Parser = FriendCompareParser | DistractionTimeParser

  const Parsers: seq<(string, Parser)> := [
    ("friend_compare_emotion", FriendCompareParser),
    ("distraction_time_combo", DistractionTimeParser)
  ]

  function RunParser(parser: Parser, order: seq<string>, text: string): (r: Option<ComboAnswer>)
    requires Enumerates(order, AllowedEmotions)
    ensures r.Some? ==> |r.value.slots| == 3
  {
    match parser
    case FriendCompareParser => ParseFriendCompareEmotion(order, text)
    case DistractionTimeParser => ParseDistractionTime(text)
  }

  lemma FriendKeyIs() ensures SlotKey(FriendSlot) == FriendKey {}
  lemma PersonKeyIs() ensures SlotKey(PersonSlot) == PersonKey {}
  lemma GapKeyIs() ensures SlotKey(GapSlot) == GapKey {}
  lemma GamingAppKeyIs() ensures SlotKey(("distractions", "gaming_app")) == GamingAppKey {}
  lemma GamingTimeKeyIs() ensures SlotKey(("distractions", "gaming_time")) == GamingTimeKey {}
  lemma BreakerKeyIs() ensures SlotKey(("time_pressure", "timetable_breaker")) == BreakerKey {}

  lemma FriendCompareKeysMatch()
    ensures SlotKeys(FriendCompareEmotion.slots) == FriendCompareKeys
  {
    var ps := FriendCompareEmotion.slots;
    assert ps == [FriendSlot, PersonSlot, GapSlot];
    FriendKeyIs();
    PersonKeyIs();
    GapKeyIs();
  }

  lemma DistractionTimeKeysMatch()
    ensures SlotKeys(DistractionTimeCombo.slots) == DistractionTimeKeys
  {
    var ps := DistractionTimeCombo.slots;
    assert ps == [("distractions", "gaming_app"), ("distractions", "gaming_time"), ("time_pressure", "timetable_breaker")];
    GamingAppKeyIs();
    GamingTimeKeyIs();
    BreakerKeyIs();
  }

  /** PARSERS covers exactly the combo specs, and each parser reports the
      "domain.slot" keys of its spec's slots, in order. */
  lemma ParsersMatchSpecs(order: seq<string>, text: string)
    requires Enumerates(order, AllowedEmotions)
    ensures KeysOf(Parsers) == KeysOf(ComboSpecs)
    ensures forall k :: 0 <= k < |Parsers| ==>
      var r := RunParser(Parsers[k].1, order, text);
      r.Some? ==> KeysOf(r.value.slots) == SlotKeys(ComboSpecs[k].1.slots)
  {
    ComboSpecKeys();
    FriendCompareKeysMatch();
    DistractionTimeKeysMatch();
  }
}
