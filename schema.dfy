/** The static tables of the interview: the slot schema and the domain priority
    order, the generic per-domain slots, the canned question of every slot and the
    combo question specifications. Python dictionaries are kept as sequences of
    (key, value) pairs in their literal order, so "the keys in order" and "look a
    key up" are both available; `Find` is `dict.get`. */
module Schema {
  import opened Text

  // ---------------------------------------------------------------------
  // Ordered dictionaries

  function KeysOf<V>(t: seq<(string, V)>): (ks: seq<string>)
    ensures |ks| == |t| && forall k :: 0 <= k < |t| ==> ks[k] == t[k].0
  {
    seq(|t|, k requires 0 <= k < |t| => t[k].0)
  }

  /** dict.get(key): the value of the first entry with that key. */
  function Find<V>(t: seq<(string, V)>, key: string): (r: Option<V>)
    ensures r.None? <==> key !in KeysOf(t)
    ensures r.Some? ==> exists k :: 0 <= k < |t| && t[k].0 == key && t[k].1 == r.value
  {
    if t == [] then None else if t[0].0 == key then Some(t[0].1) else Find(t[1..], key)
  }

  /** With distinct keys, the entry at index k is what a lookup of its key finds. */
  lemma {:induction false} FindEntry<V>(t: seq<(string, V)>, k: int)
    requires NoDup(KeysOf(t)) && 0 <= k < |t|
    ensures Find(t, t[k].0) == Some(t[k].1)
  {
    if k > 0 {
      assert KeysOf(t)[0] != KeysOf(t)[k];
      assert NoDup(KeysOf(t[1..])) by {
        forall a, b | 0 <= a < b < |t| - 1 ensures KeysOf(t[1..])[a] != KeysOf(t[1..])[b] {
          assert KeysOf(t)[a + 1] != KeysOf(t)[b + 1];
        }
      }
      FindEntry(t[1..], k - 1);
    }
  }

  // ---------------------------------------------------------------------
  // SLOT_SCHEMA and PRIORITY_ORDER

  const SlotSchema: seq<(string, seq<string>)> := [
    ("distractions", ["phone_app", "app_activity", "reel_type", "friend_name", "gaming_app", "gaming_time"]),
    ("academic_confidence", ["weak_subject", "favorite_subject", "concept_confidence", "last_test_experience"]),
    ("time_pressure", ["exam_time_left", "study_hours_per_day", "timetable_breaker"]),
    ("social_comparison", ["comparison_person", "comparison_gap"]),
    ("family_pressure", ["family_member", "expectation_type"]),
    ("motivation", ["motivation_reason", "demotivation_reason"]),
    ("backlog_stress", ["backlog_subject", "backlog_deadline"])
  ]

  const PriorityOrder: seq<string> := [
    "time_pressure", "academic_confidence", "distractions", "backlog_stress",
    "family_pressure", "social_comparison", "motivation"
  ]

  const SchemaDomains: seq<string> := [
    "distractions", "academic_confidence", "time_pressure", "social_comparison",
    "family_pressure", "motivation", "backlog_stress"
  ]

  /** `domain in SLOT_SCHEMA` */
  predicate IsDomain(d: string) {
    d in KeysOf(SlotSchema)
  }

  /** `table.get(key, [])` on a table whose values are lists. */
  function ListOf(table: seq<(string, seq<string>)>, key: string): (r: seq<string>)
    ensures key !in KeysOf(table) ==> r == []
  {
    match Find(table, key)
    case Some(slots) => slots
    case None => []
  }

  /** SLOT_SCHEMA.get(domain, []) */
  function SlotsOf(d: string): (r: seq<string>)
    ensures !IsDomain(d) ==> r == []
  {
    ListOf(SlotSchema, d)
  }

  /** `slot in SLOT_SCHEMA[d] for some d` */
  predicate IsSchemaSlot(s: string) {
    exists k :: 0 <= k < |SlotSchema| && s in SlotSchema[k].1
  }

  function Flatten(t: seq<(string, seq<string>)>): (r: seq<string>)
    ensures forall s :: s in r <==> exists k :: 0 <= k < |t| && s in t[k].1
  {
    if t == [] then []
    else
      var r := t[0].1 + Flatten(t[1..]);
      assert forall s :: s in Flatten(t[1..]) <==> exists k :: 1 <= k < |t| && s in t[k].1 by {
        forall s | s in Flatten(t[1..]) ensures exists k :: 1 <= k < |t| && s in t[k].1 {
          var k :| 0 <= k < |t[1..]| && s in t[1..][k].1;
          assert s in t[k + 1].1;
        }
        forall s | (exists k :: 1 <= k < |t| && s in t[k].1) ensures s in Flatten(t[1..]) {
          var k :| 1 <= k < |t| && s in t[k].1;
          assert s in t[1..][k - 1].1;
        }
      }
      r
  }

  /** The 21 schema slots in schema order, in three groups so that their
      distinctness can be checked group by group. */
  const AllSchemaSlots: seq<string> := SlotGroup1 + SlotGroup2 + SlotGroup3

  const SlotGroup1: seq<string> := [
    "phone_app", "app_activity", "reel_type", "friend_name", "gaming_app", "gaming_time",
    "weak_subject"
  ]
  const SlotGroup2: seq<string> := [
    "favorite_subject", "concept_confidence", "last_test_experience",
    "exam_time_left", "study_hours_per_day", "timetable_breaker", "comparison_person"
  ]
  const SlotGroup3: seq<string> := [
    "comparison_gap", "family_member", "expectation_type",
    "motivation_reason", "demotivation_reason", "backlog_subject", "backlog_deadline"
  ]

  /** The schema has exactly the seven domains, in this order, without repeats;
      "demotivation" is not one of them. */
  lemma SchemaDomainsExact()
    ensures KeysOf(SlotSchema) == SchemaDomains
    ensures NoDup(SchemaDomains)
    ensures forall d :: IsDomain(d) <==> d in SchemaDomains
    ensures !IsDomain("demotivation")
  {
    assert KeysOf(SlotSchema) == SchemaDomains;
  }

  /** PRIORITY_ORDER is a permutation of the schema's domains. */
  lemma PriorityOrderIsPermutation()
    ensures NoDup(PriorityOrder)
    ensures |PriorityOrder| == |SchemaDomains|
    ensures forall d :: d in PriorityOrder <==> IsDomain(d)
  {
    SchemaDomainsExact();
    assert forall d :: d in PriorityOrder <==> d in SchemaDomains;
  }

  /** Every slot list is non-empty and duplicate-free, and no slot name belongs to
      two domains, so a bare slot name identifies its domain. */
  lemma SlotListsWellFormed()
    ensures forall k :: 0 <= k < |SlotSchema| ==> SlotSchema[k].1 != [] && NoDup(SlotSchema[k].1)
    ensures Flatten(SlotSchema) == AllSchemaSlots && NoDup(AllSchemaSlots)
    ensures forall i, j, s :: 0 <= i < j < |SlotSchema| && s in SlotSchema[i].1 ==> s !in SlotSchema[j].1
  {
    FlattenSchema();
    AllSchemaSlotsDistinct();
    FlattenDisjoint(SlotSchema);
  }

  lemma FlattenSchema()
    ensures Flatten(SlotSchema) == AllSchemaSlots
  {
    assert Flatten(SlotSchema) == AllSchemaSlots;
  }

  lemma AllSchemaSlotsDistinct()
    ensures NoDup(AllSchemaSlots)
  {
    GroupsDistinct();
    GroupsDisjoint();
    NoDupAppend(SlotGroup1, SlotGroup2);
    NoDupAppend(SlotGroup1 + SlotGroup2, SlotGroup3);
  }

  lemma GroupsDistinct()
    ensures NoDup(SlotGroup1) && NoDup(SlotGroup2) && NoDup(SlotGroup3)
  {
  }

  lemma GroupsDisjoint()
    ensures forall x <- SlotGroup1 :: x !in SlotGroup2
    ensures forall x <- SlotGroup1 + SlotGroup2 :: x !in SlotGroup3
  {
    assert forall x <- SlotGroup1 :: x !in SlotGroup3;
    assert forall x <- SlotGroup2 :: x !in SlotGroup3;
  }

  /** Two duplicate-free lists with no common element append to a duplicate-free list. */
  lemma NoDupAppend(a: seq<string>, b: seq<string>)
    requires NoDup(a) && NoDup(b) && forall x <- a :: x !in b
    ensures NoDup(a + b)
  {
    forall i, j | 0 <= i < j < |a + b| ensures (a + b)[i] != (a + b)[j] {
      if j < |a| {
        assert (a + b)[i] == a[i] && (a + b)[j] == a[j];
      } else if i < |a| {
        assert (a + b)[i] == a[i] && (a + b)[j] == b[j - |a|];
        assert a[i] in a && b[j - |a|] in b;
      } else {
        assert (a + b)[i] == b[i - |a|] && (a + b)[j] == b[j - |a|];
      }
    }
  }

  /** When the flattened lists have no repeats, the lists are pairwise disjoint. */
  lemma {:induction false} FlattenDisjoint(t: seq<(string, seq<string>)>)
    requires NoDup(Flatten(t))
    ensures forall i, j, s :: 0 <= i < j < |t| && s in t[i].1 ==> s !in t[j].1
    ensures forall i :: 0 <= i < |t| ==> NoDup(t[i].1)
  {
    if t != [] {
      var f := Flatten(t);
      var h := t[0].1;
      assert f == h + Flatten(t[1..]);
      assert NoDup(Flatten(t[1..])) by {
        forall a, b | 0 <= a < b < |Flatten(t[1..])| ensures Flatten(t[1..])[a] != Flatten(t[1..])[b] {
          assert Flatten(t[1..])[a] == f[|h| + a] && Flatten(t[1..])[b] == f[|h| + b];
        }
      }
      FlattenDisjoint(t[1..]);
      var rest := Flatten(t[1..]);
      forall a, b | 0 <= a < |h| && 0 <= b < |rest| ensures h[a] != rest[b] {
        assert f[a] == h[a] && f[|h| + b] == rest[b];
      }
      forall i, j, s | 0 <= i < j < |t| && s in t[i].1 ensures s !in t[j].1 {
        assert t[1..][j - 1] == t[j];
        if i > 0 {
          assert t[1..][i - 1] == t[i];
        } else {
          var a :| 0 <= a < |h| && h[a] == s;
          assert s !in rest;
        }
      }
      forall i | 0 <= i < |t| ensures NoDup(t[i].1) {
        if i == 0 {
          forall a, b | 0 <= a < b < |h| ensures h[a] != h[b] {
            assert f[a] == h[a] && f[b] == h[b];
          }
        } else {
          assert t[1..][i - 1] == t[i];
        }
      }
    }
  }

  /** Every slot listed for a domain is a schema slot. */
  lemma SlotsOfInSchema(d: string)
    ensures forall s :: s in SlotsOf(d) ==> IsSchemaSlot(s)
  {
  }

  /** A slot name belongs to the schema exactly when it is one of the 21 listed. */
  lemma SchemaSlotsExact(s: string)
    ensures IsSchemaSlot(s) <==> s in AllSchemaSlots
  {
    SlotListsWellFormed();
  }

  // ---------------------------------------------------------------------
  // Generic per-domain questions

  const GenericDomainQuestions: seq<(string, (string, string))> := [
    ("distractions", ("general_distraction", "What do you usually do on your phone when you feel low or tired?")),
    ("academic_confidence", ("exam_feeling", "What makes the exam feel especially heavy for you right now?"))
  ]

  /** get_generic_domain_question */
  function GenericQuestion(d: string): Option<(string, string)> {
    Find(GenericDomainQuestions, d)
  }

  /** get_generic_slot_name */
  function GenericSlotName(d: string): Option<string> {
    match Find(GenericDomainQuestions, d)
    case Some(config) => Some(config.0)
    case None => None
  }

  /** Only distractions and academic_confidence have a generic question; the slot
      name is the first component of that question's pair. */
  lemma GenericLookups(d: string)
    ensures GenericQuestion(d).Some? <==> d == "distractions" || d == "academic_confidence"
    ensures GenericSlotName(d) == (if GenericQuestion(d).Some? then Some(GenericQuestion(d).value.0) else None)
    ensures d == "distractions" ==> GenericSlotName(d) == Some("general_distraction")
    ensures d == "academic_confidence" ==> GenericSlotName(d) == Some("exam_feeling")
  {
    assert KeysOf(GenericDomainQuestions) == ["distractions", "academic_confidence"];
  }

  /** A generic slot is never a schema slot, so it never counts as missing. */
  lemma GenericSlotsOutsideSchema(d: string)
    requires GenericSlotName(d).Some?
    ensures GenericSlotName(d).value !in SlotsOf(d)
    ensures !IsSchemaSlot(GenericSlotName(d).value)
  {
    GenericLookups(d);
    var g := GenericSlotName(d).value;
    assert g == "general_distraction" || g == "exam_feeling";
    GenericNamesNotListed();
    SchemaSlotsExact(g);
    SlotsOfInSchema(d);
  }

  lemma GenericNamesNotListed()
    ensures "general_distraction" !in AllSchemaSlots
    ensures "exam_feeling" !in AllSchemaSlots
  {
  }

  // ---------------------------------------------------------------------
  // Canned questions

  /** The canned question of each slot. */
  const AskPhoneApp: string := "Which app distracts you most while studying?"
  const AskAppActivity: string := "What do you usually do on that app?"
  const AskReelType: string := "What kind of reels do you watch most?"
  const AskFriendName: string := "Which friend distracts you most?"
  const AskGamingApp: string := "Which game do you play most?"
  const AskGamingTime: string := "When do you usually play games?"
  const AskWeakSubject: string := "Which subject troubles you most?"
  const AskFavoriteSubject: string := "Which subject do you enjoy most?"
  const AskConceptConfidence: string := "How confident are you with core concepts?"
  const AskLastTestExperience: string := "How was your last test experience?"
  const AskExamTimeLeft: string := "How much time is left for your exam?"
  const AskStudyHoursPerDay: string := "How many hours do you study daily?"
  const AskTimetableBreaker: string := "What breaks your study timetable most?"
  const AskComparisonPerson: string := "Who do you compare yourself with most?"
  const AskComparisonGap: string := "Is the gap between you and them big?"
  const AskFamilyMember: string := "Which family member pressures you most?"
  const AskExpectationType: string := "What do they expect most from you?"
  const AskMotivationReason: string := "What motivates you to study?"
  const AskDemotivationReason: string := "What demotivates you the most?"
  const AskBacklogSubject: string := "Which subject backlog worries you most?"
  const AskBacklogDeadline: string := "When is the next exam for that backlog?"

  const FallbackQuestions: seq<(string, seq<(string, string)>)> := [
    ("distractions", [
      ("phone_app", AskPhoneApp),
      ("app_activity", AskAppActivity),
      ("reel_type", AskReelType),
      ("friend_name", AskFriendName),
      ("gaming_app", AskGamingApp),
      ("gaming_time", AskGamingTime)]),
    ("academic_confidence", [
      ("weak_subject", AskWeakSubject),
      ("favorite_subject", AskFavoriteSubject),
      ("concept_confidence", AskConceptConfidence),
      ("last_test_experience", AskLastTestExperience)]),
    ("time_pressure", [
      ("exam_time_left", AskExamTimeLeft),
      ("study_hours_per_day", AskStudyHoursPerDay),
      ("timetable_breaker", AskTimetableBreaker)]),
    ("social_comparison", [
      ("comparison_person", AskComparisonPerson),
      ("comparison_gap", AskComparisonGap)]),
    ("family_pressure", [
      ("family_member", AskFamilyMember),
      ("expectation_type", AskExpectationType)]),
    ("motivation", [
      ("motivation_reason", AskMotivationReason),
      ("demotivation_reason", AskDemotivationReason)]),
    ("backlog_stress", [
      ("backlog_subject", AskBacklogSubject),
      ("backlog_deadline", AskBacklogDeadline)])
  ]

  /** The en dash is U+2013. */
  const ClarifierQuestion: string := "Please answer in 2\U{2013}4 words."

  /** table.get(domain, {}).get(slot), for a table shaped like FALLBACK_QUESTIONS. */
  function CannedIn(table: seq<(string, seq<(string, string)>)>, d: string, s: string): Option<string> {
    match Find(table, d)
    case Some(questions) => Find(questions, s)
    case None => None
  }

  /** FALLBACK_QUESTIONS.get(domain, {}).get(slot) */
  function CannedQuestion(d: string, s: string): Option<string> {
    CannedIn(FallbackQuestions, d, s)
  }

  /** One "?", as the last character, and neither ";" nor "/". */
  predicate QuestionShape(q: string) {
    && |q| > 0 && q[|q| - 1] == '?'
    && forall i :: 0 <= i < |q| - 1 ==> q[i] != '?' && q[i] != ';' && q[i] != '/'
  }

  predicate AllShaped(qs: seq<(string, string)>) {
    forall j :: 0 <= j < |qs| ==> QuestionShape(qs[j].1)
  }

  /** The canned questions cover exactly the schema: the same domains in the same
      order, and for each domain exactly its slots in schema order. */
  lemma CannedQuestionsMatchSchema()
    ensures KeysOf(FallbackQuestions) == KeysOf(SlotSchema)
    ensures forall k :: 0 <= k < |FallbackQuestions| ==> KeysOf(FallbackQuestions[k].1) == SlotSchema[k].1
  {
    assert KeysOf(FallbackQuestions) == SchemaDomains;
    SchemaDomainsExact();
    MatchSchema0();
    MatchSchema1();
  }

  lemma MatchSchema0()
    ensures forall k :: 0 <= k < 3 ==> KeysOf(FallbackQuestions[k].1) == SlotSchema[k].1
  {
    assert KeysOf(FallbackQuestions[0].1) == SlotSchema[0].1;
    assert KeysOf(FallbackQuestions[1].1) == SlotSchema[1].1;
    assert KeysOf(FallbackQuestions[2].1) == SlotSchema[2].1;
  }

  lemma MatchSchema1()
    ensures forall k :: 3 <= k < 7 ==> KeysOf(FallbackQuestions[k].1) == SlotSchema[k].1
  {
    assert KeysOf(FallbackQuestions[3].1) == SlotSchema[3].1;
    assert KeysOf(FallbackQuestions[4].1) == SlotSchema[4].1;
    assert KeysOf(FallbackQuestions[5].1) == SlotSchema[5].1;
    assert KeysOf(FallbackQuestions[6].1) == SlotSchema[6].1;
  }

  // Each canned question, one at a time: checking a literal character by
  // character is costly, so no lemma checks more than one.
  lemma ShapedPhoneApp() ensures QuestionShape(AskPhoneApp) {}
  lemma ShapedAppActivity() ensures QuestionShape(AskAppActivity) {}
  lemma ShapedReelType() ensures QuestionShape(AskReelType) {}
  lemma ShapedFriendName() ensures QuestionShape(AskFriendName) {}
  lemma ShapedGamingApp() ensures QuestionShape(AskGamingApp) {}
  lemma ShapedGamingTime() ensures QuestionShape(AskGamingTime) {}
  lemma ShapedWeakSubject() ensures QuestionShape(AskWeakSubject) {}
  lemma ShapedFavoriteSubject() ensures QuestionShape(AskFavoriteSubject) {}
  lemma ShapedConceptConfidence() ensures QuestionShape(AskConceptConfidence) {}
  lemma ShapedLastTestExperience() ensures QuestionShape(AskLastTestExperience) {}
  lemma ShapedExamTimeLeft() ensures QuestionShape(AskExamTimeLeft) {}
  lemma ShapedStudyHoursPerDay() ensures QuestionShape(AskStudyHoursPerDay) {}
  lemma ShapedTimetableBreaker() ensures QuestionShape(AskTimetableBreaker) {}
  lemma ShapedComparisonPerson() ensures QuestionShape(AskComparisonPerson) {}
  lemma ShapedComparisonGap() ensures QuestionShape(AskComparisonGap) {}
  lemma ShapedFamilyMember() ensures QuestionShape(AskFamilyMember) {}
  lemma ShapedExpectationType() ensures QuestionShape(AskExpectationType) {}
  lemma ShapedMotivationReason() ensures QuestionShape(AskMotivationReason) {}
  lemma ShapedDemotivationReason() ensures QuestionShape(AskDemotivationReason) {}
  lemma ShapedBacklogSubject() ensures QuestionShape(AskBacklogSubject) {}
  lemma ShapedBacklogDeadline() ensures QuestionShape(AskBacklogDeadline) {}

  lemma DomainsShaped0() ensures AllShaped(FallbackQuestions[0].1) {
    ShapedPhoneApp(); ShapedAppActivity(); ShapedReelType(); ShapedFriendName(); ShapedGamingApp(); ShapedGamingTime();
  }

  lemma DomainsShaped1() ensures AllShaped(FallbackQuestions[1].1) && AllShaped(FallbackQuestions[2].1) {
    ShapedWeakSubject(); ShapedFavoriteSubject(); ShapedConceptConfidence(); ShapedLastTestExperience(); ShapedExamTimeLeft(); ShapedStudyHoursPerDay(); ShapedTimetableBreaker();
  }

  lemma DomainsShaped2() ensures AllShaped(FallbackQuestions[3].1) && AllShaped(FallbackQuestions[4].1) && AllShaped(FallbackQuestions[5].1) && AllShaped(FallbackQuestions[6].1) {
    ShapedComparisonPerson(); ShapedComparisonGap(); ShapedFamilyMember(); ShapedExpectationType(); ShapedMotivationReason(); ShapedDemotivationReason(); ShapedBacklogSubject(); ShapedBacklogDeadline();
  }

  /** Looking a slot up in a two-level table whose keys follow a schema table
      entry by entry: found exactly for the schema's pairs, and every find is one
      of the table's entries. */
  lemma TwoLevelFind(f: seq<(string, seq<(string, string)>)>, t: seq<(string, seq<string>)>, d: string, s: string)
    requires KeysOf(f) == KeysOf(t) && NoDup(KeysOf(t))
    requires forall k :: 0 <= k < |f| ==> KeysOf(f[k].1) == t[k].1
    ensures var r := (match Find(f, d) case Some(qs) => Find(qs, s) case None => None);
      && (r.Some? <==> s in (match Find(t, d) case Some(slots) => slots case None => []))
      && (r.Some? ==> exists k, j :: 0 <= k < |f| && 0 <= j < |f[k].1| && f[k].1[j].1 == r.value)
  {
    TwoLevelFound(f, t, d, s);
    TwoLevelEntry(f, d, s);
  }

  lemma TwoLevelFound(f: seq<(string, seq<(string, string)>)>, t: seq<(string, seq<string>)>, d: string, s: string)
    requires KeysOf(f) == KeysOf(t) && NoDup(KeysOf(t))
    requires forall k :: 0 <= k < |f| ==> KeysOf(f[k].1) == t[k].1
    ensures (match Find(f, d) case Some(qs) => Find(qs, s).Some? case None => false) <==>
      s in (match Find(t, d) case Some(slots) => slots case None => [])
  {
    match Find(f, d)
    case None =>
      assert d !in KeysOf(t);
    case Some(qs) =>
      var k :| 0 <= k < |f| && f[k].0 == d && f[k].1 == qs;
      assert t[k].0 == d by { assert KeysOf(f)[k] == KeysOf(t)[k]; }
      FindEntry(t, k);
  }

  lemma TwoLevelEntry(f: seq<(string, seq<(string, string)>)>, d: string, s: string)
    ensures var r := (match Find(f, d) case Some(qs) => Find(qs, s) case None => None);
      r.Some? ==> exists k, j :: 0 <= k < |f| && 0 <= j < |f[k].1| && f[k].1[j].1 == r.value
  {
    match Find(f, d)
    case None =>
    case Some(qs) =>
      var k :| 0 <= k < |f| && f[k].0 == d && f[k].1 == qs;
      match Find(qs, s)
      case None =>
      case Some(v) =>
        var j :| 0 <= j < |qs| && qs[j].0 == s && qs[j].1 == v;
        assert f[k].1[j].1 == v;
  }

  /** A canned question exists exactly for the schema's (domain, slot) pairs, and
      every one has its single "?" at the end and no ";" or "/". */
  lemma CannedQuestionsWellFormed(d: string, s: string)
    ensures CannedQuestion(d, s).Some? <==> s in SlotsOf(d)
    ensures CannedQuestion(d, s).Some? ==> QuestionShape(CannedQuestion(d, s).value)
  {
    CannedQuestionsMatchSchema();
    SchemaDomainsExact();
    TwoLevelFind(FallbackQuestions, SlotSchema, d, s);
    AllCannedShaped();
  }

  lemma AllCannedShaped()
    ensures forall k, j :: 0 <= k < |FallbackQuestions| && 0 <= j < |FallbackQuestions[k].1| ==> QuestionShape(FallbackQuestions[k].1[j].1)
  {
    DomainsShaped0(); DomainsShaped1(); DomainsShaped2();
    forall k, j | 0 <= k < |FallbackQuestions| && 0 <= j < |FallbackQuestions[k].1|
      ensures QuestionShape(FallbackQuestions[k].1[j].1)
    {
      assert AllShaped(FallbackQuestions[k].1);
    }
  }

  // ---------------------------------------------------------------------
  // Combo questions

  datatype ComboSpec = ComboSpec(
    domains: seq<string>,
    slots: seq<(string, string)>,
    emotionProbe: bool,
    answerFormat: string,
    hint: string)

  const FriendCompareEmotion: ComboSpec := ComboSpec(
    ["distractions", "social_comparison"],
    [("distractions", "friend_name"), ("social_comparison", "comparison_person"), ("social_comparison", "comparison_gap")],
    true,
    "3 lines",
    "Line1 friend name\nLine2 comparison person | gap(small/big)\nLine3 emotion: pressure/panic/self_doubt/motivation")

  const DistractionTimeCombo: ComboSpec := ComboSpec(
    ["distractions", "time_pressure"],
    [("distractions", "gaming_app"), ("distractions", "gaming_time"), ("time_pressure", "timetable_breaker")],
    false,
    "3 lines",
    "Line1 games you play most (e.g., COD / PUBG / Free Fire)\nLine2 gaming time per day (e.g., 2-3 hours)\nLine3 biggest timetable breaker (phone/games/friends/laziness)")

  const ComboSpecs: seq<(string, ComboSpec)> := [
    ("friend_compare_emotion", FriendCompareEmotion),
    ("distraction_time_combo", DistractionTimeCombo)
  ]

  const ComboCategories: set<string> := {"emotion", "comparison", "distraction"}

  const ForbiddenCombos: seq<set<string>> := [
    {"emotion", "comparison"},
    {"comparison", "distraction"},
    {"emotion", "distraction"}
  ]

  function SlotDomains(slots: seq<(string, string)>): (ds: seq<string>)
    ensures |ds| == |slots| && forall k :: 0 <= k < |slots| ==> ds[k] == slots[k].0
  {
    seq(|slots|, k requires 0 <= k < |slots| => slots[k].0)
  }

  predicate SpecWellFormed(key: string, spec: ComboSpec) {
    && (forall p <- spec.slots :: p.1 in SlotsOf(p.0))
    && spec.domains == Dedup(SlotDomains(spec.slots))
    && |spec.slots| == 3 && spec.answerFormat == "3 lines"
    && (spec.emotionProbe <==> key == "friend_compare_emotion")
  }

  /** The spec table holds the two combos, in this order. */
  lemma ComboSpecKeys()
    ensures KeysOf(ComboSpecs) == ["friend_compare_emotion", "distraction_time_combo"]
  {
  }

  /** Each combo spec names schema slots only, lists as its domains the distinct
      domains of its slots in first-appearance order, asks for three slots in a
      three-line answer, and probes emotion only for friend_compare_emotion. */
  lemma ComboSpecsWellFormed()
    ensures forall k :: 0 <= k < |ComboSpecs| ==> SpecWellFormed(ComboSpecs[k].0, ComboSpecs[k].1)
  {
    forall k | 0 <= k < |ComboSpecs| ensures SpecWellFormed(ComboSpecs[k].0, ComboSpecs[k].1) {
      if k == 0 {
        FirstSpecWellFormed();
      } else {
        SecondSpecWellFormed();
      }
    }
  }

  lemma FirstSpecWellFormed()
    ensures SpecWellFormed("friend_compare_emotion", FriendCompareEmotion)
  {
    FirstSpecSlots();
    FirstSpecDomains();
  }

  lemma FirstSpecSlots()
    ensures forall p <- FriendCompareEmotion.slots :: p.1 in SlotsOf(p.0)
  {
    var ps := FriendCompareEmotion.slots;
    assert ps == [("distractions", "friend_name"), ("social_comparison", "comparison_person"), ("social_comparison", "comparison_gap")];
    FriendNameListed();
    ComparisonPersonListed();
    ComparisonGapListed();
  }

  lemma FriendNameListed() ensures "friend_name" in SlotsOf("distractions") {
    DistractionsSlots();
    assert SlotSchema[0].1[3] == "friend_name";
  }
  lemma ComparisonPersonListed() ensures "comparison_person" in SlotsOf("social_comparison") {
    ComparisonSlots();
    assert SlotSchema[3].1[0] == "comparison_person";
  }
  lemma ComparisonGapListed() ensures "comparison_gap" in SlotsOf("social_comparison") {
    ComparisonSlots();
    assert SlotSchema[3].1[1] == "comparison_gap";
  }

  lemma FirstSpecDomains()
    ensures FriendCompareEmotion.domains == Dedup(SlotDomains(FriendCompareEmotion.slots))
  {
    assert SlotDomains(FriendCompareEmotion.slots) == ["distractions", "social_comparison", "social_comparison"];
    DedupExample("distractions", "social_comparison");
  }

  lemma SecondSpecWellFormed()
    ensures SpecWellFormed("distraction_time_combo", DistractionTimeCombo)
  {
    SecondSpecSlots();
    SecondSpecDomains();
  }

  lemma SecondSpecSlots()
    ensures forall p <- DistractionTimeCombo.slots :: p.1 in SlotsOf(p.0)
  {
    var ps := DistractionTimeCombo.slots;
    assert ps == [("distractions", "gaming_app"), ("distractions", "gaming_time"), ("time_pressure", "timetable_breaker")];
    forall p <- ps ensures p.1 in SlotsOf(p.0) {
      if p == ps[0] {
        GamingAppListed();
      } else if p == ps[1] {
        GamingTimeListed();
      } else {
        BreakerListed();
      }
    }
  }

  lemma GamingAppListed() ensures "gaming_app" in SlotsOf("distractions") {
    DistractionsSlots();
    assert SlotSchema[0].1[4] == "gaming_app";
  }
  lemma GamingTimeListed() ensures "gaming_time" in SlotsOf("distractions") {
    DistractionsSlots();
    assert SlotSchema[0].1[5] == "gaming_time";
  }
  lemma BreakerListed() ensures "timetable_breaker" in SlotsOf("time_pressure") {
    TimePressureSlots();
    assert SlotSchema[2].1[2] == "timetable_breaker";
  }

  lemma SecondSpecDomains()
    ensures DistractionTimeCombo.domains == Dedup(SlotDomains(DistractionTimeCombo.slots))
  {
    assert SlotDomains(DistractionTimeCombo.slots) == ["distractions", "distractions", "time_pressure"];
    DedupExample2("distractions", "time_pressure");
  }

  lemma DistractionsSlots()
    ensures SlotsOf("distractions") == SlotSchema[0].1
  {
    SchemaDomainsExact();
    FindEntry(SlotSchema, 0);
  }

  lemma TimePressureSlots()
    ensures SlotsOf("time_pressure") == SlotSchema[2].1
  {
    SchemaDomainsExact();
    FindEntry(SlotSchema, 2);
  }

  lemma ComparisonSlots()
    ensures SlotsOf("social_comparison") == SlotSchema[3].1
  {
    SchemaDomainsExact();
    FindEntry(SlotSchema, 3);
  }

  lemma DedupExample(a: string, b: string)
    requires a != b
    ensures Dedup([a, b, b]) == [a, b]
  {
    assert [a][..0] == [];
    assert Dedup([a]) == [a];
    assert [a, b][..1] == [a];
    assert Dedup([a, b]) == [a, b];
    assert [a, b, b][..2] == [a, b];
  }

  lemma DedupExample2(a: string, b: string)
    requires a != b
    ensures Dedup([a, a, b]) == [a, b]
  {
    assert [a][..0] == [];
    assert Dedup([a]) == [a];
    assert [a, a][..1] == [a];
    assert Dedup([a, a]) == [a];
    assert [a, a, b][..2] == [a, a];
  }

  lemma PairCard(a: string, b: string)
    requires a != b
    ensures |{a, b}| == 2
  {
  }

  lemma ForbiddenPairsSized()
    ensures forall k :: 0 <= k < 3 ==> |ForbiddenCombos[k]| == 2 && ForbiddenCombos[k] <= ComboCategories
  {
    PairCard("emotion", "comparison");
    PairCard("comparison", "distraction");
    PairCard("emotion", "distraction");
  }

  lemma ForbiddenPairsDistinct()
    ensures NoDup(ForbiddenCombos)
  {
    assert "emotion" !in ForbiddenCombos[1] && "comparison" !in ForbiddenCombos[2] && "distraction" !in ForbiddenCombos[0];
  }

  /** FORBIDDEN_COMBOS lists the three two-element subsets of the three categories,
      each once. */
  lemma ForbiddenCombosArePairs()
    ensures |ForbiddenCombos| == 3 && NoDup(ForbiddenCombos)
    ensures forall k :: 0 <= k < 3 ==> |ForbiddenCombos[k]| == 2 && ForbiddenCombos[k] <= ComboCategories
  {
    ForbiddenPairsSized();
    ForbiddenPairsDistinct();
  }
}
