/** Component and cause detection from the student's opening text: the substring
    keyword fallback, the denial filter applied to every detected list, the
    de-duplication of the model's component list, and the shaping of the
    model's cause map. The model calls themselves are oracles. */
module Detect {
  import opened Text
  import opened Json
  import opened Oracles

  // ---------------------------------------------------------------------
  // Keyword fallback

  /** The component ids the extraction schema accepts. */
  const ComponentIds: seq<string> := [
    "academic_confidence", "time_pressure", "distractions", "social_comparison",
    "family_pressure", "motivation", "demotivation", "backlog_stress"
  ]

  const TimeTokens: seq<string> := ["time", "deadline", "weeks", "days", "exam", "test in", "paper in"]
  const DistractionTokens: seq<string> :=
    ["phone", "instagram", "youtube", "snapchat", "reel", "shorts", "game", "bgmi", "freefire"]
  const AcademicTokens: seq<string> := ["math", "physics", "chemistry", "bio", "marks", "score", "rank", "concepts"]
  const ComparisonTokens: seq<string> := ["compare", "topper", "better than me", "friends ahead", "sharma ji"]
  const FamilyTokens: seq<string> := ["mom", "dad", "parents", "family", "ghar", "pressure"]
  const MotivationTokens: seq<string> := ["motivation", "dream", "goal", "iit", "aiims"]
  const DemotivationTokens: seq<string> := ["demotivat", "tired", "burnout", "give up", "hopeless"]
  const BacklogTokens: seq<string> := ["backlog", "syllabus left", "pending chapters"]

  /** The fallback's token lists, in the order the fallback tries them. */
  const FallbackTokens: seq<(string, seq<string>)> := [
    ("time_pressure", TimeTokens), ("distractions", DistractionTokens),
    ("academic_confidence", AcademicTokens), ("social_comparison", ComparisonTokens),
    ("family_pressure", FamilyTokens), ("motivation", MotivationTokens),
    ("demotivation", DemotivationTokens), ("backlog_stress", BacklogTokens)
  ]

  /** `any(token in lowered for token in tokens)` */
  predicate AnyToken(lowered: string, tokens: seq<string>) {
    exists k :: 0 <= k < |tokens| && Contains(lowered, tokens[k])
  }

  /** The `if any(...): add(component)` chain over a token table, where `add`
      appends a component not yet in `out`. */
  function AddHits(lowered: string, table: seq<(string, seq<string>)>, out: seq<string>): (r: seq<string>)
    ensures NoDup(out) ==> NoDup(r)
    ensures out <= r
    decreases |table|
  {
    if table == [] then out
    else
      var c := table[0].0;
      var next := if AnyToken(lowered, table[0].1) && c !in out then out + [c] else out;
      AddHits(lowered, table[1..], next)
  }

  /** A component is added iff one of its tokens is a substring of the text. */
  lemma {:induction false} AddHitsMembers(lowered: string, table: seq<(string, seq<string>)>, out: seq<string>, c: string)
    ensures c in AddHits(lowered, table, out) <==>
      c in out || exists k :: 0 <= k < |table| && table[k].0 == c && AnyToken(lowered, table[k].1)
    decreases |table|
  {
    if table != [] {
      var next := if AnyToken(lowered, table[0].1) && table[0].0 !in out then out + [table[0].0] else out;
      AddHitsMembers(lowered, table[1..], next, c);
      if exists k :: 0 <= k < |table| && table[k].0 == c && AnyToken(lowered, table[k].1) {
        var k :| 0 <= k < |table| && table[k].0 == c && AnyToken(lowered, table[k].1);
        if k > 0 {
          assert table[1..][k - 1] == table[k];
        }
      }
      if exists k :: 0 <= k < |table[1..]| && table[1..][k].0 == c && AnyToken(lowered, table[1..][k].1) {
        var k :| 0 <= k < |table[1..]| && table[1..][k].0 == c && AnyToken(lowered, table[1..][k].1);
        assert table[k + 1] == table[1..][k];
      }
    }
  }

  /** The components added follow the table's order. */
  lemma {:induction false} AddHitsOrder(lowered: string, table: seq<(string, seq<string>)>, out: seq<string>)
    ensures IsSubseq(AddHits(lowered, table, out)[|out|..], KeysOfTable(table))
    decreases |table|
  {
    if table != [] {
      var c := table[0].0;
      var next := if AnyToken(lowered, table[0].1) && c !in out then out + [c] else out;
      var r := AddHits(lowered, table, out);
      AddHitsOrder(lowered, table[1..], next);
      assert KeysOfTable(table)[1..] == KeysOfTable(table[1..]);
      if next == out {
        SubseqCons(r[|out|..], KeysOfTable(table));
      } else {
        assert r[|out|..][0] == c;
        assert r[|out|..][1..] == r[|next|..];
      }
    }
  }

  function KeysOfTable(table: seq<(string, seq<string>)>): (ks: seq<string>)
    ensures |ks| == |table| && forall k :: 0 <= k < |table| ==> ks[k] == table[k].0
  {
    seq(|table|, k requires 0 <= k < |table| => table[k].0)
  }

  /** keyword_fallback */
  function KeywordFallback(text: string): (r: seq<string>)
    ensures NoDup(r)
  {
    FilterDenialsSpec(AddHits(Lower(text), FallbackTokens, []), text);
    FilterDenials(AddHits(Lower(text), FallbackTokens, []), text)
  }

  /** The fallback lists each component whose tokens occur in the lower-cased text
      and that no denial removes, without repeats, in the fixed order time_pressure,
      distractions, academic_confidence, social_comparison, family_pressure,
      motivation, demotivation, backlog_stress. */
  lemma KeywordFallbackSpec(text: string, c: string)
    ensures c in KeywordFallback(text) <==>
      && (exists k :: 0 <= k < |FallbackTokens| && FallbackTokens[k].0 == c && AnyToken(Lower(text), FallbackTokens[k].1))
      && c !in Denied(Lower(text))
    ensures IsSubseq(AddHits(Lower(text), FallbackTokens, []), KeysOfTable(FallbackTokens))
  {
    AddHitsMembers(Lower(text), FallbackTokens, [], c);
    AddHitsOrder(Lower(text), FallbackTokens, []);
    assert AddHits(Lower(text), FallbackTokens, [])[0..] == AddHits(Lower(text), FallbackTokens, []);
  }

  // ---------------------------------------------------------------------
  // Denial filter

  const DistractionDenials: seq<string> := [
    "not distracted by phone", "not distracted by my phone", "not distracted by friends",
    "no phone distraction", "no distractions from friends"
  ]

  const ComparisonDenials: seq<string> := ["dont compare", "don't compare", "do not compare", "i am not comparing"]

  /** `any(phrase in text for phrase in phrases)` */
  predicate AnyPhrase(lowered: string, phrases: seq<string>) {
    exists k :: 0 <= k < |phrases| && Contains(lowered, phrases[k])
  }

  /** The domains the denial filter removes for a lower-cased text. */
  function Denied(lowered: string): (r: set<string>)
    ensures "distractions" in r <==> AnyPhrase(lowered, DistractionDenials)
    ensures "social_comparison" in r <==> AnyPhrase(lowered, ComparisonDenials)
    ensures r <= {"distractions", "social_comparison"}
  {
    (if AnyPhrase(lowered, DistractionDenials) then {"distractions"} else {})
      + (if AnyPhrase(lowered, ComparisonDenials) then {"social_comparison"} else {})
  }

  /** filter_domains_by_denials: `_remove("distractions")` and then
      `_remove("social_comparison")` when their phrases occur. */
  function FilterDenials(domains: seq<string>, text: string): (r: seq<string>)
    ensures r == Without(domains, Denied(Lower(text)))
  {
    var lowered := Lower(text);
    var afterFirst := if AnyPhrase(lowered, DistractionDenials) then Without(domains, {"distractions"}) else domains;
    var afterSecond := if AnyPhrase(lowered, ComparisonDenials) then Without(afterFirst, {"social_comparison"}) else afterFirst;
    WithoutWithout(domains, {"distractions"}, {"social_comparison"});
    assert {"distractions"} + {} == {"distractions"};
    assert {} + {"social_comparison"} == {"social_comparison"};
    afterSecond
  }

  /** The filter removes every occurrence of a denied domain, keeps every other
      element in its order, and keeps the list as it is when no phrase occurs. */
  lemma FilterDenialsSpec(domains: seq<string>, text: string)
    ensures forall d <- FilterDenials(domains, text) :: d in domains && d !in Denied(Lower(text))
    ensures forall d <- domains :: d !in Denied(Lower(text)) ==> d in FilterDenials(domains, text)
    ensures Denied(Lower(text)) == {} ==> FilterDenials(domains, text) == domains
    ensures NoDup(domains) ==> NoDup(FilterDenials(domains, text))
  {
    if NoDup(domains) {
      WithoutNoDup(domains, Denied(Lower(text)));
    }
  }

  // ---------------------------------------------------------------------
  // extract_components

  /** A reply the extraction schema accepts: every id is a component id. */
  predicate ValidComponents(ids: seq<string>) {
    forall k :: 0 <= k < |ids| ==> ids[k] in ComponentIds
  }

  /** An accepted reply: its ids de-duplicated in first-seen order, then
      denial-filtered against the original text. */
  function ComponentsFrom(raw: seq<string>, text: string): (r: seq<string>)
    ensures NoDup(r)
    ensures forall x :: x in r <==> x in raw && x !in Denied(Lower(text))
  {
    FilterDenialsSpec(Dedup(raw), text);
    FilterDenials(Dedup(raw), text)
  }

  /** A reply extract_components takes: decoded, with every id a component id. */
  predicate Accepted(reply: Reply<seq<string>>) {
    reply.Parsed? && ValidComponents(reply.value)
  }

  /** A reply after which extract_components calls the model again: a decoding
      error, or a list the schema rejects. */
  predicate Retries(reply: Reply<seq<string>>) {
    reply.Malformed? || (reply.Parsed? && !ValidComponents(reply.value))
  }

  /** The list a sequence of replies yields: the first accepted one, unless a
      call failed in another way before it. */
  function FirstComponents(replies: seq<Reply<seq<string>>>): (r: Option<seq<string>>)
    ensures r.Some? ==> ValidComponents(r.value) && Parsed(r.value) in replies
    ensures (forall k :: 0 <= k < |replies| ==> !Accepted(replies[k])) ==> r.None?
  {
    if replies == [] then None
    else if Accepted(replies[0]) then Some(replies[0].value)
    else if replies[0].Crashed? then None
    else
      assert forall k :: 0 <= k < |replies[1..]| ==> replies[1..][k] == replies[k + 1];
      FirstComponents(replies[1..])
  }

  /** What extract_components returns for the replies it received: the accepted
      list's ids that no denial removes, each once, or the keyword fallback
      when no reply was accepted. */
  function ComponentsOutcome(replies: seq<Reply<seq<string>>>, text: string): (r: seq<string>)
    ensures NoDup(r)
    ensures FirstComponents(replies).None? ==> r == KeywordFallback(Strip(text))
    ensures FirstComponents(replies).Some? ==>
      forall x :: x in r <==> x in FirstComponents(replies).value && x !in Denied(Lower(text))
  {
    match FirstComponents(replies)
    case Some(raw) => ComponentsFrom(raw, text)
    case None => KeywordFallback(Strip(text))
  }

  /** Replies that all asked for a retry are followed by the reply that
      decides. */
  lemma {:induction false} FirstComponentsAfterRetries(replies: seq<Reply<seq<string>>>, r: Reply<seq<string>>)
    requires forall k :: 0 <= k < |replies| ==> Retries(replies[k])
    ensures FirstComponents(replies + [r]) == if Accepted(r) then Some(r.value) else None
  {
    if replies == [] {
      AppendEmpty([r]);
    } else {
      AppendTail(replies, [r]);
      FirstComponentsAfterRetries(replies[1..], r);
    }
  }

  /** One attempt of extract_components' loop, after `base` replies that asked
      for a retry. */
  method ComponentsRound(payload: string, model: Oracle<string, seq<string>>, ghost base: nat)
    returns (got: Option<seq<string>>, stop: bool)
    requires base <= |model.answered|
    requires forall k :: base <= k < |model.answered| ==> Retries(model.answered[k])
    modifies model
    ensures model.asked == old(model.asked) + [payload]
    ensures |model.answered| == |old(model.answered)| + 1 && old(model.answered) <= model.answered
    ensures stop <==> !Retries(model.answered[|model.answered| - 1])
    ensures stop ==> got == FirstComponents(model.answered[base..])
    ensures !stop ==> got == None && forall k :: base <= k < |model.answered| ==> Retries(model.answered[k])
  {
    ghost var log := model.answered;
    var reply := model.Ask(payload);
    DropSnoc(log, reply, base);
    FirstComponentsAfterRetries(log[base..], reply);
    got, stop := None, false;
    if reply.Parsed? && ValidComponents(reply.value) {
      got, stop := Some(reply.value), true;
    } else if reply.Crashed? {
      stop := true;
    }
  }

  /** The retry loop of extract_components: up to two model calls with the same
      payload, the second only after a reply that asked for a retry. */
  method AskComponents(payload: string, model: Oracle<string, seq<string>>) returns (got: Option<seq<string>>)
    modifies model
    ensures old(model.asked) <= model.asked && old(model.answered) <= model.answered
    ensures |model.asked| - |old(model.asked)| == |model.answered| - |old(model.answered)|
    ensures forall q <- model.asked[|old(model.asked)|..] :: q == payload
    ensures var replies := model.answered[|old(model.answered)|..];
      && 1 <= |replies| <= 2
      && (|replies| == 2 <==> Retries(replies[0]))
      && got == FirstComponents(replies)
  {
    got := None;
    var stop := false;
    var attempt := 0;
    while attempt < 2 && !stop
      invariant 0 <= attempt <= 2
      invariant |model.asked| == |old(model.asked)| + attempt
      invariant |model.answered| == |old(model.answered)| + attempt
      invariant old(model.asked) <= model.asked && old(model.answered) <= model.answered
      invariant forall q <- model.asked[|old(model.asked)|..] :: q == payload
      invariant attempt == 0 ==> !stop
      invariant attempt == 2 ==> Retries(model.answered[|old(model.answered)|])
      invariant stop ==> !Retries(model.answered[|model.answered| - 1])
      invariant stop ==> got == FirstComponents(model.answered[|old(model.answered)|..])
      invariant !stop ==> got == None && forall k :: |old(model.answered)| <= k < |model.answered| ==> Retries(model.answered[k])
    {
      ghost var before := model.asked;
      got, stop := ComponentsRound(payload, model, |old(model.answered)|);
      DropSnoc(before, payload, |old(model.asked)|);
      attempt := attempt + 1;
    }
  }

  /** extract_components: blank text gives nothing without a call; otherwise
      up to two model calls with the stripped text cut to 1500 characters, and
      the outcome of the replies received. */
  method ExtractComponents(text: string, model: Oracle<string, seq<string>>) returns (ids: seq<string>)
    modifies model
    ensures Strip(text) == [] ==> ids == [] && model.asked == old(model.asked) && model.answered == old(model.answered)
    ensures old(model.asked) <= model.asked && old(model.answered) <= model.answered
    ensures forall q <- model.asked[|old(model.asked)|..] :: q == Take(Strip(text), 1500)
    ensures Strip(text) != [] ==>
      var replies := model.answered[|old(model.answered)|..];
      && 1 <= |replies| <= 2
      && (|replies| == 2 <==> Retries(replies[0]))
      && ids == ComponentsOutcome(replies, text)
    ensures NoDup(ids)
  {
    var userText := Strip(text);
    if userText == [] {
      return [];
    }
    var got := AskComponents(Take(userText, 1500), model);
    if got.Some? {
      ids := ComponentsFrom(got.value, text);
    } else {
      ids := KeywordFallback(userText);
    }
  }

  // ---------------------------------------------------------------------
  // detect_causes

  const CauseKeys: seq<string> := [
    "family_pressure", "digital_distraction", "social_distraction",
    "academic_confidence", "time_pressure", "emotional_overwhelm"
  ]

  /** `{key: False for key in CAUSE_KEYS}` */
  function DefaultCauses(): (r: map<string, bool>)
    ensures r.Keys == set k <- CauseKeys
    ensures forall k <- r.Keys :: !r[k]
  {
    map k <- CauseKeys :: false
  }

  /** The result shaping: a cause takes the reply's value only when that value is
      a boolean. */
  function CausesFrom(data: map<string, Value>): (r: map<string, bool>)
    ensures r.Keys == set k <- CauseKeys
    ensures forall k <- r.Keys :: r[k] <==> Get(data, k) == Bool(true)
  {
    map k <- CauseKeys :: if Get(data, k).Bool? then Get(data, k).b else false
  }

  /** A decoded JSON object that holds boolean true for the cause. */
  predicate HeldTrue(reply: Reply<Value>, c: string) {
    reply.Parsed? && reply.value.Dict? && Get(reply.value.fields, c) == Bool(true)
  }

  /** What detect_causes returns for the replies it received: the first decoded
      reply shapes the map when it is a JSON object; a decoded non-object (whose
      `.get` raises) or any other failure ends the attempts with all false. */
  function CausesOutcome(replies: seq<Reply<Value>>): (r: map<string, bool>)
    ensures r.Keys == set k <- CauseKeys
    ensures (forall k :: 0 <= k < |replies| ==> !(replies[k].Parsed? && replies[k].value.Dict?)) ==> r == DefaultCauses()
    ensures forall c <- r.Keys :: r[c] ==> exists k :: 0 <= k < |replies| && HeldTrue(replies[k], c)
  {
    if replies == [] then DefaultCauses()
    else match replies[0]
      case Parsed(v) => if v.Dict? then CausesFrom(v.fields) else DefaultCauses()
      case Crashed => DefaultCauses()
      case Malformed =>
        assert forall k :: 0 <= k < |replies[1..]| ==> replies[1..][k] == replies[k + 1];
        CausesOutcome(replies[1..])
  }

  /** Malformed replies are followed by the reply that decides. */
  lemma {:induction false} CausesAfterMalformed(replies: seq<Reply<Value>>, r: Reply<Value>)
    requires forall k :: 0 <= k < |replies| ==> replies[k].Malformed?
    ensures CausesOutcome(replies + [r]) == if r.Parsed? && r.value.Dict? then CausesFrom(r.value.fields) else DefaultCauses()
  {
    if replies == [] {
      AppendEmpty([r]);
    } else {
      AppendTail(replies, [r]);
      CausesAfterMalformed(replies[1..], r);
    }
  }

  /** One attempt of detect_causes' loop, after `base` malformed replies. */
  method CausesRound(payload: string, model: Oracle<string, Value>, ghost base: nat)
    returns (causes: map<string, bool>, stop: bool)
    requires base <= |model.answered|
    requires forall k :: base <= k < |model.answered| ==> model.answered[k].Malformed?
    modifies model
    ensures model.asked == old(model.asked) + [payload]
    ensures |model.answered| == |old(model.answered)| + 1 && old(model.answered) <= model.answered
    ensures stop <==> !model.answered[|model.answered| - 1].Malformed?
    ensures stop ==> causes == CausesOutcome(model.answered[base..])
    ensures !stop ==> causes == DefaultCauses() && forall k :: base <= k < |model.answered| ==> model.answered[k].Malformed?
  {
    ghost var log := model.answered;
    var reply := model.Ask(payload);
    DropSnoc(log, reply, base);
    CausesAfterMalformed(log[base..], reply);
    causes, stop := DefaultCauses(), !reply.Malformed?;
    if reply.Parsed? && reply.value.Dict? {
      causes := CausesFrom(reply.value.fields);
    }
  }

  /** detect_causes: the text is cut to 2000 characters; an empty cut asks nothing
      and gives all false; otherwise up to two model calls, the second only
      after a malformed reply, and the outcome of the replies received. */
  method DetectCauses(userText: string, model: Oracle<string, Value>) returns (causes: map<string, bool>)
    modifies model
    ensures causes.Keys == set k <- CauseKeys
    ensures Take(userText, 2000) == [] ==>
      causes == DefaultCauses() && model.asked == old(model.asked) && model.answered == old(model.answered)
    ensures old(model.asked) <= model.asked && old(model.answered) <= model.answered
    ensures forall q <- model.asked[|old(model.asked)|..] :: q == Take(userText, 2000)
    ensures Take(userText, 2000) != [] ==>
      var replies := model.answered[|old(model.answered)|..];
      && 1 <= |replies| <= 2
      && (|replies| == 2 <==> replies[0].Malformed?)
      && causes == CausesOutcome(replies)
  {
    var payload := Take(userText, 2000);
    causes := DefaultCauses();
    if payload == [] {
      return;
    }
    var stop := false;
    var attempt := 0;
    while attempt < 2 && !stop
      invariant 0 <= attempt <= 2
      invariant |model.asked| == |old(model.asked)| + attempt
      invariant |model.answered| == |old(model.answered)| + attempt
      invariant old(model.asked) <= model.asked && old(model.answered) <= model.answered
      invariant forall q <- model.asked[|old(model.asked)|..] :: q == payload
      invariant attempt == 0 ==> !stop
      invariant attempt == 2 ==> model.answered[|old(model.answered)|].Malformed?
      invariant stop ==> !model.answered[|model.answered| - 1].Malformed?
      invariant stop ==> causes == CausesOutcome(model.answered[|old(model.answered)|..])
      invariant !stop ==> causes == DefaultCauses() && forall k :: |old(model.answered)| <= k < |model.answered| ==> model.answered[k].Malformed?
    {
      ghost var before := model.asked;
      causes, stop := CausesRound(payload, model, |old(model.answered)|);
      DropSnoc(before, payload, |old(model.asked)|);
      attempt := attempt + 1;
    }
  }

  /** A cause is reported only when the reply held boolean true for it. */
  lemma CausesOnlyFromTrue(data: map<string, Value>, k: string)
    requires k in CausesFrom(data) && CausesFrom(data)[k]
    ensures k in data && data[k] == Bool(true)
  {
  }
}
