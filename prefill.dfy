/** Slot prefilling from the student's opening text: the language model proposes
    active domains, slot values and negated slots; this module keeps only what
    the schema knows, tidies the values, and falls back to an empty result when
    the model gives nothing usable. */
module Prefill {
  import opened Text
  import opened Schema
  import opened Oracles

  /** The reply once decoded and validated: domain ids, a domain -> slot -> text
      table, and the names the student said do not apply. */
  datatype PrefillReply = PrefillReply(
    activeDomains: seq<string>,
    prefill: map<string, map<string, string>>,
    negatedSlots: seq<string>)

  /** What the caller receives (the same three fields). */
  type PrefillResult = PrefillReply

  const Empty: PrefillResult := PrefillReply([], map[], [])

  // ---------------------------------------------------------------------
  // Clean-up of a parsed reply

  /** A stored value: the whitespace collapsed, cut to 80 characters. */
  function CleanValue(v: string): (r: string)
    ensures |r| <= 80 && r <= Collapse(v)
    ensures r == [] <==> IsBlank(v)
  {
    CollapseEmptyIffBlank(v);
    Take(Collapse(v), 80)
  }

  /** Whether a proposed (domain, slot, value) is kept. */
  predicate Keeps(d: string, s: string, v: string) {
    IsDomain(d) && s in SlotsOf(d) && !IsBlank(v)
  }

  /** The kept slots of one domain, with their values cleaned. */
  function KeptSlots(d: string, slots: map<string, string>): (r: map<string, string>)
    ensures forall s :: s in r <==> s in slots && Keeps(d, s, slots[s])
    ensures forall s <- r :: r[s] == CleanValue(slots[s])
  {
    map s | s in slots && Keeps(d, s, slots[s]) :: CleanValue(slots[s])
  }

  /** The cleaned prefill table: a domain appears only when one of its slots
      was kept. */
  function CleanPrefill(p: map<string, map<string, string>>): (r: map<string, map<string, string>>)
    ensures forall d :: d in r <==> d in p && KeptSlots(d, p[d]) != map[]
    ensures forall d <- r :: r[d] == KeptSlots(d, p[d])
  {
    map d | d in p && KeptSlots(d, p[d]) != map[] :: KeptSlots(d, p[d])
  }

  /** Every kept entry names a schema slot of a schema domain and holds a
      non-empty value of at most 80 characters taken from the collapsed text;
      every proposal that names a schema slot with a non-blank value is kept. */
  lemma CleanPrefillSound(p: map<string, map<string, string>>, d: string, s: string)
    ensures d in CleanPrefill(p) && s in CleanPrefill(p)[d] ==>
      && IsDomain(d) && s in SlotsOf(d)
      && s in p[d] && CleanPrefill(p)[d][s] != [] && |CleanPrefill(p)[d][s]| <= 80
      && CleanPrefill(p)[d][s] <= Collapse(p[d][s])
    ensures d in p && s in p[d] && Keeps(d, s, p[d][s]) ==>
      d in CleanPrefill(p) && CleanPrefill(p)[d][s] == CleanValue(p[d][s])
  {
    if d in p && s in p[d] && Keeps(d, s, p[d][s]) {
      assert s in KeptSlots(d, p[d]);
    }
  }

  /** Each name stripped. */
  function StripAll(names: seq<string>): (r: seq<string>)
    ensures |r| == |names|
    ensures forall k :: 0 <= k < |names| ==> r[k] == Strip(names[k])
  {
    seq(|names|, k requires 0 <= k < |names| => Strip(names[k]))
  }

  /** The non-blank names among `known`, in their original order. */
  function KeepKnown(known: seq<string>, names: seq<string>): (r: seq<string>)
    ensures |r| <= |names|
    ensures forall x :: x in r <==> x != [] && x in known && x in names
    ensures IsSubseq(r, names)
  {
    if names == [] then []
    else
      var rest := KeepKnown(known, names[1..]);
      var x := names[0];
      assert forall y :: y in names <==> y == x || y in names[1..];
      if x != [] && x in known then
        ConsTail(x, rest);
        [x] + rest
      else
        SubseqCons(rest, names);
        rest
  }

  /** The negated names kept: stripped, then those naming a slot of some schema
      domain. */
  function CleanNegated(names: seq<string>): (r: seq<string>)
    ensures |r| <= |names|
    ensures IsSubseq(r, StripAll(names))
  {
    KeepKnown(AllSchemaSlots, StripAll(names))
  }

  /** A negated name is kept exactly when, stripped, it is non-blank and names a
      slot of some schema domain. */
  lemma CleanNegatedMembers(names: seq<string>, x: string)
    ensures x in CleanNegated(names) <==>
      x != [] && IsSchemaSlot(x) && exists k :: 0 <= k < |names| && Strip(names[k]) == x
  {
    SchemaSlotsExact(x);
    var stripped := StripAll(names);
    if x in stripped {
      var k :| 0 <= k < |stripped| && stripped[k] == x;
      assert Strip(names[k]) == x;
    }
  }

  /** The clean-up of one parsed reply; the domain list passes through as
      parsed. */
  function Clean(reply: PrefillReply): (r: PrefillResult)
    ensures r.activeDomains == reply.activeDomains
    ensures r.prefill == CleanPrefill(reply.prefill)
    ensures r.negatedSlots == CleanNegated(reply.negatedSlots)
  {
    PrefillReply(reply.activeDomains, CleanPrefill(reply.prefill), CleanNegated(reply.negatedSlots))
  }

  // ---------------------------------------------------------------------
  // The retry policy

  /** The result a sequence of replies leads to: the first parsed reply,
      cleaned, unless a call failed in another way first; nothing usable gives
      the empty result. */
  function Outcome(replies: seq<Reply<PrefillReply>>): (r: PrefillResult)
    ensures (forall k :: 0 <= k < |replies| ==> !replies[k].Parsed?) ==> r == Empty
  {
    if replies == [] then Empty
    else match replies[0]
      case Parsed(p) => Clean(p)
      case Crashed => Empty
      case Malformed =>
        assert forall k :: 0 <= k < |replies[1..]| ==> replies[1..][k] == replies[k + 1];
        Outcome(replies[1..])
  }

  /** Replies that were all malformed are followed by the reply that decides. */
  lemma {:induction false} OutcomeAfterMalformed(replies: seq<Reply<PrefillReply>>, r: Reply<PrefillReply>)
    requires forall k :: 0 <= k < |replies| ==> replies[k].Malformed?
    ensures Outcome(replies + [r]) == match r case Parsed(p) => Clean(p) case _ => Empty
  {
    if replies == [] {
      AppendEmpty([r]);
    } else {
      AppendTail(replies, [r]);
      OutcomeAfterMalformed(replies[1..], r);
    }
  }

  /** One attempt of the retry loop, after `base` malformed replies: the model
      is asked once; a parsed or failed call decides the result, a malformed
      reply lets the loop go on. */
  method PrefillRound(payload: string, model: Oracle<string, PrefillReply>, ghost base: nat)
    returns (r: PrefillResult, stop: bool)
    requires base <= |model.answered|
    requires forall k :: base <= k < |model.answered| ==> model.answered[k].Malformed?
    modifies model
    ensures model.asked == old(model.asked) + [payload]
    ensures |model.answered| == |old(model.answered)| + 1 && old(model.answered) <= model.answered
    ensures stop <==> !model.answered[|model.answered| - 1].Malformed?
    ensures stop ==> r == Outcome(model.answered[base..])
    ensures !stop ==> r == Empty && forall k :: base <= k < |model.answered| ==> model.answered[k].Malformed?
  {
    ghost var log := model.answered;
    var reply := model.Ask(payload);
    DropSnoc(log, reply, base);
    OutcomeAfterMalformed(log[base..], reply);
    r := Empty;
    stop := false;
    if reply.Parsed? {
      r := Clean(reply.value);
      stop := true;
    } else if reply.Crashed? {
      stop := true;
    }
  }

  /** prefill_slots_with_llm: blank text gives the empty result without a call;
      otherwise the model is asked at most twice, again only after a malformed
      reply. */
  method PrefillSlots(userText: string, model: Oracle<string, PrefillReply>) returns (r: PrefillResult)
    modifies model
    ensures old(model.asked) <= model.asked && old(model.answered) <= model.answered
    ensures IsBlank(userText) ==> r == Empty && model.asked == old(model.asked) && model.answered == old(model.answered)
    ensures !IsBlank(userText) ==>
      var replies := model.answered[|old(model.answered)|..];
      && 1 <= |replies| <= 2
      && (|replies| == 2 <==> replies[0].Malformed?)
      && r == Outcome(replies)
    ensures |model.asked| - |old(model.asked)| == |model.answered| - |old(model.answered)|
    ensures |model.asked| > |old(model.asked)| ==> model.asked[|old(model.asked)|] == Take(userText, 2000)
    ensures |model.asked| == |old(model.asked)| + 2 ==> model.asked[|old(model.asked)| + 1] == Take(userText, 2000)
  {
    StripEmptyIffBlank(userText);
    if Strip(userText) == [] {
      return Empty;
    }
    var payload := Take(userText, 2000);
    r := Empty;
    var stop := false;
    var attempt := 0;
    while attempt < 2 && !stop
      invariant 0 <= attempt <= 2
      invariant |model.asked| == |old(model.asked)| + attempt
      invariant |model.answered| == |old(model.answered)| + attempt
      invariant old(model.asked) <= model.asked && old(model.answered) <= model.answered
      invariant attempt >= 1 ==> model.asked[|old(model.asked)|] == payload
      invariant attempt == 2 ==> model.asked[|old(model.asked)| + 1] == payload
      invariant attempt == 0 ==> !stop
      invariant stop ==> !model.answered[|model.answered| - 1].Malformed?
      invariant attempt == 2 ==> model.answered[|old(model.answered)|].Malformed?
      invariant stop ==> r == Outcome(model.answered[|old(model.answered)|..])
      invariant !stop ==> r == Empty && forall k :: |old(model.answered)| <= k < |model.answered| ==> model.answered[k].Malformed?
    {
      r, stop := PrefillRound(payload, model, |old(model.answered)|);
      attempt := attempt + 1;
    }
  }
}
