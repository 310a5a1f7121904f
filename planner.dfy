/** The domain planner: which schema domains a cause map activates, and which
    slot to ask about next. The next slot is found by a three-tier first-match
    search over the missing slots, consulting a gate oracle at most once per
    (domain, slot) pair in one search. */
module Planner {
  import opened Text
  import opened Json
  import opened Schema
  import opened Slots
  import opened Oracles

  // ---------------------------------------------------------------------
  // Cause gating

  /** DOMAIN_CAUSE_MAP: the cause keys that allow each domain. */
  const DomainCauseMap: seq<(string, seq<string>)> := [
    ("family_pressure", ["family_pressure"]),
    ("distractions", ["digital_distraction"]),
    ("social_comparison", ["social_distraction"]),
    ("academic_confidence", ["academic_confidence"]),
    ("time_pressure", ["time_pressure"])
  ]

  /** The detected causes; a missing map (`causes or {}`) is the empty map. */
  type Causes = map<string, bool>

  /** A domain-to-cause-keys table such as DOMAIN_CAUSE_MAP. */
  type CauseTable = seq<(string, seq<string>)>

  /** `bool(causes.get(key))` */
  predicate CauseOn(causes: Causes, key: string) {
    key in causes && causes[key]
  }

  /** is_domain_allowed_by_cause over a cause table: some cause key listed for
      the domain is on; a domain without keys is never allowed. */
  predicate AllowedByCauseIn(table: seq<(string, seq<string>)>, d: string, causes: Causes) {
    var keys := ListOf(table, d);
    exists k :: 0 <= k < |keys| && CauseOn(causes, keys[k])
  }

  predicate IsDomainAllowedByCause(d: string, causes: Causes) {
    AllowedByCauseIn(DomainCauseMap, d, causes)
  }

  /** Each of the five mapped domains is allowed exactly by its own cause;
      motivation and backlog_stress never are. */
  lemma DomainCauseIff(d: string, causes: Causes)
    ensures IsDomainAllowedByCause(d, causes) <==>
      || (d == "family_pressure" && CauseOn(causes, "family_pressure"))
      || (d == "distractions" && CauseOn(causes, "digital_distraction"))
      || (d == "social_comparison" && CauseOn(causes, "social_distraction"))
      || (d == "academic_confidence" && CauseOn(causes, "academic_confidence"))
      || (d == "time_pressure" && CauseOn(causes, "time_pressure"))
  {
    CauseKeys(d);
    var keys := ListOf(DomainCauseMap, d);
    if keys != [] {
      assert |keys| == 1;
      assert IsDomainAllowedByCause(d, causes) <==> CauseOn(causes, keys[0]);
    }
  }

  /** The cause keys listed for each domain. */
  lemma CauseKeys(d: string)
    ensures ListOf(DomainCauseMap, d) ==
      if d == "family_pressure" then ["family_pressure"]
      else if d == "distractions" then ["digital_distraction"]
      else if d == "social_comparison" then ["social_distraction"]
      else if d == "academic_confidence" then ["academic_confidence"]
      else if d == "time_pressure" then ["time_pressure"]
      else []
  {
    assert KeysOf(DomainCauseMap) ==
      ["family_pressure", "distractions", "social_comparison", "academic_confidence", "time_pressure"];
  }

  /** The domains of `order` that the causes allow, in `order`'s order. */
  function ActivateIn(order: seq<string>, causes: Causes): (r: seq<string>)
    ensures forall d :: d in r <==> d in order && IsDomainAllowedByCause(d, causes)
    ensures IsSubseq(r, order)
  {
    if order == [] then []
    else
      var rest := ActivateIn(order[1..], causes);
      if IsDomainAllowedByCause(order[0], causes) then
        ConsTail(order[0], rest);
        [order[0]] + rest
      else
        SubseqCons(rest, order);
        rest
  }

  /** activate_domains_from_causes */
  function ActivateDomains(causes: Causes): (r: seq<string>)
    ensures IsSubseq(r, PriorityOrder)
  {
    ActivateIn(PriorityOrder, causes)
  }

  /** The activated domains are exactly the prioritised domains whose mapped
      cause is on; motivation and backlog_stress are never activated. */
  lemma ActivateDomainsSpec(causes: Causes, d: string)
    ensures d in ActivateDomains(causes) <==> d in PriorityOrder && IsDomainAllowedByCause(d, causes)
    ensures "motivation" !in ActivateDomains(causes)
    ensures "backlog_stress" !in ActivateDomains(causes)
  {
    DomainCauseIff("motivation", causes);
    DomainCauseIff("backlog_stress", causes);
  }

  // ---------------------------------------------------------------------
  // The search, as a specification

  type Pair = (string, string)

  /** The slot name tier three returns for a domain's generic question. */
  const GenericMarker: string := "__generic__"

  /** `domain_question_count.get(domain, 0)` */
  function CountOf(counts: map<string, int>, d: string): int {
    if d in counts then counts[d] else 0
  }

  /** The gate's memo: the answer for each pair asked so far. */
  type Approvals = map<Pair, bool>

  /** `_eligible(domain, slot)` once the gate's answer for the pair is known. */
  predicate Eligible(p: Pair, cm: CauseTable, f: FilledSlots, causes: Causes, approvals: Approvals) {
    && !IsSlotNegated(f, p.1)
    && AllowedByCauseIn(cm, p.0, causes)
    && p in approvals && approvals[p]
  }

  /** A pair whose eligibility is settled negatively: further gate answers for
      other pairs cannot make it eligible. */
  predicate Rejected(p: Pair, cm: CauseTable, f: FilledSlots, causes: Causes, approvals: Approvals) {
    || IsSlotNegated(f, p.1)
    || !AllowedByCauseIn(cm, p.0, causes)
    || (p in approvals && !approvals[p])
  }

  /** Every pair of the list is rejected. */
  predicate AllRejected(xs: seq<Pair>, cm: CauseTable, f: FilledSlots, causes: Causes, approvals: Approvals) {
    forall q <- xs :: Rejected(q, cm, f, causes, approvals)
  }

  /** How a first-match scan of `xs` ended: a hit sits at some position whose
      every earlier pair was rejected; no hit means every pair was rejected.
      A pair the gate was never asked is not rejected, so a scan that skips a
      candidate without putting it to the gate does not meet this. */
  predicate Decided(xs: seq<Pair>, hit: Option<Pair>, cm: CauseTable, f: FilledSlots, causes: Causes, approvals: Approvals) {
    if hit.Some? then exists k :: 0 <= k < |xs| && xs[k] == hit.value && AllRejected(xs[..k], cm, f, causes, approvals)
    else AllRejected(xs, cm, f, causes, approvals)
  }

  /** `slots_by_domain.get(domain, [])`: the missing pairs of one domain, in order. */
  function SlotsFor(missing: seq<Pair>, d: string): (r: seq<Pair>)
  {
    if missing == [] then []
    else
      var last := missing[|missing| - 1];
      SlotsFor(missing[..|missing| - 1], d) + (if last.0 == d then [last] else [])
  }

  /** The pairs grouped under a domain are exactly its missing pairs. */
  lemma {:induction false} SlotsForMembers(missing: seq<Pair>, d: string, p: Pair)
    ensures p in SlotsFor(missing, d) <==> p in missing && p.0 == d
  {
    if missing != [] {
      var init := missing[..|missing| - 1];
      InitLast(missing);
      SlotsForMembers(init, d, p);
    }
  }

  /** The pairs tier one tries: for each domain of `order` that is active and
      under its cap, that domain's missing pairs. */
  function Tier1(order: seq<string>, active: seq<string>, missing: seq<Pair>, counts: map<string, int>, maxDomain: int): (r: seq<Pair>)
  {
    if order == [] then []
    else
      var d := order[|order| - 1];
      Tier1(order[..|order| - 1], active, missing, counts, maxDomain)
        + (if d in active && CountOf(counts, d) < maxDomain then SlotsFor(missing, d) else [])
  }

  /** The pairs tier two tries: the missing pairs whose domain is under its cap. */
  function Tier2(missing: seq<Pair>, counts: map<string, int>, maxDomain: int): (r: seq<Pair>)
  {
    if missing == [] then []
    else
      var p := missing[|missing| - 1];
      Tier2(missing[..|missing| - 1], counts, maxDomain) + (if CountOf(counts, p.0) < maxDomain then [p] else [])
  }

  /** The first eligible pair of a list. */
  function FirstEligible(ps: seq<Pair>, cm: CauseTable, f: FilledSlots, causes: Causes, approvals: Approvals): (r: Option<Pair>)
    ensures r.Some? ==> r.value in ps && Eligible(r.value, cm, f, causes, approvals)
    ensures r.None? ==> forall p <- ps :: !Eligible(p, cm, f, causes, approvals)
  {
    if ps == [] then None
    else if Eligible(ps[0], cm, f, causes, approvals) then Some(ps[0])
    else FirstEligible(ps[1..], cm, f, causes, approvals)
  }

  /** A domain tier three accepts: under its cap, allowed by the causes, with a
      generic slot whose stored value is falsy. The negation list plays no part. */
  predicate GenericOpen(d: string, counts: map<string, int>, maxDomain: int, cm: CauseTable, f: FilledSlots, causes: Causes) {
    && CountOf(counts, d) < maxDomain
    && AllowedByCauseIn(cm, d, causes)
    && GenericSlotName(d).Some?
    && Falsy(SlotValue(f, d, GenericSlotName(d).value))
  }

  /** Tier three: the first active domain that accepts its generic question. */
  function GenericPick(active: seq<string>, counts: map<string, int>, maxDomain: int, cm: CauseTable, f: FilledSlots, causes: Causes): (r: Option<Pair>)
    ensures r.Some? ==> r.value.1 == GenericMarker && r.value.0 in active && GenericOpen(r.value.0, counts, maxDomain, cm, f, causes)
    ensures r.None? ==> forall d <- active :: !GenericOpen(d, counts, maxDomain, cm, f, causes)
  {
    if active == [] then None
    else if GenericOpen(active[0], counts, maxDomain, cm, f, causes) then Some((active[0], GenericMarker))
    else GenericPick(active[1..], counts, maxDomain, cm, f, causes)
  }

  /** pick_next_slot, given the gate's answers: the first eligible pair of tier
      one, then of tier two, then tier three. */
  function Pick(order: seq<string>, active: seq<string>, missing: seq<Pair>, counts: map<string, int>, maxDomain: int,
                cm: CauseTable, f: FilledSlots, causes: Causes, approvals: Approvals): Option<Pair>
  {
    var hit := FirstEligible(Tier1(order, active, missing, counts, maxDomain) + Tier2(missing, counts, maxDomain), cm, f, causes, approvals);
    if hit.Some? then hit else GenericPick(active, counts, maxDomain, cm, f, causes)
  }

  lemma {:induction false} Tier1Append(a: seq<string>, b: seq<string>, active: seq<string>, missing: seq<Pair>, counts: map<string, int>, maxDomain: int)
    ensures Tier1(a + b, active, missing, counts, maxDomain) == Tier1(a, active, missing, counts, maxDomain) + Tier1(b, active, missing, counts, maxDomain)
    decreases |b|
  {
    if b == [] {
      AppendEmpty(a);
    } else {
      var init, d := b[..|b| - 1], b[|b| - 1];
      var step := if d in active && CountOf(counts, d) < maxDomain then SlotsFor(missing, d) else [];
      calc {
        Tier1(a + b, active, missing, counts, maxDomain);
        { AppendInit(a, b); Tier1Last(a + b, active, missing, counts, maxDomain); }
        Tier1(a + init, active, missing, counts, maxDomain) + step;
        { Tier1Append(a, init, active, missing, counts, maxDomain); }
        (Tier1(a, active, missing, counts, maxDomain) + Tier1(init, active, missing, counts, maxDomain)) + step;
        { AppendAssoc(Tier1(a, active, missing, counts, maxDomain), Tier1(init, active, missing, counts, maxDomain), step); }
        Tier1(a, active, missing, counts, maxDomain) + (Tier1(init, active, missing, counts, maxDomain) + step);
        { Tier1Last(b, active, missing, counts, maxDomain); }
        Tier1(a, active, missing, counts, maxDomain) + Tier1(b, active, missing, counts, maxDomain);
      }
    }
  }

  /** Tier one of a non-empty order ends with the slots of its last domain. */
  lemma Tier1Last(order: seq<string>, active: seq<string>, missing: seq<Pair>, counts: map<string, int>, maxDomain: int)
    requires order != []
    ensures var d := order[|order| - 1];
      Tier1(order, active, missing, counts, maxDomain) == Tier1(order[..|order| - 1], active, missing, counts, maxDomain)
        + (if d in active && CountOf(counts, d) < maxDomain then SlotsFor(missing, d) else [])
  {
  }

  lemma {:induction false} Tier2Append(a: seq<Pair>, b: seq<Pair>, counts: map<string, int>, maxDomain: int)
    ensures Tier2(a + b, counts, maxDomain) == Tier2(a, counts, maxDomain) + Tier2(b, counts, maxDomain)
    decreases |b|
  {
    if b == [] {
      AppendEmpty(a);
    } else {
      AppendInit(a, b);
      Tier2Append(a, b[..|b| - 1], counts, maxDomain);
    }
  }

  /** Tier one tries exactly the missing pairs of active, prioritised domains
      under their cap. */
  lemma {:induction false} Tier1Members(order: seq<string>, active: seq<string>, missing: seq<Pair>, counts: map<string, int>, maxDomain: int, p: Pair)
    ensures p in Tier1(order, active, missing, counts, maxDomain) <==>
      p in missing && p.0 in order && p.0 in active && CountOf(counts, p.0) < maxDomain
  {
    if order != [] {
      var init := order[..|order| - 1];
      InitLast(order);
      Tier1Members(init, active, missing, counts, maxDomain, p);
      SlotsForMembers(missing, order[|order| - 1], p);
    }
  }

  /** Tier two tries exactly the missing pairs whose domain is under its cap. */
  lemma {:induction false} Tier2Members(missing: seq<Pair>, counts: map<string, int>, maxDomain: int, p: Pair)
    ensures p in Tier2(missing, counts, maxDomain) <==> p in missing && CountOf(counts, p.0) < maxDomain
  {
    if missing != [] {
      var init := missing[..|missing| - 1];
      InitLast(missing);
      Tier2Members(init, counts, maxDomain, p);
    }
  }

  /** First match over two lists is first match over the first list, else over
      the second. */
  lemma {:induction false} FirstEligibleAppend(a: seq<Pair>, b: seq<Pair>, cm: CauseTable, f: FilledSlots, causes: Causes, approvals: Approvals)
    ensures FirstEligible(a + b, cm, f, causes, approvals) ==
      if FirstEligible(a, cm, f, causes, approvals).Some? then FirstEligible(a, cm, f, causes, approvals)
      else FirstEligible(b, cm, f, causes, approvals)
  {
    if a != [] {
      AppendTail(a, b);
      FirstEligibleAppend(a[1..], b, cm, f, causes, approvals);
    } else {
      AppendEmpty(b);
    }
  }

  /** The tiers in order: tier one's first eligible pair wins; tier two runs only
      when tier one has none; tier three only when neither has one. */
  lemma PickTiers(order: seq<string>, active: seq<string>, missing: seq<Pair>, counts: map<string, int>, maxDomain: int,
                  cm: CauseTable, f: FilledSlots, causes: Causes, approvals: Approvals)
    ensures
      var t1 := FirstEligible(Tier1(order, active, missing, counts, maxDomain), cm, f, causes, approvals);
      var t2 := FirstEligible(Tier2(missing, counts, maxDomain), cm, f, causes, approvals);
      Pick(order, active, missing, counts, maxDomain, cm, f, causes, approvals) ==
        if t1.Some? then t1 else if t2.Some? then t2 else GenericPick(active, counts, maxDomain, cm, f, causes)
  {
    FirstEligibleAppend(Tier1(order, active, missing, counts, maxDomain), Tier2(missing, counts, maxDomain), cm, f, causes, approvals);
  }

  /** What a picked pair satisfies: either a missing, non-negated, cause-allowed
      pair under its domain's cap that the gate approved, or the generic marker
      of an active domain that tier three accepts. Nothing is picked only when
      no pair is eligible and no active domain accepts its generic question. */
  lemma PickSound(order: seq<string>, active: seq<string>, missing: seq<Pair>, counts: map<string, int>, maxDomain: int,
                  cm: CauseTable, f: FilledSlots, causes: Causes, approvals: Approvals)
    ensures
      var r := Pick(order, active, missing, counts, maxDomain, cm, f, causes, approvals);
      && (r.Some? ==>
        || (r.value in missing && CountOf(counts, r.value.0) < maxDomain && !IsSlotNegated(f, r.value.1)
            && AllowedByCauseIn(cm, r.value.0, causes) && r.value in approvals && approvals[r.value])
        || (r.value.1 == GenericMarker && r.value.0 in active && GenericOpen(r.value.0, counts, maxDomain, cm, f, causes)))
      && (r.None? ==>
        && (forall p <- missing :: CountOf(counts, p.0) < maxDomain ==> !Eligible(p, cm, f, causes, approvals))
        && (forall d <- active :: !GenericOpen(d, counts, maxDomain, cm, f, causes)))
  {
    var t1 := Tier1(order, active, missing, counts, maxDomain);
    var t2 := Tier2(missing, counts, maxDomain);
    var hit := FirstEligible(t1 + t2, cm, f, causes, approvals);
    if hit.Some? {
      var p := hit.value;
      if p in t1 {
        Tier1Members(order, active, missing, counts, maxDomain, p);
      } else {
        Tier2Members(missing, counts, maxDomain, p);
      }
    } else {
      forall p <- missing | CountOf(counts, p.0) < maxDomain
        ensures !Eligible(p, cm, f, causes, approvals)
      {
        Tier2Members(missing, counts, maxDomain, p);
        assert p in t1 + t2;
      }
    }
  }

  /** Tier three ignores the negation list: negating any names leaves its answer
      unchanged. */
  lemma {:induction false} GenericIgnoresNegation(active: seq<string>, counts: map<string, int>, maxDomain: int,
                                                  cm: CauseTable, f: FilledSlots, causes: Causes, names: seq<string>)
    ensures GenericPick(active, counts, maxDomain, cm, WithNegated(f, names), causes) == GenericPick(active, counts, maxDomain, cm, f, causes)
  {
    if active != [] {
      GenericOpenIgnoresNegation(active[0], counts, maxDomain, cm, f, causes, names);
      GenericIgnoresNegation(active[1..], counts, maxDomain, cm, f, causes, names);
    }
  }

  /** One domain's tier-three test does not read the negation list. */
  lemma GenericOpenIgnoresNegation(d: string, counts: map<string, int>, maxDomain: int,
                                   cm: CauseTable, f: FilledSlots, causes: Causes, names: seq<string>)
    ensures GenericOpen(d, counts, maxDomain, cm, WithNegated(f, names), causes) == GenericOpen(d, counts, maxDomain, cm, f, causes)
  {
    if GenericSlotName(d).Some? {
      GenericLookups(d);
      assert d != NegatedKey;
      assert SlotValue(WithNegated(f, names), d, GenericSlotName(d).value) == SlotValue(f, d, GenericSlotName(d).value);
    }
  }

  // ---------------------------------------------------------------------
  // The gate and its memo

  /** What the gate is asked: (user_text, domain, slot). */
  type GateQuery = (string, string, string)

  /** should_ask_slot's verdict for one reply: the truthiness of "ask" in a JSON
      object; any failure, including a reply that is not an object, fails open. */
  function GateAnswer(reply: Reply<Value>): (ok: bool)
    ensures !reply.Parsed? ==> ok
    ensures reply.Parsed? && reply.value.Dict? ==> (ok <==> !Falsy(Get(reply.value.fields, "ask")))
  {
    match reply
    case Parsed(v) => if v.Dict? then !Falsy(Get(v.fields, "ask")) else true
    case Malformed => true
    case Crashed => true
  }

  function PairOf(q: GateQuery): Pair {
    (q.1, q.2)
  }

  function PairsOf(qs: seq<GateQuery>): (ps: seq<Pair>)
    ensures |ps| == |qs| && forall i :: 0 <= i < |qs| ==> ps[i] == PairOf(qs[i])
  {
    seq(|qs|, i requires 0 <= i < |qs| => PairOf(qs[i]))
  }

  /** The memo a run of gate calls leaves: each asked pair with its verdict. */
  function Memo(qs: seq<GateQuery>, rs: seq<Reply<Value>>): (m: Approvals)
    requires |qs| == |rs|
    ensures forall p :: p in m <==> p in PairsOf(qs)
  {
    if qs == [] then map[]
    else
      var n := |qs| - 1;
      assert PairsOf(qs) == PairsOf(qs[..n]) + [PairOf(qs[n])];
      Memo(qs[..n], rs[..n])[PairOf(qs[n]) := GateAnswer(rs[n])]
  }

  /** A run of gate calls and replies is recorded in `cache`, asks each pair at
      most once, and always carries the user's text. */
  predicate LoggedRun(qs: seq<GateQuery>, rs: seq<Reply<Value>>, userText: string, cache: Approvals) {
    && |qs| == |rs|
    && cache == Memo(qs, rs)
    && NoDup(PairsOf(qs))
    && forall q <- qs :: q.0 == userText
  }

  /** One more call, for a pair not asked yet, keeps the run recorded. */
  lemma LoggedRunStep(qs: seq<GateQuery>, rs: seq<Reply<Value>>, userText: string, cache: Approvals,
                      p: Pair, reply: Reply<Value>)
    requires LoggedRun(qs, rs, userText, cache) && p !in cache
    ensures LoggedRun(qs + [(userText, p.0, p.1)], rs + [reply], userText, cache[p := GateAnswer(reply)])
  {
    var qs', rs' := qs + [(userText, p.0, p.1)], rs + [reply];
    SnocInit(qs, (userText, p.0, p.1));
    SnocInit(rs, reply);
    assert PairsOf(qs') == PairsOf(qs) + [p];
    assert p !in PairsOf(qs);
  }

  /** The gate's log extends (`a0`, `b0`), and the calls since then form a
      recorded run. */
  ghost predicate Logged(gate: Oracle<GateQuery, Value>, a0: seq<GateQuery>, b0: seq<Reply<Value>>, userText: string, cache: Approvals)
    reads gate
  {
    && |a0| <= |gate.asked| && gate.asked[..|a0|] == a0
    && |b0| <= |gate.answered| && gate.answered[..|b0|] == b0
    && LoggedRun(gate.asked[|a0|..], gate.answered[|b0|..], userText, cache)
  }

  /** `_eligible`: the negation and cause checks first; the gate is asked only
      for a pair it has not answered yet in this search. */
  method CheckEligible(p: Pair, userText: string, cm: CauseTable, f: FilledSlots, causes: Causes, cache: Approvals,
                       gate: Oracle<GateQuery, Value>, ghost a0: seq<GateQuery>, ghost b0: seq<Reply<Value>>)
    returns (ok: bool, next: Approvals)
    requires Logged(gate, a0, b0, userText, cache)
    modifies gate
    ensures Logged(gate, a0, b0, userText, next)
    ensures Extends(cache, next)
    ensures ok == Eligible(p, cm, f, causes, next)
    ensures !ok ==> Rejected(p, cm, f, causes, next)
  {
    next := cache;
    if IsSlotNegated(f, p.1) || !AllowedByCauseIn(cm, p.0, causes) {
      return false, next;
    }
    if p !in cache {
      ghost var qs, rs := gate.asked, gate.answered;
      var reply := gate.Ask((userText, p.0, p.1));
      next := cache[p := GateAnswer(reply)];
      DropSnoc(qs, (userText, p.0, p.1), |a0|);
      DropSnoc(rs, reply, |b0|);
      TakeSnoc(qs, (userText, p.0, p.1), |a0|);
      TakeSnoc(rs, reply, |b0|);
      LoggedRunStep(qs[|a0|..], rs[|b0|..], userText, cache, p, reply);
    }
    ok := next[p];
  }

  /** Tier one around the domain at index i. */
  lemma Tier1Split(order: seq<string>, i: int, active: seq<string>, missing: seq<Pair>, counts: map<string, int>, maxDomain: int)
    requires 0 <= i < |order| && order[i] in active && CountOf(counts, order[i]) < maxDomain
    ensures Tier1(order, active, missing, counts, maxDomain) ==
      Tier1(order[..i], active, missing, counts, maxDomain) + (SlotsFor(missing, order[i]) + Tier1(order[i + 1..], active, missing, counts, maxDomain))
  {
    var pre, rest := order[..i + 1], order[i + 1..];
    var t := Tier1(order[..i], active, missing, counts, maxDomain);
    calc {
      Tier1(order, active, missing, counts, maxDomain);
      { TakeDrop(order, i + 1); }
      Tier1(pre + rest, active, missing, counts, maxDomain);
      { Tier1Append(pre, rest, active, missing, counts, maxDomain); }
      Tier1(pre, active, missing, counts, maxDomain) + Tier1(rest, active, missing, counts, maxDomain);
      { TakeStep(order, i); }
      (t + SlotsFor(missing, order[i])) + Tier1(rest, active, missing, counts, maxDomain);
    }
  }

  /** Tier one grows by one domain's block per step. */
  lemma Tier1Step(order: seq<string>, i: int, active: seq<string>, missing: seq<Pair>, counts: map<string, int>, maxDomain: int)
    requires 0 <= i < |order|
    ensures Tier1(order[..i + 1], active, missing, counts, maxDomain) ==
      Tier1(order[..i], active, missing, counts, maxDomain)
        + (if order[i] in active && CountOf(counts, order[i]) < maxDomain then SlotsFor(missing, order[i]) else [])
  {
    TakeStep(order, i);
  }

  /** Rejections survive further gate answers for other pairs. */
  lemma RejectedKept(xs: seq<Pair>, cm: CauseTable, f: FilledSlots, causes: Causes, c: Approvals, c': Approvals)
    requires AllRejected(xs, cm, f, causes, c)
    requires Extends(c, c')
    ensures AllRejected(xs, cm, f, causes, c')
  {
  }

  /** Tier two around the pair at index m. */
  lemma Tier2Split(missing: seq<Pair>, m: int, counts: map<string, int>, maxDomain: int)
    requires 0 <= m < |missing| && CountOf(counts, missing[m].0) < maxDomain
    ensures Tier2(missing, counts, maxDomain) ==
      Tier2(missing[..m], counts, maxDomain) + ([missing[m]] + Tier2(missing[m + 1..], counts, maxDomain))
  {
    var pre := missing[..m + 1];
    TakeStep(missing, m);
    assert Tier2(pre, counts, maxDomain) == Tier2(missing[..m], counts, maxDomain) + [missing[m]];
    Tier2Append(pre, missing[m + 1..], counts, maxDomain);
    TakeDrop(missing, m + 1);
  }

  /** Rejected pairs in front do not change the first match. */
  lemma {:induction false} FirstAfterRejected(xs: seq<Pair>, ys: seq<Pair>, cm: CauseTable, f: FilledSlots, causes: Causes, approvals: Approvals)
    requires AllRejected(xs, cm, f, causes, approvals)
    ensures FirstEligible(xs + ys, cm, f, causes, approvals) == FirstEligible(ys, cm, f, causes, approvals)
  {
    if xs != [] {
      assert xs[0] in xs;
      AppendTail(xs, ys);
      FirstAfterRejected(xs[1..], ys, cm, f, causes, approvals);
    } else {
      AppendEmpty(ys);
    }
  }

  /** An eligible pair after only rejected ones is the first match. */
  lemma FirstAt(xs: seq<Pair>, j: int, cm: CauseTable, f: FilledSlots, causes: Causes, approvals: Approvals)
    requires 0 <= j < |xs| && Eligible(xs[j], cm, f, causes, approvals)
    requires AllRejected(xs[..j], cm, f, causes, approvals)
    ensures FirstEligible(xs, cm, f, causes, approvals) == Some(xs[j])
  {
    TakeDrop(xs, j);
    DropStep(xs, j);
    FirstAfterRejected(xs[..j], xs[j..], cm, f, causes, approvals);
  }

  /** A rejected pair extends a rejected prefix. */
  lemma RejectedPrefix(xs: seq<Pair>, j: int, cm: CauseTable, f: FilledSlots, causes: Causes, approvals: Approvals)
    requires 0 <= j < |xs| && Rejected(xs[j], cm, f, causes, approvals)
    requires AllRejected(xs[..j], cm, f, causes, approvals)
    ensures AllRejected(xs[..j + 1], cm, f, causes, approvals)
  {
    TakeStep(xs, j);
  }

  /** A hit found inside `mid`, after a rejected `pre`, is decided in the
      whole list. */
  lemma DecidedInside(pre: seq<Pair>, mid: seq<Pair>, post: seq<Pair>, hit: Option<Pair>,
                      cm: CauseTable, f: FilledSlots, causes: Causes, approvals: Approvals)
    requires hit.Some? && Decided(mid, hit, cm, f, causes, approvals)
    requires AllRejected(pre, cm, f, causes, approvals)
    ensures Decided(pre + (mid + post), hit, cm, f, causes, approvals)
  {
    var k :| 0 <= k < |mid| && mid[k] == hit.value && AllRejected(mid[..k], cm, f, causes, approvals);
    var xs := pre + (mid + post);
    assert xs[|pre| + k] == mid[k];
    assert xs[..|pre| + k] == pre + mid[..k];
  }

  /** Two rejected lists make a rejected list. */
  lemma RejectedBoth(xs: seq<Pair>, ys: seq<Pair>, cm: CauseTable, f: FilledSlots, causes: Causes, approvals: Approvals)
    requires AllRejected(xs, cm, f, causes, approvals) && AllRejected(ys, cm, f, causes, approvals)
    ensures AllRejected(xs + ys, cm, f, causes, approvals)
  {
  }

  /** Only rejected pairs: no match. */
  lemma NoHit(xs: seq<Pair>, cm: CauseTable, f: FilledSlots, causes: Causes, approvals: Approvals)
    requires AllRejected(xs, cm, f, causes, approvals)
    ensures FirstEligible(xs, cm, f, causes, approvals) == None
  {
    FirstAfterRejected(xs, [], cm, f, causes, approvals);
    AppendEmpty(xs);
  }

  // ---------------------------------------------------------------------
  // The search, as the source runs it

  /** `byDomain` maps each domain to its missing pairs, in order. */
  ghost predicate Grouped(missing: seq<Pair>, byDomain: map<string, seq<Pair>>) {
    forall d :: SlotsFor(missing, d) == (if d in byDomain then byDomain[d] else [])
  }

  /** slots_by_domain: the missing pairs grouped by domain, in order. */
  method GroupByDomain(missing: seq<Pair>) returns (byDomain: map<string, seq<Pair>>)
    ensures Grouped(missing, byDomain)
  {
    byDomain := map[];
    var k := 0;
    while k < |missing|
      invariant 0 <= k <= |missing|
      invariant forall d :: SlotsFor(missing[..k], d) == (if d in byDomain then byDomain[d] else [])
    {
      var p := missing[k];
      TakeStep(missing, k);
      byDomain := byDomain[p.0 := (if p.0 in byDomain then byDomain[p.0] else []) + [p]];
      k := k + 1;
    }
    TakeAll(missing);
  }

  /** Tier three from index `a` on: the domain at `a`, if it is open, else the
      rest. */
  lemma GenericStep(active: seq<string>, a: int, counts: map<string, int>, maxDomain: int, cm: CauseTable, f: FilledSlots, causes: Causes)
    requires 0 <= a < |active|
    ensures GenericPick(active[a..], counts, maxDomain, cm, f, causes)
            == if GenericOpen(active[a], counts, maxDomain, cm, f, causes) then Some((active[a], GenericMarker))
               else GenericPick(active[a + 1..], counts, maxDomain, cm, f, causes)
  {
    DropStep(active, a);
  }

  /** The checks tier three makes of one domain, in the source's order. */
  method CheckGeneric(d: string, counts: map<string, int>, maxDomain: int, cm: CauseTable, f: FilledSlots, causes: Causes)
    returns (open: bool)
    ensures open <==> GenericOpen(d, counts, maxDomain, cm, f, causes)
  {
    if CountOf(counts, d) >= maxDomain {
      return false;
    }
    if !AllowedByCauseIn(cm, d, causes) {
      return false;
    }
    var generic := GenericSlotName(d);
    if generic.None? {
      return false;
    }
    open := Falsy(SlotValue(f, d, generic.value));
  }

  /** Tier three as a scan of the active domains. */
  method PickGeneric(active: seq<string>, counts: map<string, int>, maxDomain: int, cm: CauseTable, f: FilledSlots, causes: Causes)
    returns (r: Option<Pair>)
    ensures r == GenericPick(active, counts, maxDomain, cm, f, causes)
  {
    var a := 0;
    while a < |active|
      invariant 0 <= a <= |active|
      invariant GenericPick(active[a..], counts, maxDomain, cm, f, causes) == GenericPick(active, counts, maxDomain, cm, f, causes)
    {
      var d := active[a];
      GenericStep(active, a, counts, maxDomain, cm, f, causes);
      var open := CheckGeneric(d, counts, maxDomain, cm, f, causes);
      if open {
        return Some((d, GenericMarker));
      }
      a := a + 1;
    }
    return None;
  }

  /** One step of tier one's inner loop: the pair at index j, after the earlier
      pairs were all rejected. */
  method DomainRound(slots: seq<Pair>, j: int, userText: string, cm: CauseTable, f: FilledSlots, causes: Causes, cache: Approvals,
                     gate: Oracle<GateQuery, Value>, ghost a0: seq<GateQuery>, ghost b0: seq<Reply<Value>>)
    returns (hit: Option<Pair>, next: Approvals)
    requires 0 <= j < |slots|
    requires Logged(gate, a0, b0, userText, cache)
    requires AllRejected(slots[..j], cm, f, causes, cache)
    modifies gate
    ensures Logged(gate, a0, b0, userText, next)
    ensures Extends(cache, next)
    ensures hit.Some? ==> hit == FirstEligible(slots, cm, f, causes, next)
    ensures hit.Some? ==> hit.value == slots[j] && AllRejected(slots[..j], cm, f, causes, next)
    ensures hit.None? ==> AllRejected(slots[..j + 1], cm, f, causes, next)
  {
    var ok;
    ok, next := CheckEligible(slots[j], userText, cm, f, causes, cache, gate, a0, b0);
    RejectedKept(slots[..j], cm, f, causes, cache, next);
    if ok {
      FirstAt(slots, j, cm, f, causes, next);
      return Some(slots[j]), next;
    }
    RejectedPrefix(slots, j, cm, f, causes, next);
    hit := None;
  }

  /** Tier one's inner loop: one domain's missing pairs, in order, until the first
      eligible one. */
  method ScanDomain(slots: seq<Pair>, userText: string, cm: CauseTable, f: FilledSlots, causes: Causes, cache: Approvals,
                    gate: Oracle<GateQuery, Value>, ghost a0: seq<GateQuery>, ghost b0: seq<Reply<Value>>)
    returns (hit: Option<Pair>, next: Approvals)
    requires Logged(gate, a0, b0, userText, cache)
    modifies gate
    ensures Logged(gate, a0, b0, userText, next)
    ensures Extends(cache, next)
    ensures hit == FirstEligible(slots, cm, f, causes, next)
    ensures Decided(slots, hit, cm, f, causes, next)
  {
    hit, next := None, cache;
    var j := 0;
    while j < |slots| && hit.None?
      invariant 0 <= j <= |slots|
      invariant Logged(gate, a0, b0, userText, next)
      invariant Extends(cache, next)
      invariant hit.None? ==> AllRejected(slots[..j], cm, f, causes, next)
      invariant hit.Some? ==> hit == FirstEligible(slots, cm, f, causes, next)
      invariant hit.Some? ==> Decided(slots, hit, cm, f, causes, next)
    {
      hit, next := DomainRound(slots, j, userText, cm, f, causes, next, gate, a0, b0);
      j := j + 1;
    }
    if hit.None? {
      TakeAll(slots);
      NoHit(slots, cm, f, causes, next);
    }
  }

  /** The verdicts in `c` are kept, unchanged, in `c'`. */
  predicate Extends(c: Approvals, c': Approvals) {
    forall q <- c.Keys :: q in c' && c'[q] == c[q]
  }

  /** One round of tier one: the domain at index i, after the earlier domains'
      pairs were all rejected. */
  method Tier1Round(order: seq<string>, i: int, active: seq<string>, missing: seq<Pair>, counts: map<string, int>, maxDomain: int,
                    byDomain: map<string, seq<Pair>>, userText: string, cm: CauseTable, f: FilledSlots, causes: Causes, cache: Approvals,
                    gate: Oracle<GateQuery, Value>, ghost a0: seq<GateQuery>, ghost b0: seq<Reply<Value>>)
    returns (hit: Option<Pair>, next: Approvals)
    requires 0 <= i < |order| && Grouped(missing, byDomain)
    requires Logged(gate, a0, b0, userText, cache)
    requires AllRejected(Tier1(order[..i], active, missing, counts, maxDomain), cm, f, causes, cache)
    modifies gate
    ensures Logged(gate, a0, b0, userText, next)
    ensures Extends(cache, next)
    ensures hit.Some? ==> hit == FirstEligible(Tier1(order, active, missing, counts, maxDomain), cm, f, causes, next)
    ensures hit.Some? ==> Decided(Tier1(order, active, missing, counts, maxDomain), hit, cm, f, causes, next)
    ensures hit.None? ==> AllRejected(Tier1(order[..i + 1], active, missing, counts, maxDomain), cm, f, causes, next)
  {
    var d := order[i];
    ghost var seen := Tier1(order[..i], active, missing, counts, maxDomain);
    Tier1Step(order, i, active, missing, counts, maxDomain);
    if !(d in active && CountOf(counts, d) < maxDomain) {
      return None, cache;
    }
    var slots := if d in byDomain then byDomain[d] else [];
    assert slots == SlotsFor(missing, d);
    hit, next := ScanDomain(slots, userText, cm, f, causes, cache, gate, a0, b0);
    RejectedKept(seen, cm, f, causes, cache, next);
    if hit.Some? {
      var after := Tier1(order[i + 1..], active, missing, counts, maxDomain);
      Tier1Split(order, i, active, missing, counts, maxDomain);
      FirstAfterRejected(seen, slots + after, cm, f, causes, next);
      FirstEligibleAppend(slots, after, cm, f, causes, next);
      DecidedInside(seen, slots, after, hit, cm, f, causes, next);
    }
  }

  /** Tier one: the active domains of `order` under their cap, each with its
      missing pairs. */
  method ScanTier1(order: seq<string>, active: seq<string>, missing: seq<Pair>, counts: map<string, int>, maxDomain: int,
                   byDomain: map<string, seq<Pair>>, userText: string, cm: CauseTable, f: FilledSlots, causes: Causes, cache: Approvals,
                   gate: Oracle<GateQuery, Value>, ghost a0: seq<GateQuery>, ghost b0: seq<Reply<Value>>)
    returns (hit: Option<Pair>, next: Approvals)
    requires Grouped(missing, byDomain)
    requires Logged(gate, a0, b0, userText, cache)
    modifies gate
    ensures Logged(gate, a0, b0, userText, next)
    ensures Extends(cache, next)
    ensures hit == FirstEligible(Tier1(order, active, missing, counts, maxDomain), cm, f, causes, next)
    ensures Decided(Tier1(order, active, missing, counts, maxDomain), hit, cm, f, causes, next)
  {
    hit, next := None, cache;
    var i := 0;
    while i < |order| && hit.None?
      invariant 0 <= i <= |order|
      invariant Logged(gate, a0, b0, userText, next)
      invariant Extends(cache, next)
      invariant hit.None? ==> AllRejected(Tier1(order[..i], active, missing, counts, maxDomain), cm, f, causes, next)
      invariant hit.Some? ==> hit == FirstEligible(Tier1(order, active, missing, counts, maxDomain), cm, f, causes, next)
      invariant hit.Some? ==> Decided(Tier1(order, active, missing, counts, maxDomain), hit, cm, f, causes, next)
    {
      hit, next := Tier1Round(order, i, active, missing, counts, maxDomain, byDomain, userText, cm, f, causes, next, gate, a0, b0);
      i := i + 1;
    }
    if hit.None? {
      TakeAll(order);
      NoHit(Tier1(order, active, missing, counts, maxDomain), cm, f, causes, next);
    }
  }

  /** Tier two grows by at most one pair per step. */
  lemma Tier2Step(missing: seq<Pair>, m: int, counts: map<string, int>, maxDomain: int)
    requires 0 <= m < |missing|
    ensures Tier2(missing[..m + 1], counts, maxDomain) ==
      Tier2(missing[..m], counts, maxDomain) + (if CountOf(counts, missing[m].0) < maxDomain then [missing[m]] else [])
  {
    TakeStep(missing, m);
  }

  /** One round of tier two: the pair at index m, after the earlier pairs were
      all rejected. */
  method Tier2Round(missing: seq<Pair>, m: int, counts: map<string, int>, maxDomain: int,
                    userText: string, cm: CauseTable, f: FilledSlots, causes: Causes, cache: Approvals,
                    gate: Oracle<GateQuery, Value>, ghost a0: seq<GateQuery>, ghost b0: seq<Reply<Value>>)
    returns (hit: Option<Pair>, next: Approvals)
    requires 0 <= m < |missing|
    requires Logged(gate, a0, b0, userText, cache)
    requires AllRejected(Tier2(missing[..m], counts, maxDomain), cm, f, causes, cache)
    modifies gate
    ensures Logged(gate, a0, b0, userText, next)
    ensures Extends(cache, next)
    ensures hit.Some? ==> hit == FirstEligible(Tier2(missing, counts, maxDomain), cm, f, causes, next)
    ensures hit.Some? ==> Decided(Tier2(missing, counts, maxDomain), hit, cm, f, causes, next)
    ensures hit.None? ==> AllRejected(Tier2(missing[..m + 1], counts, maxDomain), cm, f, causes, next)
  {
    var p := missing[m];
    ghost var seen := Tier2(missing[..m], counts, maxDomain);
    Tier2Step(missing, m, counts, maxDomain);
    if CountOf(counts, p.0) >= maxDomain {
      return None, cache;
    }
    var ok;
    ok, next := CheckEligible(p, userText, cm, f, causes, cache, gate, a0, b0);
    RejectedKept(seen, cm, f, causes, cache, next);
    if ok {
      Tier2Split(missing, m, counts, maxDomain);
      FirstAfterRejected(seen, [p] + Tier2(missing[m + 1..], counts, maxDomain), cm, f, causes, next);
      assert [p][..0] == [];
      DecidedInside(seen, [p], Tier2(missing[m + 1..], counts, maxDomain), Some(p), cm, f, causes, next);
      return Some(p), next;
    }
    hit := None;
  }

  /** Tier two: the missing pairs in the given order, skipping domains at their cap. */
  method ScanTier2(missing: seq<Pair>, counts: map<string, int>, maxDomain: int,
                   userText: string, cm: CauseTable, f: FilledSlots, causes: Causes, cache: Approvals,
                   gate: Oracle<GateQuery, Value>, ghost a0: seq<GateQuery>, ghost b0: seq<Reply<Value>>)
    returns (hit: Option<Pair>, next: Approvals)
    requires Logged(gate, a0, b0, userText, cache)
    modifies gate
    ensures Logged(gate, a0, b0, userText, next)
    ensures Extends(cache, next)
    ensures hit == FirstEligible(Tier2(missing, counts, maxDomain), cm, f, causes, next)
    ensures Decided(Tier2(missing, counts, maxDomain), hit, cm, f, causes, next)
  {
    hit, next := None, cache;
    var m := 0;
    while m < |missing| && hit.None?
      invariant 0 <= m <= |missing|
      invariant Logged(gate, a0, b0, userText, next)
      invariant Extends(cache, next)
      invariant hit.None? ==> AllRejected(Tier2(missing[..m], counts, maxDomain), cm, f, causes, next)
      invariant hit.Some? ==> hit == FirstEligible(Tier2(missing, counts, maxDomain), cm, f, causes, next)
      invariant hit.Some? ==> Decided(Tier2(missing, counts, maxDomain), hit, cm, f, causes, next)
    {
      hit, next := Tier2Round(missing, m, counts, maxDomain, userText, cm, f, causes, next, gate, a0, b0);
      m := m + 1;
    }
    if hit.None? {
      TakeAll(missing);
      NoHit(Tier2(missing, counts, maxDomain), cm, f, causes, next);
    }
  }

  /** What pick_next_slot's search of tiers one and two leaves in the memo: a
      named pick comes after pairs that were all rejected, by the negation
      list, by the causes or by the gate; a generic pick, or none, comes only
      after every pair of both tiers was rejected. */
  predicate Searched(order: seq<string>, active: seq<string>, missing: seq<Pair>, counts: map<string, int>, maxDomain: int,
                     cm: CauseTable, f: FilledSlots, causes: Causes, approvals: Approvals) {
    var t := Tier1(order, active, missing, counts, maxDomain) + Tier2(missing, counts, maxDomain);
    Decided(t, FirstEligible(t, cm, f, causes, approvals), cm, f, causes, approvals)
  }

  /** A tier-one hit, decided, settles the search. */
  lemma SearchedByTier1(order: seq<string>, active: seq<string>, missing: seq<Pair>, counts: map<string, int>, maxDomain: int,
                        cm: CauseTable, f: FilledSlots, causes: Causes, approvals: Approvals)
    requires var t1 := Tier1(order, active, missing, counts, maxDomain);
      FirstEligible(t1, cm, f, causes, approvals).Some? && Decided(t1, FirstEligible(t1, cm, f, causes, approvals), cm, f, causes, approvals)
    ensures Searched(order, active, missing, counts, maxDomain, cm, f, causes, approvals)
    ensures FirstEligible(Tier1(order, active, missing, counts, maxDomain) + Tier2(missing, counts, maxDomain), cm, f, causes, approvals)
            == FirstEligible(Tier1(order, active, missing, counts, maxDomain), cm, f, causes, approvals)
  {
    var t1, t2 := Tier1(order, active, missing, counts, maxDomain), Tier2(missing, counts, maxDomain);
    FirstEligibleAppend(t1, t2, cm, f, causes, approvals);
    assert [] + (t1 + t2) == t1 + t2;
    DecidedInside([], t1, t2, FirstEligible(t1, cm, f, causes, approvals), cm, f, causes, approvals);
  }

  /** A rejected tier one followed by a decided tier two settles the search. */
  lemma SearchedByTier2(order: seq<string>, active: seq<string>, missing: seq<Pair>, counts: map<string, int>, maxDomain: int,
                        cm: CauseTable, f: FilledSlots, causes: Causes, approvals: Approvals)
    requires AllRejected(Tier1(order, active, missing, counts, maxDomain), cm, f, causes, approvals)
    requires var t2 := Tier2(missing, counts, maxDomain);
      Decided(t2, FirstEligible(t2, cm, f, causes, approvals), cm, f, causes, approvals)
    ensures Searched(order, active, missing, counts, maxDomain, cm, f, causes, approvals)
    ensures FirstEligible(Tier1(order, active, missing, counts, maxDomain) + Tier2(missing, counts, maxDomain), cm, f, causes, approvals)
            == FirstEligible(Tier2(missing, counts, maxDomain), cm, f, causes, approvals)
  {
    var t1, t2 := Tier1(order, active, missing, counts, maxDomain), Tier2(missing, counts, maxDomain);
    FirstAfterRejected(t1, t2, cm, f, causes, approvals);
    var hit := FirstEligible(t2, cm, f, causes, approvals);
    if hit.Some? {
      assert t1 + (t2 + []) == t1 + t2;
      DecidedInside(t1, t2, [], hit, cm, f, causes, approvals);
    } else {
      RejectedBoth(t1, t2, cm, f, causes, approvals);
    }
  }

  /** What a searched memo means for the pick: when tiers one and two yield no
      pair, the pick is tier three's and the gate answered "no" for every pair
      of both tiers that passed the negation and cause checks; otherwise the
      pick is a pair preceded only by rejected pairs. */
  lemma SearchedPick(order: seq<string>, active: seq<string>, missing: seq<Pair>, counts: map<string, int>, maxDomain: int,
                     cm: CauseTable, f: FilledSlots, causes: Causes, approvals: Approvals)
    requires Searched(order, active, missing, counts, maxDomain, cm, f, causes, approvals)
    ensures var t := Tier1(order, active, missing, counts, maxDomain) + Tier2(missing, counts, maxDomain);
      var r := Pick(order, active, missing, counts, maxDomain, cm, f, causes, approvals);
      && (FirstEligible(t, cm, f, causes, approvals).None? ==>
            && r == GenericPick(active, counts, maxDomain, cm, f, causes)
            && forall p <- t :: !IsSlotNegated(f, p.1) && AllowedByCauseIn(cm, p.0, causes) ==> p in approvals && !approvals[p])
      && (FirstEligible(t, cm, f, causes, approvals).Some? ==>
            && r.Some? && Eligible(r.value, cm, f, causes, approvals)
            && exists k :: 0 <= k < |t| && t[k] == r.value && AllRejected(t[..k], cm, f, causes, approvals))
  {
  }

  /** pick_next_slot over a domain order. The result is the specification's pick
      for exactly the verdicts the gate gave in this search; each pair was put to
      the gate at most once, always with the user's text. */
  method PickNextSlotIn(order: seq<string>, active: seq<string>, missing: seq<Pair>, counts: map<string, int>,
                        maxDomain: int, userText: string, cm: CauseTable, f: FilledSlots, causes: Causes, gate: Oracle<GateQuery, Value>)
    returns (r: Option<Pair>)
    modifies gate
    ensures old(gate.asked) <= gate.asked && old(gate.answered) <= gate.answered
    ensures |gate.asked| - |old(gate.asked)| == |gate.answered| - |old(gate.answered)|
    ensures LoggedRun(gate.asked[|old(gate.asked)|..], gate.answered[|old(gate.answered)|..], userText,
                      Memo(gate.asked[|old(gate.asked)|..], gate.answered[|old(gate.answered)|..]))
    ensures r == Pick(order, active, missing, counts, maxDomain, cm, f, causes,
                      Memo(gate.asked[|old(gate.asked)|..], gate.answered[|old(gate.answered)|..]))
    ensures Searched(order, active, missing, counts, maxDomain, cm, f, causes,
                     Memo(gate.asked[|old(gate.asked)|..], gate.answered[|old(gate.answered)|..]))
  {
    var byDomain := GroupByDomain(missing);
    ghost var a0, b0 := gate.asked, gate.answered;
    assert gate.asked[|a0|..] == [] && gate.answered[|b0|..] == [];
    ghost var t1 := Tier1(order, active, missing, counts, maxDomain);
    ghost var t2 := Tier2(missing, counts, maxDomain);
    var hit, cache := ScanTier1(order, active, missing, counts, maxDomain, byDomain, userText, cm, f, causes, map[], gate, a0, b0);
    if hit.Some? {
      SearchedByTier1(order, active, missing, counts, maxDomain, cm, f, causes, cache);
      return hit;
    }
    ghost var cache1 := cache;
    hit, cache := ScanTier2(missing, counts, maxDomain, userText, cm, f, causes, cache, gate, a0, b0);
    RejectedKept(t1, cm, f, causes, cache1, cache);
    SearchedByTier2(order, active, missing, counts, maxDomain, cm, f, causes, cache);
    if hit.Some? {
      return hit;
    }
    r := PickGeneric(active, counts, maxDomain, cm, f, causes);
  }

  /** pick_next_slot: the search in priority order. */
  method PickNextSlot(active: seq<string>, missing: seq<Pair>, counts: map<string, int>, maxDomain: int,
                      userText: string, f: FilledSlots, causes: Causes, gate: Oracle<GateQuery, Value>)
    returns (r: Option<Pair>)
    modifies gate
    ensures old(gate.asked) <= gate.asked && old(gate.answered) <= gate.answered
    ensures |gate.asked| - |old(gate.asked)| == |gate.answered| - |old(gate.answered)|
    ensures LoggedRun(gate.asked[|old(gate.asked)|..], gate.answered[|old(gate.answered)|..], userText,
                      Memo(gate.asked[|old(gate.asked)|..], gate.answered[|old(gate.answered)|..]))
    ensures r == Pick(PriorityOrder, active, missing, counts, maxDomain, DomainCauseMap, f, causes,
                      Memo(gate.asked[|old(gate.asked)|..], gate.answered[|old(gate.answered)|..]))
    ensures Searched(PriorityOrder, active, missing, counts, maxDomain, DomainCauseMap, f, causes,
                     Memo(gate.asked[|old(gate.asked)|..], gate.answered[|old(gate.answered)|..]))
  {
    r := PickNextSlotIn(PriorityOrder, active, missing, counts, maxDomain, userText, DomainCauseMap, f, causes, gate);
  }
}
