/** The slot store: the session's filled_slots dictionary, mapping each domain to
    a dictionary of slot values, plus the reserved key "__negated__" holding the
    list of slot names the student ruled out. Pure queries are functions; the two
    operations that update the caller's dictionary in place are methods of
    `Store`, whose `slots` field is that dictionary. */
module Slots {
  import opened Text
  import opened Json
  import opened Schema

  type FilledSlots = map<string, Value>

  const NegatedKey: string := "__negated__"

  /** What the store always satisfies: "__negated__", when present, is a list,
      and every other entry is a dictionary. */
  predicate Shaped(f: FilledSlots) {
    && (NegatedKey in f ==> f[NegatedKey].List?)
    && (forall d :: d in f && d != NegatedKey ==> f[d].Dict?)
  }

  /** ensure_domain_dict: the slot dictionary stored for `d`, or an empty one when
      the entry is missing or not a dictionary. */
  function DomainDict(f: FilledSlots, d: string): (r: map<string, Value>)
    ensures forall s :: SlotValue(f, d, s) == Get(r, s)
    ensures d !in f || !f[d].Dict? ==> r == map[]
  {
    if d in f && f[d].Dict? then f[d].fields else map[]
  }

  /** is_slot_allowed: a schema slot of the domain, or the domain's generic slot. */
  predicate IsSlotAllowed(d: string, s: string) {
    (IsDomain(d) && s in SlotsOf(d)) || GenericSlotName(d) == Some(s)
  }

  /** get_slot_value */
  function SlotValue(f: FilledSlots, d: string, s: string): Value {
    if d in f && f[d].Dict? then Get(f[d].fields, s) else Null
  }

  /** is_slot_negated */
  predicate IsSlotNegated(f: FilledSlots, s: string) {
    NegatedKey in f && f[NegatedKey].List? && Str(s) in f[NegatedKey].items
  }

  /** The allowed pairs are the schema's pairs plus the two generic slots. */
  lemma SlotAllowedIff(d: string, s: string)
    ensures IsSlotAllowed(d, s) <==>
      || s in SlotsOf(d)
      || (d == "distractions" && s == "general_distraction")
      || (d == "academic_confidence" && s == "exam_feeling")
  {
    GenericLookups(d);
  }

  // ---------------------------------------------------------------------
  // Negation list

  /** `list(filled_slots.get("__negated__", []))` for a shaped store. */
  function NegatedList(f: FilledSlots): seq<Value> {
    if NegatedKey in f && f[NegatedKey].List? then f[NegatedKey].items else []
  }

  /** The values the argument names would be stored as: each name stripped. */
  function Candidates(names: seq<string>): (r: seq<Value>)
    ensures |r| == |names|
    ensures forall k :: 0 <= k < |names| ==> r[k] == Str(Strip(names[k]))
  {
    seq(|names|, k requires 0 <= k < |names| => Str(Strip(names[k])))
  }

  /** The add_negated_slots loop over the stripped names: each non-blank one not
      yet listed is appended, in argument order. */
  function AppendNames(existing: seq<Value>, cands: seq<Value>): (r: seq<Value>)
    ensures existing <= r
    decreases |cands|
  {
    if cands == [] then existing
    else
      var next := if cands[0] != Str([]) && cands[0] !in existing then existing + [cands[0]] else existing;
      AppendNames(next, cands[1..])
  }

  /** The store after add_negated_slots: left alone for an empty argument or when
      the resulting list is empty. */
  function WithNegated(f: FilledSlots, names: seq<string>): (r: FilledSlots)
    ensures names == [] ==> r == f
  {
    if names == [] then f
    else
      var existing := AppendNames(NegatedList(f), Candidates(names));
      if existing != [] then f[NegatedKey := List(existing)] else f
  }

  /** A non-blank candidate ends up in the list. */
  lemma {:induction false} AppendNamesHas(existing: seq<Value>, cands: seq<Value>, k: nat)
    requires k < |cands| && cands[k] != Str([])
    ensures cands[k] in AppendNames(existing, cands)
    decreases |cands|
  {
    var next := if cands[0] != Str([]) && cands[0] !in existing then existing + [cands[0]] else existing;
    if k == 0 {
      assert cands[0] in next;
    } else {
      assert cands[1..][k - 1] == cands[k];
      AppendNamesHas(next, cands[1..], k - 1);
    }
  }

  /** Nothing but the old entries and the candidates is listed. */
  lemma {:induction false} AppendNamesFrom(existing: seq<Value>, cands: seq<Value>, v: Value)
    requires v in AppendNames(existing, cands)
    ensures v in existing || v in cands
    decreases |cands|
  {
    if cands != [] {
      var next := if cands[0] != Str([]) && cands[0] !in existing then existing + [cands[0]] else existing;
      AppendNamesFrom(next, cands[1..], v);
    }
  }

  /** Appending candidates that are all listed already changes nothing. */
  lemma {:induction false} AppendNamesPresent(existing: seq<Value>, cands: seq<Value>)
    requires forall k :: 0 <= k < |cands| && cands[k] != Str([]) ==> cands[k] in existing
    ensures AppendNames(existing, cands) == existing
    decreases |cands|
  {
    if cands != [] {
      assert forall k :: 0 <= k < |cands[1..]| ==> cands[1..][k] == cands[k + 1];
      AppendNamesPresent(existing, cands[1..]);
    }
  }

  /** No name is listed twice when the old list had no repeats. */
  lemma {:induction false} AppendNamesNoDup(existing: seq<Value>, cands: seq<Value>)
    requires NoDup(existing)
    ensures NoDup(AppendNames(existing, cands))
    decreases |cands|
  {
    if cands != [] {
      var next := if cands[0] != Str([]) && cands[0] !in existing then existing + [cands[0]] else existing;
      AppendNamesNoDup(next, cands[1..]);
    }
  }

  /** add_negated_slots is idempotent and keeps the store shaped. */
  lemma NegateIdempotent(f: FilledSlots, names: seq<string>)
    requires Shaped(f)
    ensures WithNegated(WithNegated(f, names), names) == WithNegated(f, names)
    ensures Shaped(WithNegated(f, names))
  {
    if names != [] {
      var cands := Candidates(names);
      var existing := AppendNames(NegatedList(f), cands);
      forall k | 0 <= k < |cands| && cands[k] != Str([]) ensures cands[k] in existing {
        AppendNamesHas(NegatedList(f), cands, k);
      }
      if existing == [] {
        AppendNamesPresent(NegatedList(f), cands);
      } else {
        var g := f[NegatedKey := List(existing)];
        assert NegatedList(g) == existing;
        AppendNamesPresent(existing, cands);
        assert g[NegatedKey := List(existing)] == g;
      }
    }
  }

  /** After add_negated_slots an argument name that is non-blank after stripping
      is negated. */
  lemma NegatedAfterHas(f: FilledSlots, names: seq<string>, k: nat)
    requires k < |names| && Strip(names[k]) != []
    ensures IsSlotNegated(WithNegated(f, names), Strip(names[k]))
  {
    var cands := Candidates(names);
    var existing := AppendNames(NegatedList(f), cands);
    AppendNamesHas(NegatedList(f), cands, k);
    NegatedIn(f, existing, Strip(names[k]));
  }

  /** add_negated_slots keeps what was negated, and negates nothing but the
      stripped argument names. */
  lemma NegatedAfterOnly(f: FilledSlots, names: seq<string>, s: string)
    ensures IsSlotNegated(f, s) ==> IsSlotNegated(WithNegated(f, names), s)
    ensures IsSlotNegated(WithNegated(f, names), s) ==> IsSlotNegated(f, s) || exists k :: 0 <= k < |names| && Strip(names[k]) == s
  {
    if names != [] {
      var cands := Candidates(names);
      var existing := AppendNames(NegatedList(f), cands);
      if existing != [] {
        NegatedIn(f, existing, s);
        if Str(s) in existing && Str(s) !in NegatedList(f) {
          AppendNamesFrom(NegatedList(f), cands, Str(s));
          var k :| 0 <= k < |cands| && cands[k] == Str(s);
          assert Strip(names[k]) == s;
        }
      }
    }
  }

  /** Negation after the list is replaced by a longer one. */
  lemma NegatedIn(f: FilledSlots, existing: seq<Value>, s: string)
    requires NegatedList(f) <= existing
    ensures IsSlotNegated(f, s) ==> IsSlotNegated(f[NegatedKey := List(existing)], s)
    ensures IsSlotNegated(f[NegatedKey := List(existing)], s) <==> Str(s) in existing
    ensures IsSlotNegated(f, s) <==> Str(s) in NegatedList(f)
  {
  }

  // ---------------------------------------------------------------------
  // Slot values

  /** The store after assigning `v` to (d, s): the domain's dictionary gains or
      replaces that one slot. */
  function Assign(f: FilledSlots, d: string, s: string, v: Value): (r: FilledSlots)
    ensures SlotValue(r, d, s) == v
    ensures forall d2, s2 :: (d2, s2) != (d, s) ==> SlotValue(r, d2, s2) == SlotValue(f, d2, s2)
    ensures forall k :: k != d ==> (k in r <==> k in f) && (k in f ==> r[k] == f[k])
  {
    f[d := Dict(DomainDict(f, d)[s := v])]
  }

  /** set_slot_value: ignored for a disallowed pair. */
  function SlotsAfterSet(f: FilledSlots, d: string, s: string, v: Value): (r: FilledSlots)
    ensures !IsSlotAllowed(d, s) ==> r == f
    ensures IsSlotAllowed(d, s) ==> SlotValue(r, d, s) == v
    ensures forall d2, s2 :: (d2, s2) != (d, s) ==> SlotValue(r, d2, s2) == SlotValue(f, d2, s2)
  {
    if IsSlotAllowed(d, s) then Assign(f, d, s, v) else f
  }

  /** Writing a slot keeps the store shaped, since "__negated__" is never a domain. */
  lemma SetSlotValueShaped(f: FilledSlots, d: string, s: string, v: Value)
    requires Shaped(f)
    ensures Shaped(SlotsAfterSet(f, d, s, v))
    ensures NegatedList(SlotsAfterSet(f, d, s, v)) == NegatedList(f)
  {
    if IsSlotAllowed(d, s) {
      SlotAllowedIff(d, s);
      NegatedKeyNotDomain(d);
    }
  }

  lemma NegatedKeyNotDomain(d: string)
    requires IsDomain(d) || GenericSlotName(d).Some? || SlotsOf(d) != []
    ensures d != NegatedKey
  {
    SchemaDomainsExact();
    GenericLookups(d);
  }

  /** One step of the append loop. */
  lemma AppendNamesStep(existing: seq<Value>, cands: seq<Value>, i: int)
    requires 0 <= i < |cands|
    ensures AppendNames(existing, cands[i..]) ==
      AppendNames(if cands[i] != Str([]) && cands[i] !in existing then existing + [cands[i]] else existing, cands[i + 1..])
  {
    DropStep(cands, i);
  }

  /** The loop of add_negated_slots: each stripped, non-blank name not yet
      listed is appended. */
  method AppendStripped(start: seq<Value>, names: seq<string>) returns (existing: seq<Value>)
    ensures existing == AppendNames(start, Candidates(names))
  {
    ghost var cands := Candidates(names);
    existing := start;
    var i := 0;
    while i < |names|
      invariant 0 <= i <= |names|
      invariant AppendNames(existing, cands[i..]) == AppendNames(start, cands)
    {
      var name := Strip(names[i]);
      AppendNamesStep(existing, cands, i);
      if name != [] && Str(name) !in existing {
        existing := existing + [Str(name)];
      }
      i := i + 1;
    }
    assert cands[i..] == [];
  }

  /** The mutable store. */
  class Store {
    var slots: FilledSlots

    constructor (initial: FilledSlots)
      ensures slots == initial
    {
      slots := initial;
    }

    /** add_negated_slots, updating the dictionary in place. */
    method AddNegatedSlots(names: seq<string>)
      modifies this
      ensures slots == WithNegated(old(slots), names)
    {
      if names == [] {
        return;
      }
      var existing := AppendStripped(NegatedList(slots), names);
      if existing != [] {
        slots := slots[NegatedKey := List(existing)];
      }
    }

    /** set_slot_value, updating the dictionary in place. */
    method SetSlotValue(d: string, s: string, v: Value)
      modifies this
      ensures slots == SlotsAfterSet(old(slots), d, s, v)
    {
      if !IsSlotAllowed(d, s) {
        return;
      }
      var domainData := DomainDict(slots, d);
      domainData := domainData[s := v];
      slots := slots[d := Dict(domainData)];
    }
  }

  // ---------------------------------------------------------------------
  // Missing slots

  /** The missing pairs of one domain, in schema order. */
  function MissingOf(f: FilledSlots, d: string, ss: seq<string>): (r: seq<(string, string)>)
  {
    if ss == [] then []
    else
      var last := ss[|ss| - 1];
      MissingOf(f, d, ss[..|ss| - 1]) + (if IsEmptyValue(SlotValue(f, d, last)) then [(d, last)] else [])
  }

  /** A domain's missing pairs are its slots whose value is empty. */
  lemma {:induction false} MissingOfMembers(f: FilledSlots, d: string, ss: seq<string>, p: (string, string))
    ensures p in MissingOf(f, d, ss) <==> p.0 == d && p.1 in ss && IsEmptyValue(SlotValue(f, d, p.1))
  {
    if ss != [] {
      var init := ss[..|ss| - 1];
      InitLast(ss);
      MissingOfMembers(f, d, init, p);
    }
  }

  /** get_missing_slots over a domain-to-slots table: active domains in their given
      order, each domain's slots in table order, keeping the pairs whose value is
      None, "", [] or {}. */
  function MissingIn(table: seq<(string, seq<string>)>, active: seq<string>, f: FilledSlots): seq<(string, string)>
  {
    if active == [] then []
    else
      var d := active[|active| - 1];
      MissingIn(table, active[..|active| - 1], f) + MissingOf(f, d, ListOf(table, d))
  }

  /** get_missing_slots on SLOT_SCHEMA. */
  function MissingSlots(active: seq<string>, f: FilledSlots): seq<(string, string)> {
    MissingIn(SlotSchema, active, f)
  }

  lemma {:induction false} MissingInMembers(table: seq<(string, seq<string>)>, active: seq<string>, f: FilledSlots, d: string, s: string)
    ensures (d, s) in MissingIn(table, active, f) <==> d in active && s in ListOf(table, d) && IsEmptyValue(SlotValue(f, d, s))
  {
    if active != [] {
      var init, last := active[..|active| - 1], active[|active| - 1];
      MissingInMembers(table, init, f, d, s);
      MissingOfMembers(f, last, ListOf(table, last), (d, s));
      assert MissingIn(table, active, f) == MissingIn(table, init, f) + MissingOf(f, last, ListOf(table, last));
      InitLast(active);
    }
  }

  /** A pair is missing exactly when its domain is active, it is a schema slot of
      that domain and its stored value is None, "", [] or {}. */
  lemma MissingSlotsMembers(active: seq<string>, f: FilledSlots, d: string, s: string)
    ensures (d, s) in MissingSlots(active, f) <==> d in active && s in SlotsOf(d) && IsEmptyValue(SlotValue(f, d, s))
  {
    MissingInMembers(SlotSchema, active, f, d, s);
  }

  /** Generic slots and unknown domains never appear among the missing pairs. */
  lemma MissingSlotsSchemaOnly(active: seq<string>, f: FilledSlots, d: string, s: string)
    requires (d, s) in MissingSlots(active, f)
    ensures IsDomain(d) && s in SlotsOf(d)
    ensures GenericSlotName(d) != Some(s)
  {
    MissingSlotsMembers(active, f, d, s);
    if GenericSlotName(d).Some? {
      GenericSlotsOutsideSchema(d);
    }
  }

  /** Appending an active domain appends that domain's missing pairs: the pairs are
      grouped by domain in active_domains order. */
  lemma MissingInAppend(table: seq<(string, seq<string>)>, active: seq<string>, d: string, f: FilledSlots)
    ensures MissingIn(table, active + [d], f) == MissingIn(table, active, f) + MissingOf(f, d, ListOf(table, d))
  {
    SnocInit(active, d);
  }

  /** The inner get_missing_slots loop over one domain's schema slots. */
  method CollectMissing(f: FilledSlots, d: string, ss: seq<string>) returns (out: seq<(string, string)>)
    ensures out == MissingOf(f, d, ss)
  {
    out := [];
    var j := 0;
    while j < |ss|
      invariant 0 <= j <= |ss|
      invariant out == MissingOf(f, d, ss[..j])
    {
      TakeStep(ss, j);
      if IsEmptyValue(SlotValue(f, d, ss[j])) {
        out := out + [(d, ss[j])];
      }
      j := j + 1;
    }
    TakeAll(ss);
  }

  /** get_missing_slots, building the list in place; `table` is SLOT_SCHEMA. */
  method ComputeMissingIn(table: seq<(string, seq<string>)>, active: seq<string>, f: FilledSlots)
    returns (missing: seq<(string, string)>)
    ensures missing == MissingIn(table, active, f)
  {
    missing := [];
    var i := 0;
    while i < |active|
      invariant 0 <= i <= |active|
      invariant missing == MissingIn(table, active[..i], f)
    {
      var d := active[i];
      var part := CollectMissing(f, d, ListOf(table, d));
      TakeStep(active, i);
      missing := missing + part;
      i := i + 1;
    }
    TakeAll(active);
  }

  method ComputeMissingSlots(active: seq<string>, f: FilledSlots) returns (missing: seq<(string, string)>)
    ensures missing == MissingSlots(active, f)
  {
    missing := ComputeMissingIn(SlotSchema, active, f);
  }

  // ---------------------------------------------------------------------
  // Emotion signals

  /** The signal rules of infer_emotion_signals read these slots; each must be a
      string or falsy (the Python code calls .lower() on `value or ""`), inside a
      domain entry that is a dictionary or falsy. */
  predicate SignalInputsReadable(f: FilledSlots) {
    && (forall d :: d in ["academic_confidence", "motivation", "distractions"] && d in f ==> DictLike(f[d]))
    && TextLike(Get(DictOr(Get(f, "academic_confidence")), "exam_feeling"))
    && TextLike(Get(DictOr(Get(f, "academic_confidence")), "concept_confidence"))
    && TextLike(Get(DictOr(Get(f, "motivation")), "demotivation_reason"))
    && TextLike(Get(DictOr(Get(f, "distractions")), "general_distraction"))
  }

  /** The lower-cased text of a slot that SignalInputsReadable covers. */
  function SlotText(f: FilledSlots, d: string, s: string): string
    requires TextLike(Get(DictOr(Get(f, d)), s))
  {
    Lower(TextOr(Get(DictOr(Get(f, d)), s)))
  }

  const EmotionSignalNames: seq<string> := ["self_doubt", "pressure", "panic", "distraction"]

  /** Whether each signal fires. */
  predicate SignalFires(f: FilledSlots, signal: string)
    requires SignalInputsReadable(f)
  {
    var exam := SlotText(f, "academic_confidence", "exam_feeling");
    var concept := SlotText(f, "academic_confidence", "concept_confidence");
    var demotivation := SlotText(f, "motivation", "demotivation_reason");
    var general := SlotText(f, "distractions", "general_distraction");
    || (signal == "self_doubt" && (Contains(concept, "low") || Contains(exam, "not made")))
    || (signal == "pressure" && Contains(exam, "pressure"))
    || (signal == "panic" && (Contains(demotivation, "not made") || Contains(demotivation, "can't do")))
    || (signal == "distraction" && (Contains(general, "all day") || Contains(general, "whole day")))
  }

  /** infer_emotion_signals. Python returns list(set), whose order is unspecified;
      the model lists the fired signals in a fixed order. */
  function InferEmotionSignals(f: FilledSlots): (r: seq<string>)
    requires SignalInputsReadable(f)
    ensures NoDup(r)
    ensures forall x :: x in r <==> x in EmotionSignalNames && SignalFires(f, x)
  {
    assert NoDup(EmotionSignalNames) by {
      forall i, j | 0 <= i < j < 4 ensures EmotionSignalNames[i] != EmotionSignalNames[j] {
        assert EmotionSignalNames[i][0] != EmotionSignalNames[j][0] || EmotionSignalNames[i][1] != EmotionSignalNames[j][1];
      }
    }
    Filter(f, EmotionSignalNames)
  }

  function Filter(f: FilledSlots, names: seq<string>): (r: seq<string>)
    requires SignalInputsReadable(f)
    requires NoDup(names)
    ensures NoDup(r)
    ensures forall x :: x in r <==> x in names && SignalFires(f, x)
  {
    if names == [] then []
    else
      var rest := Filter(f, names[1..]);
      assert names[0] !in names[1..];
      if SignalFires(f, names[0]) then [names[0]] + rest else rest
  }
}
