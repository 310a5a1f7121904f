/** The interview controller of app/api/session_routes.py: starting a session
    from the student's text, recording answers (with the one-time clarifier and
    the combo answer parsers), choosing the next question (combo prompt, stop
    rule, planner, generic fallback) and completing the session with its
    emotion signals and popups. A session is an object whose fields the
    handlers update in place; the language-model calls are the oracles the
    controller was built with. */
module Interview {
  import opened Text
  import opened Json
  import opened Schema
  import opened Slots
  import opened Oracles
  import opened Stop
  import Relevance
  import Planner
  import Combo
  import Detect
  import Prefill
  import QuestionWriter
  import PopupSchemas
  import PopupValidator
  import PopupGenerator
  import opened Validators

  // ---------------------------------------------------------------------
  // What the store holds

  /** Every slot value a handler writes is a string, so besides being shaped the
      store holds only dictionaries of strings under its domain keys. */
  predicate Stored(f: FilledSlots) {
    && (NegatedKey in f ==> f[NegatedKey].List?)
    && (forall d :: d in f && d != NegatedKey ==> f[d].Dict? && AllText(f[d].fields))
  }

  predicate AllText(m: map<string, Value>) {
    forall s :: s in m ==> m[s].Str?
  }

  /** A stored slot is a string or absent. */
  lemma StoredSlot(f: FilledSlots, d: string, s: string)
    requires Stored(f)
    ensures SlotValue(f, d, s).Str? || SlotValue(f, d, s).Null?
    ensures TextLike(SlotValue(f, d, s))
  {
  }

  /** A named domain entry of a stored store reads as a dictionary of text. */
  lemma StoredSection(f: FilledSlots, d: string, s: string)
    requires Stored(f) && d != NegatedKey
    ensures DictLike(Get(f, d))
    ensures TextLike(Get(DictOr(Get(f, d)), s))
  {
  }

  /** What the store holds is what the signal rules and the popup guard can read
      without raising. */
  lemma StoredReadable(f: FilledSlots)
    requires Stored(f)
    ensures Shaped(f)
    ensures SignalInputsReadable(f)
    ensures PopupValidator.Readable(f)
  {
    StoredSection(f, "academic_confidence", "exam_feeling");
    StoredSection(f, "academic_confidence", "concept_confidence");
    StoredSection(f, "motivation", "demotivation_reason");
    StoredSection(f, "distractions", "general_distraction");
    StoredSection(f, "family_pressure", "family_member");
    StoredSection(f, "distractions", "friend_name");
    StoredSection(f, "social_comparison", "comparison_person");
  }

  /** Writing a string keeps the store a store of strings and its negation
      list as it was. */
  lemma StoredAfterSet(f: FilledSlots, d: string, s: string, v: string)
    requires Stored(f)
    ensures Stored(SlotsAfterSet(f, d, s, Str(v)))
    ensures NegatedList(SlotsAfterSet(f, d, s, Str(v))) == NegatedList(f)
  {
    SetSlotValueShaped(f, d, s, Str(v));
    if IsSlotAllowed(d, s) {
      var m := DomainDict(f, d);
      assert AllText(m[s := Str(v)]);
      assert SlotsAfterSet(f, d, s, Str(v)) == f[d := Dict(m[s := Str(v)])];
    }
  }

  /** Recording negated names keeps the store a store of strings and leaves every
      slot value as it was. */
  lemma StoredAfterNegate(f: FilledSlots, names: seq<string>)
    requires Stored(f)
    ensures Stored(WithNegated(f, names))
    ensures forall d, s :: SlotValue(WithNegated(f, names), d, s) == SlotValue(f, d, s)
  {
  }

  /** `(value or "")` of a stored slot. */
  function SlotString(f: FilledSlots, d: string, s: string): string {
    var v := SlotValue(f, d, s);
    if v.Str? then v.s else []
  }

  // ---------------------------------------------------------------------
  // The session record

  datatype Status = Active | Completed

  /** One entry of the conversation history. */
  datatype Turn = Turn(role: string, text: string)

  /** meta["current_question"]: nothing pending, a slot question or a combo prompt. */
  datatype Pending =
    | NoQuestion
    | SlotQuestion(domain: string, slot: string, question: string)
    | ComboQuestion(comboId: string, question: string)

  /** The session's metadata. combo_history is re-listed from a Python set, whose
      order is not modelled, so it is a set here. */
  datatype Meta = Meta(
    causes: map<string, bool>,
    totalAsked: int,
    domainCounts: map<string, int>,
    clarifierUsed: seq<string>,
    current: Pending,
    lastQuestion: string,
    comboHistory: set<string>,
    emotionSignals: seq<string>)

  /** The metadata of a new session: nothing asked, nothing pending. */
  const InitialMeta: Meta := Meta(map[], 0, map[], [], NoQuestion, [], {}, [])

  /** The domains the interview falls back to when nothing else activates any. */
  const DefaultDomains: seq<string> := ["time_pressure", "distractions", "academic_confidence"]

  /** What a handler answers. */
  datatype Response =
    | Rejected(error: string)
    | Started(activeDomains: seq<string>, prefilled: FilledSlots)
    | Clarify(question: string)
    | FollowFormat(comboId: string)
    | Recorded
    | StillPending(current: Pending)
    | Asked(domain: string, slot: string, question: string)
    | ComboAsked(comboId: string, question: string)
    | Finished(popupCount: nat)

  class Session {
    var status: Status
    const rawText: string
    var history: seq<Turn>
    var activeDomains: seq<string>
    const store: Store
    var meta: Meta
    var popups: seq<PopupSchemas.Popup>

    /** create_session: an active session whose history is the student's text. */
    constructor (text: string)
      ensures status == Active && rawText == text && history == [Turn("user", text)]
      ensures activeDomains == [] && fresh(store) && store.slots == map[]
      ensures meta == InitialMeta && popups == []
    {
      status := Active;
      rawText := text;
      history := [Turn("user", text)];
      activeDomains := [];
      store := new Store(map[]);
      meta := InitialMeta;
      popups := [];
    }

    /** What every handler keeps: some domain is active, the store holds only
        strings and the question count is not negative. */
    ghost predicate Consistent()
      reads this, store
    {
      && activeDomains != []
      && Stored(store.slots)
      && 0 <= meta.totalAsked
    }
  }

  // ---------------------------------------------------------------------
  // Start

  /** `prefill.active_domains or activate_domains_from_causes(causes)`, then the
      default domains when both are empty. */
  function StartDomains(proposed: seq<string>, causes: map<string, bool>): (r: seq<string>)
    ensures r != []
    ensures proposed != [] ==> r == proposed
    ensures proposed == [] && Planner.ActivateDomains(causes) != [] ==> r == Planner.ActivateDomains(causes)
    ensures proposed == [] && Planner.ActivateDomains(causes) == [] ==> r == DefaultDomains
  {
    if proposed != [] then proposed
    else if Planner.ActivateDomains(causes) != [] then Planner.ActivateDomains(causes)
    else DefaultDomains
  }

  /** The value start leaves in a slot: the prefilled text when the pair is
      allowed and proposed, otherwise nothing. */
  function PrefillValue(p: map<string, map<string, string>>, d: string, s: string): Value {
    if d in p && s in p[d] && IsSlotAllowed(d, s) then Str(p[d][s]) else Null
  }

  /** set_slot_value of a string, stated slot by slot. */
  method WriteText(store: Store, d: string, s: string, v: string)
    requires Stored(store.slots)
    modifies store
    ensures Stored(store.slots)
    ensures NegatedList(store.slots) == NegatedList(old(store.slots))
    ensures SlotValue(store.slots, d, s) == (if IsSlotAllowed(d, s) then Str(v) else SlotValue(old(store.slots), d, s))
    ensures forall d2, s2 :: (d2, s2) != (d, s) ==> SlotValue(store.slots, d2, s2) == SlotValue(old(store.slots), d2, s2)
  {
    StoredAfterSet(store.slots, d, s, v);
    store.SetSlotValue(d, s, Str(v));
  }

  /** The inner loop of start's prefill writes: set_slot_value for each slot
      proposed for one domain. */
  method WriteDomain(store: Store, d: string, vals: map<string, string>)
    requires Stored(store.slots)
    modifies store
    ensures Stored(store.slots)
    ensures NegatedList(store.slots) == NegatedList(old(store.slots))
    ensures forall s :: SlotValue(store.slots, d, s) == (if s in vals && IsSlotAllowed(d, s) then Str(vals[s]) else SlotValue(old(store.slots), d, s))
    ensures forall d2, s :: d2 != d ==> SlotValue(store.slots, d2, s) == SlotValue(old(store.slots), d2, s)
  {
    var todo := vals.Keys;
    while todo != {}
      invariant todo <= vals.Keys
      invariant Stored(store.slots)
      invariant NegatedList(store.slots) == NegatedList(old(store.slots))
      invariant forall s :: s in vals && s !in todo && IsSlotAllowed(d, s) ==> SlotValue(store.slots, d, s) == Str(vals[s])
      invariant forall s :: s !in vals || s in todo || !IsSlotAllowed(d, s) ==> SlotValue(store.slots, d, s) == SlotValue(old(store.slots), d, s)
      invariant forall d2, s :: d2 != d ==> SlotValue(store.slots, d2, s) == SlotValue(old(store.slots), d2, s)
      decreases todo
    {
      var s :| s in todo;
      WriteText(store, d, s, vals[s]);
      todo := todo - {s};
    }
  }

  /** The prefill writes of start, domain by domain. */
  method WritePrefill(store: Store, p: map<string, map<string, string>>)
    requires Stored(store.slots)
    modifies store
    ensures Stored(store.slots)
    ensures NegatedList(store.slots) == NegatedList(old(store.slots))
    ensures forall d, s :: SlotValue(store.slots, d, s) == (if d in p && s in p[d] && IsSlotAllowed(d, s) then Str(p[d][s]) else SlotValue(old(store.slots), d, s))
  {
    var todo := p.Keys;
    while todo != {}
      invariant todo <= p.Keys
      invariant Stored(store.slots)
      invariant NegatedList(store.slots) == NegatedList(old(store.slots))
      invariant forall d, s :: SlotValue(store.slots, d, s) == (if d in p && d !in todo && s in p[d] && IsSlotAllowed(d, s) then Str(p[d][s]) else SlotValue(old(store.slots), d, s))
      decreases todo
    {
      var d :| d in todo;
      WriteDomain(store, d, p[d]);
      todo := todo - {d};
    }
  }

  /** start's writes into a new session's empty store: every allowed prefilled
      slot, then the negated names. */
  method ApplyPrefill(store: Store, pr: Prefill.PrefillReply)
    requires store.slots == map[]
    modifies store
    ensures Stored(store.slots)
    ensures forall d, s :: SlotValue(store.slots, d, s) == PrefillValue(pr.prefill, d, s)
    ensures NegatedList(store.slots) == AppendNames([], Candidates(pr.negatedSlots))
  {
    WritePrefill(store, pr.prefill);
    ghost var written := store.slots;
    StoredAfterNegate(written, pr.negatedSlots);
    store.AddNegatedSlots(pr.negatedSlots);
  }

  /** The rest of start on a new session: record the causes, activate the
      proposed domains (else the causes' domains), write the prefill and fall
      back to the default domains. */
  method Configure(session: Session, pr: Prefill.PrefillReply, causes: map<string, bool>)
    requires session.store.slots == map[] && session.meta == InitialMeta
    modifies session, session.store
    ensures session.status == old(session.status) && session.history == old(session.history)
    ensures session.popups == old(session.popups)
    ensures session.meta == InitialMeta.(causes := causes)
    ensures session.Consistent()
    ensures session.activeDomains == StartDomains(pr.activeDomains, causes)
    ensures forall d, s :: SlotValue(session.store.slots, d, s) == PrefillValue(pr.prefill, d, s)
    ensures NegatedList(session.store.slots) == AppendNames([], Candidates(pr.negatedSlots))
  {
    session.meta := session.meta.(causes := causes);
    session.activeDomains := if pr.activeDomains != [] then pr.activeDomains else Planner.ActivateDomains(causes);
    ApplyPrefill(session.store, pr);
    if session.activeDomains == [] {
      session.activeDomains := DefaultDomains;
    }
  }

  // ---------------------------------------------------------------------
  // Answers

  /** `key.split(".", 1)`: the parts before and after the first dot. */
  function SplitKey(key: string): (string, string) {
    var i := IndexOf(key, '.');
    (key[..i], if i < |key| then key[i + 1..] else [])
  }

  /** The parser's "domain.slot" keys recover the pairs they were made from. */
  lemma KeySplitsBack(p: (string, string))
    requires '.' !in p.0
    ensures SplitKey(Combo.SlotKey(p)) == p
  {
    Combo.SplitSlotKey(p);
  }

  /** One write of the combo answer path: set_slot_value at the entry's key. */
  function WriteEntry(f: FilledSlots, e: (string, string)): (r: FilledSlots)
    ensures forall p :: p != SplitKey(e.0) ==> SlotValue(r, p.0, p.1) == SlotValue(f, p.0, p.1)
    ensures IsSlotAllowed(SplitKey(e.0).0, SplitKey(e.0).1) ==> SlotValue(r, SplitKey(e.0).0, SplitKey(e.0).1) == Str(e.1)
  {
    var p := SplitKey(e.0);
    SlotsAfterSet(f, p.0, p.1, Str(e.1))
  }

  /** The store after writing every parsed (key, value) entry in order. */
  function WriteAll(f: FilledSlots, entries: seq<(string, string)>): FilledSlots
    decreases |entries|
  {
    if entries == [] then f else WriteAll(WriteEntry(f, entries[0]), entries[1..])
  }

  /** A pair that no entry names keeps its value. */
  lemma {:induction false} WriteAllUntouched(f: FilledSlots, entries: seq<(string, string)>, p: (string, string))
    requires forall e <- entries :: SplitKey(e.0) != p
    ensures SlotValue(WriteAll(f, entries), p.0, p.1) == SlotValue(f, p.0, p.1)
    decreases |entries|
  {
    if entries != [] {
      assert entries[0] in entries;
      forall e <- entries[1..] ensures SplitKey(e.0) != p {
        assert e in entries;
      }
      WriteAllUntouched(WriteEntry(f, entries[0]), entries[1..], p);
    }
  }

  /** An allowed pair named by an entry that no later entry names again ends up
      holding that entry's text. */
  lemma {:induction false} WriteAllWrites(f: FilledSlots, entries: seq<(string, string)>, k: nat)
    requires k < |entries|
    requires IsSlotAllowed(SplitKey(entries[k].0).0, SplitKey(entries[k].0).1)
    requires forall j :: k < j < |entries| ==> SplitKey(entries[j].0) != SplitKey(entries[k].0)
    ensures SlotValue(WriteAll(f, entries), SplitKey(entries[k].0).0, SplitKey(entries[k].0).1) == Str(entries[k].1)
    decreases |entries|
  {
    var rest := entries[1..];
    var p := SplitKey(entries[k].0);
    if k == 0 {
      forall e <- rest ensures SplitKey(e.0) != p {
        var j :| 0 <= j < |rest| && rest[j] == e;
        assert entries[j + 1] == e;
      }
      WriteAllUntouched(WriteEntry(f, entries[0]), rest, p);
    } else {
      assert rest[k - 1] == entries[k];
      forall j | k - 1 < j < |rest| ensures SplitKey(rest[j].0) != p {
        assert rest[j] == entries[j + 1];
      }
      WriteAllWrites(WriteEntry(f, entries[0]), rest, k - 1);
    }
  }

  lemma {:induction false} WriteAllStored(f: FilledSlots, entries: seq<(string, string)>)
    requires Stored(f)
    ensures Stored(WriteAll(f, entries))
    decreases |entries|
  {
    if entries != [] {
      var p := SplitKey(entries[0].0);
      StoredAfterSet(f, p.0, p.1, entries[0].1);
      WriteAllStored(WriteEntry(f, entries[0]), entries[1..]);
    }
  }

  lemma WriteAllStep(f: FilledSlots, entries: seq<(string, string)>, i: nat)
    requires i < |entries|
    ensures WriteAll(f, entries[i..]) == WriteAll(WriteEntry(f, entries[i]), entries[i + 1..])
  {
    DropStep(entries, i);
  }

  /** The loop of the combo answer path: set_slot_value for every parsed entry. */
  method WriteParsed(store: Store, entries: seq<(string, string)>)
    modifies store
    ensures store.slots == WriteAll(old(store.slots), entries)
  {
    var i := 0;
    while i < |entries|
      invariant 0 <= i <= |entries|
      invariant WriteAll(store.slots, entries[i..]) == WriteAll(old(store.slots), entries)
    {
      var p := SplitKey(entries[i].0);
      WriteAllStep(store.slots, entries, i);
      store.SetSlotValue(p.0, p.1, Str(entries[i].1));
      i := i + 1;
    }
    assert entries[i..] == [];
  }

  /** The combo's hint: COMBO_SPECS.get(combo_id, {}).get("hint", ""). */
  function HintOf(comboId: string): string {
    match Find(ComboSpecs, comboId)
    case Some(spec) => spec.hint
    case None => []
  }

  /** The parser registered for a pending combo prompt, if any. */
  function ParserFor(current: Pending): Option<Combo.Parser> {
    if current.ComboQuestion? then Find(Combo.Parsers, current.comboId) else None
  }

  /** The signals after a combo answer: its emotion is appended when it is a
      non-empty string. */
  function WithEmotion(signals: seq<string>, emotion: Option<string>): (r: seq<string>)
    ensures emotion.Some? && emotion.value != [] ==> r == signals + [emotion.value]
    ensures emotion.None? || emotion.value == [] ==> r == signals
  {
    if emotion.Some? && emotion.value != [] then signals + [emotion.value] else signals
  }

  /** The (domain, slot) an answer is for: the request's, else the pending
      question's; "" stands for an absent or empty value. */
  function Target(current: Pending, domainArg: string, slotArg: string): (string, string) {
    var d := if domainArg != [] then domainArg else if current.SlotQuestion? then current.domain else [];
    var s := if slotArg != [] then slotArg else if current.SlotQuestion? then current.slot else [];
    (d, s)
  }

  /** Whether a slot answer is held back for the one-time clarifier: fewer than
      two words, and no clarifier yet for this key. */
  predicate NeedsClarifier(answer: string, key: string, used: seq<string>) {
    |Words(answer)| < 2 && key !in used
  }

  const MissingTarget: string := "domain/slot missing (no current_question found)"
  const InvalidTarget: string := "invalid domain/slot"
  const AnswerRequired: string := "answer is required"

  /** What the answer handler leaves behind: its response and the session's new
      metadata, slots and history. */
  datatype Step = Step(response: Response, meta: Meta, slots: FilledSlots, history: seq<Turn>)

  /** The slot path of answer: the request's domain and slot, else the pending
      question's, must name an allowed pair and the answer must not be empty; a
      short first answer for a key gets the clarifier instead of being stored,
      any other answer is stored and clears the pending question. */
  function SlotAnswer(meta: Meta, f: FilledSlots, history: seq<Turn>, answer: string, domainArg: string, slotArg: string): Step
  {
    var t := Target(meta.current, domainArg, slotArg);
    if t.0 == [] || t.1 == [] then Step(Rejected(MissingTarget), meta, f, history)
    else if !IsSlotAllowed(t.0, t.1) then Step(Rejected(InvalidTarget), meta, f, history)
    else if answer == [] then Step(Rejected(AnswerRequired), meta, f, history)
    else if NeedsClarifier(answer, t.0 + "." + t.1, meta.clarifierUsed) then
      Step(Clarify(ClarifierQuestion),
           meta.(clarifierUsed := meta.clarifierUsed + [t.0 + "." + t.1], current := SlotQuestion(t.0, t.1, ClarifierQuestion)),
           f, history + [Turn("user", answer), Turn("assistant", ClarifierQuestion)])
    else
      Step(Recorded, meta.(current := NoQuestion), SlotsAfterSet(f, t.0, t.1, Str(answer)), history + [Turn("user", answer)])
  }

  /** The combo path of answer, given what the parser made of the answer: a
      failure asks for the combo's format again and changes nothing; a parse
      writes every parsed slot, appends the emotion and clears the prompt. */
  function ComboAnswerStep(meta: Meta, f: FilledSlots, history: seq<Turn>, answer: string, parsed: Option<Combo.ComboAnswer>): Step
    requires meta.current.ComboQuestion?
  {
    match parsed
    case None => Step(FollowFormat(meta.current.comboId), meta, f, history)
    case Some(p) =>
      Step(Recorded, meta.(current := NoQuestion, emotionSignals := WithEmotion(meta.emotionSignals, p.emotion)),
           WriteAll(f, p.slots), history + [Turn("user", answer)])
  }

  /** answer on an active session: the combo path when a combo prompt with a
      registered parser is pending, the slot path otherwise. */
  function AnswerStep(meta: Meta, f: FilledSlots, history: seq<Turn>, answer: string, domainArg: string, slotArg: string,
                      order: seq<string>): Step
    requires Combo.Enumerates(order, Combo.AllowedEmotions)
  {
    match ParserFor(meta.current)
    case Some(parser) => ComboAnswerStep(meta, f, history, answer, Combo.RunParser(parser, order, answer))
    case None => SlotAnswer(meta, f, history, answer, domainArg, slotArg)
  }

  /** A rejected slot answer changes nothing; a clarifier records its key and
      writes no value; a recorded answer is stored at its target, touches no
      other slot and clears the pending question. */
  lemma SlotAnswerEffects(meta: Meta, f: FilledSlots, history: seq<Turn>, answer: string, domainArg: string, slotArg: string)
    ensures var st := SlotAnswer(meta, f, history, answer, domainArg, slotArg);
      st.response.Rejected? ==> st.meta == meta && st.slots == f && st.history == history
    ensures var st := SlotAnswer(meta, f, history, answer, domainArg, slotArg);
      var t := Target(meta.current, domainArg, slotArg);
      st.response.Clarify? ==>
        && st.slots == f && st.meta.current == SlotQuestion(t.0, t.1, ClarifierQuestion)
        && t.0 + "." + t.1 !in meta.clarifierUsed && st.meta.clarifierUsed == meta.clarifierUsed + [t.0 + "." + t.1]
    ensures var st := SlotAnswer(meta, f, history, answer, domainArg, slotArg);
      var t := Target(meta.current, domainArg, slotArg);
      st.response.Recorded? ==>
        && answer != [] && IsSlotAllowed(t.0, t.1) && SlotValue(st.slots, t.0, t.1) == Str(answer)
        && (forall d, s :: (d, s) != t ==> SlotValue(st.slots, d, s) == SlotValue(f, d, s))
        && st.meta.current == NoQuestion && st.history == history + [Turn("user", answer)]
  {
  }

  /** The clarifier is asked at most once per key: answering it with any
      non-empty text, short or not, stores that text. */
  lemma ClarifierAtMostOnce(meta: Meta, f: FilledSlots, history: seq<Turn>, first: string, second: string,
                            domainArg: string, slotArg: string)
    requires SlotAnswer(meta, f, history, first, domainArg, slotArg).response.Clarify?
    requires second != []
    ensures var st := SlotAnswer(meta, f, history, first, domainArg, slotArg);
      var t := Target(meta.current, domainArg, slotArg);
      var st2 := SlotAnswer(st.meta, st.slots, st.history, second, domainArg, slotArg);
      st2.response == Recorded && SlotValue(st2.slots, t.0, t.1) == Str(second)
  {
    var st := SlotAnswer(meta, f, history, first, domainArg, slotArg);
    var t := Target(meta.current, domainArg, slotArg);
    assert Target(st.meta.current, domainArg, slotArg) == t;
    assert t.0 + "." + t.1 in st.meta.clarifierUsed;
  }

  /** A combo answer that does not parse asks for the format again and changes
      nothing; a parsed one clears the prompt, appends its emotion and leaves
      every slot it does not name as it was. */
  lemma ComboAnswerEffects(meta: Meta, f: FilledSlots, history: seq<Turn>, answer: string, parsed: Option<Combo.ComboAnswer>)
    requires meta.current.ComboQuestion?
    ensures var st := ComboAnswerStep(meta, f, history, answer, parsed);
      parsed.None? ==> st.response == FollowFormat(meta.current.comboId) && st.meta == meta && st.slots == f && st.history == history
    ensures var st := ComboAnswerStep(meta, f, history, answer, parsed);
      parsed.Some? ==>
        && st.response == Recorded && st.meta.current == NoQuestion
        && st.meta.emotionSignals == WithEmotion(meta.emotionSignals, parsed.value.emotion)
        && (forall p :: (forall e <- parsed.value.slots :: SplitKey(e.0) != p) ==> SlotValue(st.slots, p.0, p.1) == SlotValue(f, p.0, p.1))
  {
    if parsed.Some? {
      forall p | forall e <- parsed.value.slots :: SplitKey(e.0) != p
        ensures SlotValue(WriteAll(f, parsed.value.slots), p.0, p.1) == SlotValue(f, p.0, p.1)
      {
        WriteAllUntouched(f, parsed.value.slots, p);
      }
    }
  }

  // ---------------------------------------------------------------------
  // Next question

  /** `not filled_slots.get(domain, {}).get(slot)` */
  predicate Open(f: FilledSlots, p: (string, string)) {
    Falsy(SlotValue(f, p.0, p.1))
  }

  /** The conditions under which next_question considers a combo: not yet
      offered, the combo and the listed domains relevant to the text, and one
      of its probe slots still open. */
  predicate ComboEligible(comboId: string, domains: seq<string>, probes: seq<(string, string)>,
                          offered: set<string>, text: string, f: FilledSlots) {
    && comboId !in offered
    && Relevance.IsComboRelevant(comboId, text)
    && (forall d <- domains :: Relevance.IsDomainRelevant(d, text))
    && (exists p <- probes :: Open(f, p))
  }

  const FriendProbes: seq<(string, string)> :=
    [("distractions", "friend_name"), ("social_comparison", "comparison_person"), ("social_comparison", "comparison_gap")]
  const TimeProbes: seq<(string, string)> :=
    [("distractions", "gaming_app"), ("distractions", "gaming_time"), ("time_pressure", "timetable_breaker")]

  /** The combo next_question selects: only while at most two questions were
      asked, friend_compare_emotion before distraction_time_combo. */
  function ComboChoice(total: int, offered: set<string>, text: string, f: FilledSlots): (r: Option<string>)
  {
    if total > 2 then None
    else if ComboEligible("friend_compare_emotion", ["social_comparison"], FriendProbes, offered, text, f)
    then Some("friend_compare_emotion")
    else if ComboEligible("distraction_time_combo", ["distractions", "time_pressure"], TimeProbes, offered, text, f)
    then Some("distraction_time_combo")
    else None
  }

  /** A combo is chosen only early in the interview and only once per session. */
  lemma ComboChoiceSound(total: int, offered: set<string>, text: string, f: FilledSlots)
    ensures var r := ComboChoice(total, offered, text, f);
      r.Some? ==> total <= 2 && r.value !in offered && Relevance.IsComboRelevant(r.value, text)
  {
  }

  /** friend_compare_emotion, once selected, never yields a question (its
      generator finds no category for it), and since it is selected first it
      also keeps distraction_time_combo from being offered on that turn. */
  lemma FriendChoiceOffersNothing(total: int, offered: set<string>, text: string, f: FilledSlots)
    requires ComboChoice(total, offered, text, f) == Some("friend_compare_emotion")
    ensures Combo.GenerateComboQuestion(ComboChoice(total, offered, text, f).value, f).None?
  {
    Combo.FriendCompareNeverOffered(f);
  }

  /** The excerpt next_question hands the question writer: a sentence built from
      two slots of the chosen domain when either is filled, otherwise nothing. */
  function Excerpt(domain: string, f: FilledSlots): (r: string)
    ensures domain !in {"academic_confidence", "family_pressure", "distractions"} ==> r == []
  {
    if domain == "academic_confidence" then
      var weak := SlotString(f, domain, "weak_subject");
      var last := SlotString(f, domain, "last_test_experience");
      if weak != [] || last != [] then "Weak in " + weak + ". Last test felt " + last + "." else []
    else if domain == "family_pressure" then
      var expectation := SlotString(f, domain, "expectation_type");
      var member := SlotString(f, domain, "family_member");
      if expectation != [] || member != [] then "Family member " + member + " expects " + expectation + "." else []
    else if domain == "distractions" then
      var friend := SlotString(f, domain, "friend_name");
      var app := SlotString(f, domain, "phone_app");
      if friend != [] || app != [] then "Distractions include " + friend + " and app " + app + "." else []
    else []
  }

  /** A generic question is never empty. */
  lemma GenericQuestionNonEmpty(d: string)
    ensures GenericQuestion(d).Some? ==> GenericQuestion(d).value.1 != []
  {
    if GenericQuestion(d).Some? {
      var k :| 0 <= k < |GenericDomainQuestions| && GenericDomainQuestions[k].0 == d
               && GenericDomainQuestions[k].1 == GenericQuestion(d).value;
      assert k == 0 || k == 1;
    }
  }

  /** The outcome of one pass of next_question's planning loop. */
  datatype Round = NoSlot | Retry | Chosen(domain: string, slot: string, question: string)

  /** _complete_session's signals: the stored ones, then the inferred ones, each
      kept once in first-seen order. */
  function EmotionSignals(f: FilledSlots, stored: seq<string>): (r: seq<string>)
    requires Stored(f)
    ensures NoDup(r)
    ensures forall x :: x in r <==> x in stored || (x in EmotionSignalNames && SignalFires(f, x))
    ensures SignalInputsReadable(f) && r == Dedup(stored) + Without(InferEmotionSignals(f), set x | x in stored)
  {
    StoredReadable(f);
    DedupAppendFresh(stored, InferEmotionSignals(f));
    Dedup(stored + InferEmotionSignals(f))
  }

  /** pick_next_slot as next_question calls it in one pass: the search in
      the given domain order over the pairs still missing, for the gate's verdicts in
      that pass. */
  function PlannerPick(order: seq<string>, active: seq<string>, f: FilledSlots, counts: map<string, int>, maxDomain: int,
                       causes: map<string, bool>, memo: Planner.Approvals): Option<Planner.Pair>
  {
    Planner.Pick(order, active, MissingSlots(active, f), counts, maxDomain, Planner.DomainCauseMap, f, causes, memo)
  }

  /** PlannerPick's search left `memo` settled: every pair tried before a named
      pick, and every pair of tiers one and two before a generic pick or none,
      was rejected by the negation list, the causes or the gate. */
  predicate PlannerSearched(order: seq<string>, active: seq<string>, f: FilledSlots, counts: map<string, int>, maxDomain: int,
                            causes: map<string, bool>, memo: Planner.Approvals)
  {
    forall missing | missing == MissingSlots(active, f) ::
      Planner.Searched(order, active, missing, counts, maxDomain, Planner.DomainCauseMap, f, causes, memo)
  }

  /** The gate's verdicts in a run of calls, as the planner's memo holds them. */
  predicate VerdictsOf(memo: Planner.Approvals, qs: seq<Planner.GateQuery>, rs: seq<Reply<Value>>) {
    |qs| == |rs| && memo == Planner.Memo(qs, rs)
  }

  /** What a pass of the planning loop that settles on a question settled on:
      the picked domain; for the generic marker the domain's generic slot and
      question, which differs from the last question and costs no writer call;
      otherwise the picked slot and generate_question's outcome for the
      replies the writer gave, judged by `valid` and falling back on the table
      `canned`. */
  predicate Settled(round: Round, pick: Option<Planner.Pair>, last: string, replies: seq<Reply<Value>>,
                    valid: string -> bool, canned: seq<(string, seq<(string, string)>)>) {
    && round.Chosen? && pick.Some? && round.domain == pick.value.0
    && if pick.value.1 == Planner.GenericMarker then
         && GenericQuestion(round.domain) == Some((round.slot, round.question))
         && round.question != last && replies == []
       else
         && round.slot == pick.value.1
         && round.question == QuestionWriter.Outcome(replies, last, valid, QuestionWriter.FallbackIn(canned, round.domain, round.slot))
  }

  /** The metadata after next_question asks a planned question: one more
      question in all and for its domain, and the question pending and
      remembered as the last one. */
  function AfterAsk(m: Meta, domain: string, slot: string, question: string): Meta {
    m.(totalAsked := m.totalAsked + 1,
       domainCounts := m.domainCounts[domain := Planner.CountOf(m.domainCounts, domain) + 1],
       current := SlotQuestion(domain, slot, question), lastQuestion := question)
  }

  /** _complete_session's popups: generate_popups on the profile and the
      merged signals, for the replies the popup model gave. */
  function CompletedPopups(f: FilledSlots, stored: seq<string>, replies: seq<Reply<Value>>): seq<PopupSchemas.Popup>
    requires Stored(f)
  {
    StoredReadable(f);
    PopupGenerator.Generated(f, EmotionSignals(f, stored), replies)
  }

  // ---------------------------------------------------------------------
  // The controller

  class Controller {
    const minQuestions: int
    const maxQuestions: int
    const maxDomainQuestions: int
    /** The iteration order of the parser's allowed emotion set. */
    const emotionOrder: seq<string>
    /** The domain order pick_next_slot searches: PRIORITY_ORDER. */
    const priority: seq<string>
    /** The canned questions the writer falls back on: FALLBACK_QUESTIONS. */
    const canned: seq<(string, seq<(string, string)>)>
    /** The check a written question must pass: validate_question. */
    const validQuestion: string -> bool
    const prefillModel: Oracle<string, Prefill.PrefillReply>
    const causeModel: Oracle<string, Value>
    const gate: Oracle<Planner.GateQuery, Value>
    const writer: Oracle<QuestionWriter.Request, Value>
    const popupModel: Oracle<PopupGenerator.Payload, Value>

    constructor (minQ: int, maxQ: int, maxDomain: int, order: seq<string>,
                 prefill: Oracle<string, Prefill.PrefillReply>, causes: Oracle<string, Value>,
                 gateModel: Oracle<Planner.GateQuery, Value>, questions: Oracle<QuestionWriter.Request, Value>,
                 popups: Oracle<PopupGenerator.Payload, Value>)
      requires Combo.Enumerates(order, Combo.AllowedEmotions)
      ensures minQuestions == minQ && maxQuestions == maxQ && maxDomainQuestions == maxDomain
      ensures emotionOrder == order && Combo.Enumerates(emotionOrder, Combo.AllowedEmotions)
      ensures priority == PriorityOrder && canned == FallbackQuestions && validQuestion == IsValidQuestion
      ensures prefillModel == prefill && causeModel == causes && gate == gateModel
      ensures writer == questions && popupModel == popups
    {
      minQuestions := minQ;
      maxQuestions := maxQ;
      maxDomainQuestions := maxDomain;
      emotionOrder := order;
      priority := PriorityOrder;
      canned := FallbackQuestions;
      validQuestion := IsValidQuestion;
      prefillModel := prefill;
      causeModel := causes;
      gate := gateModel;
      writer := questions;
      popupModel := popups;
    }

    /** prefill_slots_with_llm on the stripped, non-blank text. */
    method Proposals(t: string) returns (pr: Prefill.PrefillReply)
      requires t != [] && !IsSpace(t[0])
      modifies prefillModel
      ensures old(prefillModel.answered) <= prefillModel.answered
      ensures pr == Prefill.Outcome(prefillModel.answered[|old(prefillModel.answered)|..])
    {
      pr := Prefill.PrefillSlots(t, prefillModel);
    }

    /** detect_causes on the stripped, non-blank text: the outcome of the
        replies this call received. */
    method Causes(t: string) returns (causes: map<string, bool>)
      requires t != []
      modifies causeModel
      ensures causes.Keys == (set k <- Detect.CauseKeys)
      ensures old(causeModel.answered) <= causeModel.answered
      ensures causes == Detect.CausesOutcome(causeModel.answered[|old(causeModel.answered)|..])
    {
      assert Take(t, 2000) != [];
      causes := Detect.DetectCauses(t, causeModel);
    }

    /** POST /session/start. */
    method Start(text: string) returns (r: Response, session: Session?)
      modifies prefillModel, causeModel
      ensures IsBlank(text) ==> r == Rejected("text is required") && session == null
      ensures IsBlank(text) ==> prefillModel.asked == old(prefillModel.asked) && causeModel.asked == old(causeModel.asked)
      ensures !IsBlank(text) ==> session != null && fresh(session) && fresh(session.store)
      ensures session != null ==>
        && session.status == Active && session.rawText == Strip(text)
        && session.history == [Turn("user", Strip(text))]
        && session.Consistent()
        && session.meta == InitialMeta.(causes := session.meta.causes)
        && session.meta.causes.Keys == (set k <- Detect.CauseKeys)
        && session.popups == []
        && r == Started(session.activeDomains, session.store.slots)
      ensures session != null ==> old(prefillModel.answered) <= prefillModel.answered
      ensures session != null ==> old(causeModel.answered) <= causeModel.answered
      ensures session != null ==>
        session.meta.causes == Detect.CausesOutcome(causeModel.answered[|old(causeModel.answered)|..])
      ensures session != null ==>
        var pr := Prefill.Outcome(prefillModel.answered[|old(prefillModel.answered)|..]);
        && session.activeDomains == StartDomains(pr.activeDomains, session.meta.causes)
        && (forall d, s :: SlotValue(session.store.slots, d, s) == PrefillValue(pr.prefill, d, s))
        && NegatedList(session.store.slots) == AppendNames([], Candidates(pr.negatedSlots))
    {
      var t := Strip(text);
      StripEmptyIffBlank(text);
      if t == [] {
        return Rejected("text is required"), null;
      }
      assert !IsSpace(t[0]);
      session := new Session(t);
      var pr := Proposals(t);
      var causes := Causes(t);
      Configure(session, pr, causes);
      r := Started(session.activeDomains, session.store.slots);
    }

    // -------------------------------------------------------------------
    // Answer

    /** The combo path of answer on the session, given the parser's result. */
    method AnswerCombo(session: Session, parsed: Option<Combo.ComboAnswer>, answer: string) returns (r: Response)
      requires session.Consistent() && session.meta.current.ComboQuestion?
      modifies session, session.store
      ensures session.Consistent()
      ensures session.status == old(session.status) && session.activeDomains == old(session.activeDomains)
      ensures session.popups == old(session.popups)
      ensures Step(r, session.meta, session.store.slots, session.history) ==
        ComboAnswerStep(old(session.meta), old(session.store.slots), old(session.history), answer, parsed)
    {
      if parsed.None? {
        r := FollowFormat(session.meta.current.comboId);
        return;
      }
      WriteAllStored(session.store.slots, parsed.value.slots);
      WriteParsed(session.store, parsed.value.slots);
      session.meta := session.meta.(current := NoQuestion,
        emotionSignals := WithEmotion(session.meta.emotionSignals, parsed.value.emotion));
      session.history := session.history + [Turn("user", answer)];
      r := Recorded;
    }

    /** The slot path of answer on the session. */
    method AnswerSlot(session: Session, answer: string, domainArg: string, slotArg: string) returns (r: Response)
      requires session.Consistent()
      modifies session, session.store
      ensures session.Consistent()
      ensures session.status == old(session.status) && session.activeDomains == old(session.activeDomains)
      ensures session.popups == old(session.popups)
      ensures Step(r, session.meta, session.store.slots, session.history) ==
        SlotAnswer(old(session.meta), old(session.store.slots), old(session.history), answer, domainArg, slotArg)
    {
      var t := Target(session.meta.current, domainArg, slotArg);
      var domain, slot := t.0, t.1;
      if domain == [] || slot == [] {
        return Rejected(MissingTarget);
      }
      if !IsSlotAllowed(domain, slot) {
        return Rejected(InvalidTarget);
      }
      if answer == [] {
        return Rejected(AnswerRequired);
      }
      var key := domain + "." + slot;
      if |Words(answer)| < 2 && key !in session.meta.clarifierUsed {
        session.meta := session.meta.(clarifierUsed := session.meta.clarifierUsed + [key],
          current := SlotQuestion(domain, slot, ClarifierQuestion));
        session.history := session.history + [Turn("user", answer), Turn("assistant", ClarifierQuestion)];
        return Clarify(ClarifierQuestion);
      }
      session.history := session.history + [Turn("user", answer)];
      StoredAfterSet(session.store.slots, domain, slot, answer);
      session.store.SetSlotValue(domain, slot, Str(answer));
      session.meta := session.meta.(current := NoQuestion);
      r := Recorded;
    }

    /** POST /session/<id>/answer; `domainArg` and `slotArg` are "" when the
        request leaves them out. */
    method Answer(session: Session?, answerRaw: string, domainArg: string, slotArg: string) returns (r: Response)
      requires session != null ==> session.Consistent()
      requires Combo.Enumerates(emotionOrder, Combo.AllowedEmotions)
      modifies if session == null then {} else {session, session.store}
      ensures session == null ==> r == Rejected("session not found")
      ensures session != null ==> session.Consistent()
      ensures session != null ==> session.status == old(session.status) && session.popups == old(session.popups)
      ensures session != null ==> session.activeDomains == old(session.activeDomains)
      ensures session != null && old(session.status) != Active ==>
        r == Rejected("session is not active") && unchanged(session) && session.store.slots == old(session.store.slots)
      ensures session != null && old(session.status) == Active ==>
        Step(r, session.meta, session.store.slots, session.history) ==
        AnswerStep(old(session.meta), old(session.store.slots), old(session.history), Strip(answerRaw), domainArg, slotArg, emotionOrder)
    {
      if session == null {
        return Rejected("session not found");
      }
      if session.status != Active {
        return Rejected("session is not active");
      }
      var answer := Strip(answerRaw);
      var parser := ParserFor(session.meta.current);
      if parser.Some? {
        var parsed := Combo.RunParser(parser.value, emotionOrder, answer);
        r := AnswerCombo(session, parsed, answer);
      } else {
        r := AnswerSlot(session, answer, domainArg, slotArg);
      }
    }

    // -------------------------------------------------------------------
    // Next question

    /** The generic branch of the planning loop: the domain's generic question,
        unless it repeats the last question, in which case its slot is negated
        and the loop goes on. */
    method GenericRound(session: Session, domain: string, last: string) returns (round: Round)
      requires session.Consistent()
      modifies session.store
      ensures session.Consistent()
      ensures forall d, s :: SlotValue(session.store.slots, d, s) == SlotValue(old(session.store.slots), d, s)
      ensures GenericQuestion(domain).None? ==> round == Retry && session.store.slots == old(session.store.slots)
      ensures GenericQuestion(domain).Some? && GenericQuestion(domain).value.1 == last ==>
        round == Retry && session.store.slots == WithNegated(old(session.store.slots), [GenericQuestion(domain).value.0])
      ensures GenericQuestion(domain).Some? && GenericQuestion(domain).value.1 != last ==>
        round == Chosen(domain, GenericQuestion(domain).value.0, GenericQuestion(domain).value.1)
        && session.store.slots == old(session.store.slots)
      ensures round.Chosen? ==> IsSlotAllowed(round.domain, round.slot) && round.question != []
      ensures round.Chosen? ==> Settled(round, Some((domain, Planner.GenericMarker)), last, [], validQuestion, canned)
      ensures !round.NoSlot? && (!round.Retry? ==> session.store.slots == old(session.store.slots))
    {
      var generic := GenericQuestion(domain);
      if generic.None? {
        return Retry;
      }
      GenericLookups(domain);
      GenericQuestionNonEmpty(domain);
      if generic.value.1 == last {
        StoredAfterNegate(session.store.slots, [generic.value.0]);
        session.store.AddNegatedSlots([generic.value.0]);
        return Retry;
      }
      round := Chosen(domain, generic.value.0, generic.value.1);
    }

    /** The planner's pick for one pass, over the pairs still missing: the
        search in priority order for the gate's verdicts in this call. A
        named slot is one the schema allows and its domain is still under the
        per-domain cap. */
    method PickSlot(session: Session) returns (pick: Option<(string, string)>, ghost memo: Planner.Approvals)
      requires session.Consistent()
      modifies gate
      ensures old(gate.asked) <= gate.asked && old(gate.answered) <= gate.answered
      ensures VerdictsOf(memo, gate.asked[|old(gate.asked)|..], gate.answered[|old(gate.answered)|..])
      ensures pick == PlannerPick(priority, session.activeDomains, session.store.slots, session.meta.domainCounts, maxDomainQuestions,
                                  session.meta.causes, memo)
      ensures PlannerSearched(priority, session.activeDomains, session.store.slots, session.meta.domainCounts, maxDomainQuestions,
                              session.meta.causes, memo)
      ensures pick.Some? && pick.value.1 != Planner.GenericMarker ==>
        && IsSlotAllowed(pick.value.0, pick.value.1)
        && Planner.CountOf(session.meta.domainCounts, pick.value.0) < maxDomainQuestions
    {
      var missing := ComputeMissingSlots(session.activeDomains, session.store.slots);
      ghost var a0, b0 := gate.asked, gate.answered;
      pick := Planner.PickNextSlotIn(priority, session.activeDomains, missing, session.meta.domainCounts, maxDomainQuestions,
                                     session.rawText, Planner.DomainCauseMap, session.store.slots, session.meta.causes, gate);
      memo := Planner.Memo(gate.asked[|a0|..], gate.answered[|b0|..]);
      Planner.PickSound(priority, session.activeDomains, missing, session.meta.domainCounts, maxDomainQuestions,
                        Planner.DomainCauseMap, session.store.slots, session.meta.causes, memo);
      if pick.Some? && pick.value.1 != Planner.GenericMarker {
        MissingSlotsSchemaOnly(session.activeDomains, session.store.slots, pick.value.0, pick.value.1);
      }
    }

    /** generate_question for the picked slot, with the domain's excerpt: the
        outcome of the writer's replies to this call. */
    method WriteQuestion(session: Session, domain: string, slot: string, last: string) returns (q: string)
      modifies writer
      ensures q != []
      ensures old(writer.asked) <= writer.asked && old(writer.answered) <= writer.answered
      ensures |writer.asked| <= |old(writer.asked)| + 2
      ensures var replies := writer.answered[|old(writer.answered)|..];
        q == QuestionWriter.Outcome(replies, Strip(last), validQuestion, QuestionWriter.FallbackIn(canned, domain, slot))
    {
      q := QuestionWriter.GenerateQuestion(domain, slot, Excerpt(domain, session.store.slots), session.rawText,
                                           session.store.slots, last, validQuestion, canned, writer);
    }

    /** What one pass of next_question's loop does with the planner's pick:
        nothing picked ends the loop; the generic marker takes the domain's
        generic question; a named slot has the writer phrase one. The writer
        always produces a question, so the source's fallback after an empty
        one is never reached. */
    method Settle(session: Session, pick: Option<Planner.Pair>) returns (round: Round)
      requires session.Consistent()
      requires pick.Some? && pick.value.1 != Planner.GenericMarker ==> IsSlotAllowed(pick.value.0, pick.value.1)
      modifies session.store, writer
      ensures session.Consistent()
      ensures forall d, s :: SlotValue(session.store.slots, d, s) == SlotValue(old(session.store.slots), d, s)
      ensures !round.Retry? ==> session.store.slots == old(session.store.slots)
      ensures round.Chosen? ==> IsSlotAllowed(round.domain, round.slot) && round.question != []
      ensures old(writer.asked) <= writer.asked && old(writer.answered) <= writer.answered
      ensures |writer.asked| <= |old(writer.asked)| + 2
      ensures !round.Chosen? ==> writer.asked == old(writer.asked) && writer.answered == old(writer.answered)
      ensures round.NoSlot? <==> pick.None?
      ensures round.Chosen? ==> Settled(round, pick, Strip(session.meta.lastQuestion), writer.answered[|old(writer.answered)|..], validQuestion, canned)
      ensures round.Retry? ==> pick.Some? && pick.value.1 == Planner.GenericMarker
    {
      if pick.None? {
        round := NoSlot;
      } else if pick.value.1 == Planner.GenericMarker {
        round := SettleGeneric(session, pick);
      } else {
        round := SettleNamed(session, pick);
      }
    }

    /** Settle for the generic marker. */
    method SettleGeneric(session: Session, pick: Option<Planner.Pair>) returns (round: Round)
      requires session.Consistent()
      requires pick.Some? && pick.value.1 == Planner.GenericMarker
      modifies session.store
      ensures session.Consistent()
      ensures forall d, s :: SlotValue(session.store.slots, d, s) == SlotValue(old(session.store.slots), d, s)
      ensures !round.Retry? ==> session.store.slots == old(session.store.slots)
      ensures !round.NoSlot?
      ensures round.Chosen? ==> IsSlotAllowed(round.domain, round.slot) && round.question != []
      ensures round.Chosen? ==> Settled(round, pick, Strip(session.meta.lastQuestion), [], validQuestion, canned)
    {
      var domain, last := pick.value.0, Strip(session.meta.lastQuestion);
      assert pick == Some((domain, Planner.GenericMarker));
      round := GenericRound(session, domain, last);
    }

    /** Settle for a named slot. */
    method SettleNamed(session: Session, pick: Option<Planner.Pair>) returns (round: Round)
      requires pick.Some? && pick.value.1 != Planner.GenericMarker && IsSlotAllowed(pick.value.0, pick.value.1)
      modifies writer
      ensures round.Chosen? && IsSlotAllowed(round.domain, round.slot) && round.question != []
      ensures old(writer.asked) <= writer.asked && old(writer.answered) <= writer.answered
      ensures |writer.asked| <= |old(writer.asked)| + 2
      ensures Settled(round, pick, Strip(session.meta.lastQuestion), writer.answered[|old(writer.answered)|..], validQuestion, canned)
    {
      assert pick == Some((pick.value.0, pick.value.1));
      StripIdempotent(session.meta.lastQuestion);
      round := NamedRound(session, pick.value.0, pick.value.1, Strip(session.meta.lastQuestion));
    }

    /** The named branch of a pass: the writer phrases the question. */
    method NamedRound(session: Session, domain: string, slot: string, last: string) returns (round: Round)
      requires slot != Planner.GenericMarker && IsSlotAllowed(domain, slot)
      requires Strip(last) == last
      modifies writer
      ensures round.Chosen? && IsSlotAllowed(round.domain, round.slot) && round.question != []
      ensures old(writer.asked) <= writer.asked && old(writer.answered) <= writer.answered
      ensures |writer.asked| <= |old(writer.asked)| + 2
      ensures Settled(round, Some((domain, slot)), last, writer.answered[|old(writer.answered)|..], validQuestion, canned)
    {
      var q := WriteQuestion(session, domain, slot, last);
      round := Chosen(domain, slot, q);
    }

    /** One pass of next_question's loop: recompute the missing pairs, ask the
        planner, and settle on what it picked. */
    method PlanRound(session: Session) returns (round: Round, ghost memo: Planner.Approvals)
      requires session.Consistent()
      modifies session.store, gate, writer
      ensures session.Consistent()
      ensures forall d, s :: SlotValue(session.store.slots, d, s) == SlotValue(old(session.store.slots), d, s)
      ensures !round.Retry? ==> session.store.slots == old(session.store.slots)
      ensures round.Chosen? ==> IsSlotAllowed(round.domain, round.slot) && round.question != []
      ensures old(gate.asked) <= gate.asked && old(gate.answered) <= gate.answered
      ensures old(writer.asked) <= writer.asked && old(writer.answered) <= writer.answered
      ensures |writer.asked| <= |old(writer.asked)| + 2
      ensures !round.Chosen? ==> writer.asked == old(writer.asked) && writer.answered == old(writer.answered)
      ensures VerdictsOf(memo, gate.asked[|old(gate.asked)|..], gate.answered[|old(gate.answered)|..])
      ensures var pick := PlannerPick(priority, session.activeDomains, old(session.store.slots), session.meta.domainCounts,
                                      maxDomainQuestions, session.meta.causes, memo);
        && PlannerSearched(priority, session.activeDomains, old(session.store.slots), session.meta.domainCounts,
                           maxDomainQuestions, session.meta.causes, memo)
        && (round.NoSlot? <==> pick.None?)
        && (round.Chosen? ==> Settled(round, pick, Strip(session.meta.lastQuestion), writer.answered[|old(writer.answered)|..], validQuestion, canned))
        && (round.Retry? ==> pick.Some? && pick.value.1 == Planner.GenericMarker)
    {
      var pick;
      pick, memo := PickSlot(session);
      round := Settle(session, pick);
    }

    /** next_question's planning loop, at most `maxAttempts` passes that retry.
        A question settled on is the one the last pass settled on; that pass
        consulted the gate from `g0` and `h0` on, and only it called the
        writer. */
    method Plan(session: Session, maxAttempts: int) returns (round: Round, ghost g0: nat, ghost h0: nat, ghost memo: Planner.Approvals)
      requires session.Consistent()
      modifies session.store, gate, writer
      ensures session.Consistent()
      ensures forall d, s :: SlotValue(session.store.slots, d, s) == SlotValue(old(session.store.slots), d, s)
      ensures round.Chosen? ==> IsSlotAllowed(round.domain, round.slot) && round.question != []
      ensures old(gate.asked) <= gate.asked && old(gate.answered) <= gate.answered
      ensures old(writer.asked) <= writer.asked && old(writer.answered) <= writer.answered
      ensures |writer.asked| <= |old(writer.asked)| + 2
      ensures !round.Chosen? ==> writer.asked == old(writer.asked) && writer.answered == old(writer.answered)
      ensures round.Chosen? ==>
        && |old(gate.asked)| <= g0 <= |gate.asked| && |old(gate.answered)| <= h0 <= |gate.answered|
        && VerdictsOf(memo, gate.asked[g0..], gate.answered[h0..])
        && PlannerSearched(priority, session.activeDomains, session.store.slots, session.meta.domainCounts, maxDomainQuestions,
                           session.meta.causes, memo)
        && Settled(round, PlannerPick(priority, session.activeDomains, session.store.slots, session.meta.domainCounts, maxDomainQuestions,
                                      session.meta.causes, memo),
                   Strip(session.meta.lastQuestion), writer.answered[|old(writer.answered)|..], validQuestion, canned)
    {
      round := Retry;
      g0, h0, memo := |gate.asked|, |gate.answered|, map[];
      var attempts := 0;
      while attempts < maxAttempts && round.Retry?
        invariant session.Consistent()
        invariant forall d, s :: SlotValue(session.store.slots, d, s) == SlotValue(old(session.store.slots), d, s)
        invariant round.Chosen? ==> IsSlotAllowed(round.domain, round.slot) && round.question != []
        invariant old(gate.asked) <= gate.asked && old(gate.answered) <= gate.answered
        invariant old(writer.asked) <= writer.asked && old(writer.answered) <= writer.answered
        invariant |writer.asked| <= |old(writer.asked)| + 2
        invariant !round.Chosen? ==> writer.asked == old(writer.asked) && writer.answered == old(writer.answered)
        invariant round.Chosen? ==>
          && |old(gate.asked)| <= g0 <= |gate.asked| && |old(gate.answered)| <= h0 <= |gate.answered|
          && VerdictsOf(memo, gate.asked[g0..], gate.answered[h0..])
          && PlannerSearched(priority, session.activeDomains, session.store.slots, session.meta.domainCounts, maxDomainQuestions,
                             session.meta.causes, memo)
          && Settled(round, PlannerPick(priority, session.activeDomains, session.store.slots, session.meta.domainCounts, maxDomainQuestions,
                                        session.meta.causes, memo),
                     Strip(session.meta.lastQuestion), writer.answered[|old(writer.answered)|..], validQuestion, canned)
        decreases maxAttempts - attempts + (if round.Retry? then 1 else 0)
      {
        ghost var ga, gb := |gate.asked|, |gate.answered|;
        round, memo := PlanRound(session);
        g0, h0 := ga, gb;
        if round.Retry? {
          attempts := attempts + 1;
        }
      }
    }

    /** The signals _complete_session hands the popup generator: the stored
        ones, then the inferred ones not already stored, each once. */
    method Signals(profile: FilledSlots, stored: seq<string>) returns (signals: seq<string>)
      requires Stored(profile)
      ensures PopupValidator.Readable(profile) && SignalInputsReadable(profile)
      ensures NoDup(signals)
      ensures signals == Dedup(stored) + Without(InferEmotionSignals(profile), set x | x in stored)
    {
      StoredReadable(profile);
      signals := EmotionSignals(profile, stored);
    }

    /** generate_popups on the completed session's profile and the merged
        signals. */
    method Popups(profile: FilledSlots, stored: seq<string>) returns (popups: seq<PopupSchemas.Popup>)
      requires Stored(profile)
      modifies popupModel
      ensures old(popupModel.answered) <= popupModel.answered
      ensures popups == CompletedPopups(profile, stored, popupModel.answered[|old(popupModel.answered)|..])
    {
      var signals := Signals(profile, stored);
      popups := PopupGenerator.GeneratePopups(profile, signals, popupModel);
    }

    /** _complete_session: the session completes and keeps the popups
        generated for its profile and merged signals. */
    method Finish(session: Session) returns (r: Response)
      requires session.Consistent()
      modifies session, popupModel
      ensures session.Consistent() && session.status == Completed
      ensures session.meta == old(session.meta) && session.history == old(session.history)
      ensures session.activeDomains == old(session.activeDomains)
      ensures session.store.slots == old(session.store.slots)
      ensures old(popupModel.answered) <= popupModel.answered
      ensures session.popups ==
        CompletedPopups(session.store.slots, session.meta.emotionSignals, popupModel.answered[|old(popupModel.answered)|..])
      ensures r == Finished(|session.popups|)
    {
      var popups := Popups(session.store.slots, session.meta.emotionSignals);
      session.status := Completed;
      session.popups := popups;
      r := Finished(|popups|);
    }

    /** The combo next_question offers: the chosen combo and its generated
        question, when both exist. */
    method ChooseCombo(session: Session) returns (offer: Option<(string, string)>)
      ensures var c := ComboChoice(session.meta.totalAsked, session.meta.comboHistory, session.rawText, session.store.slots);
        && (offer.Some? <==> c.Some? && Combo.GenerateComboQuestion(c.value, session.store.slots).Some?)
        && (offer.Some? ==> offer.value == (c.value, Combo.GenerateComboQuestion(c.value, session.store.slots).value))
      ensures offer.Some? ==>
        && session.meta.totalAsked <= 2 && offer.value.0 !in session.meta.comboHistory
        && Relevance.IsComboRelevant(offer.value.0, session.rawText)
    {
      ComboChoiceSound(session.meta.totalAsked, session.meta.comboHistory, session.rawText, session.store.slots);
      var combo := ComboChoice(session.meta.totalAsked, session.meta.comboHistory, session.rawText, session.store.slots);
      if combo.None? {
        return None;
      }
      var question := Combo.GenerateComboQuestion(combo.value, session.store.slots);
      if question.None? {
        return None;
      }
      offer := Some((combo.value, question.value));
    }

    /** ChooseCombo as the combo branch relies on it. */
    method NextCombo(session: Session) returns (offer: Option<(string, string)>)
      ensures offer.Some? ==> session.meta.totalAsked <= 2 && offer.value.0 !in session.meta.comboHistory
    {
      offer := ChooseCombo(session);
    }

    /** The combo branch of next_question: an offered combo is asked and
        recorded; otherwise the session is left as it was. */
    method OfferCombo(session: Session) returns (r: Option<Response>)
      requires session.Consistent()
      modifies session
      ensures session.Consistent() && session.status == old(session.status)
      ensures session.activeDomains == old(session.activeDomains) && session.popups == old(session.popups)
      ensures r.None? ==> session.meta == old(session.meta) && session.history == old(session.history)
      ensures r.Some? ==>
        && r.value.ComboAsked?
        && old(session.meta.totalAsked) <= 2 && r.value.comboId !in old(session.meta.comboHistory)
        && session.meta == old(session.meta).(totalAsked := old(session.meta.totalAsked) + 1,
             current := ComboQuestion(r.value.comboId, r.value.question),
             comboHistory := old(session.meta.comboHistory) + {r.value.comboId})
        && session.history == old(session.history) + [Turn("assistant", r.value.question)]
    {
      var offer := NextCombo(session);
      if offer.None? {
        return None;
      }
      var id, question := offer.value.0, offer.value.1;
      session.meta := session.meta.(totalAsked := session.meta.totalAsked + 1, current := ComboQuestion(id, question),
        comboHistory := session.meta.comboHistory + {id});
      session.history := session.history + [Turn("assistant", question)];
      r := Some(ComboAsked(id, question));
    }

    /** next_question's planning loop and what follows it: the question the
        last pass settled on is asked and recorded, or the session completes
        when the plan settles on none. */
    method AskPlanned(session: Session, maxAttempts: int) returns (r: Response, ghost g0: nat, ghost h0: nat, ghost memo: Planner.Approvals)
      requires session.Consistent() && session.status == Active
      modifies session, session.store, gate, writer, popupModel
      ensures session.Consistent() && session.activeDomains == old(session.activeDomains)
      ensures forall d, s :: SlotValue(session.store.slots, d, s) == SlotValue(old(session.store.slots), d, s)
      ensures r.Asked? || r.Finished?
      ensures old(gate.asked) <= gate.asked && old(gate.answered) <= gate.answered
      ensures old(writer.asked) <= writer.asked && old(writer.answered) <= writer.answered
      ensures |writer.asked| <= |old(writer.asked)| + 2
      ensures old(popupModel.answered) <= popupModel.answered
      ensures r.Asked? ==>
        && IsSlotAllowed(r.domain, r.slot) && session.status == Active && session.popups == old(session.popups)
        && |old(gate.asked)| <= g0 <= |gate.asked| && |old(gate.answered)| <= h0 <= |gate.answered|
        && VerdictsOf(memo, gate.asked[g0..], gate.answered[h0..])
        && PlannerSearched(priority, session.activeDomains, session.store.slots, old(session.meta.domainCounts), maxDomainQuestions,
                           old(session.meta.causes), memo)
        && Settled(Chosen(r.domain, r.slot, r.question),
                   PlannerPick(priority, session.activeDomains, session.store.slots, old(session.meta.domainCounts), maxDomainQuestions,
                               old(session.meta.causes), memo),
                   Strip(old(session.meta.lastQuestion)), writer.answered[|old(writer.answered)|..], validQuestion, canned)
        && session.meta == AfterAsk(old(session.meta), r.domain, r.slot, r.question)
        && session.history == old(session.history) + [Turn("assistant", r.question)]
      ensures r.Finished? ==>
        && session.status == Completed && session.meta == old(session.meta) && session.history == old(session.history)
        && writer.asked == old(writer.asked) && writer.answered == old(writer.answered)
        && session.popups ==
           CompletedPopups(session.store.slots, old(session.meta.emotionSignals), popupModel.answered[|old(popupModel.answered)|..])
        && r.popupCount == |session.popups|
    {
      var round;
      round, g0, h0, memo := Plan(session, maxAttempts);
      if round.Chosen? {
        assert session.meta == old(session.meta);
        ghost var pick := PlannerPick(priority, session.activeDomains, session.store.slots, old(session.meta.domainCounts),
                                      maxDomainQuestions, old(session.meta.causes), memo);
        r := AskSettled(session, round, pick, writer.answered[|old(writer.answered)|..]);
      } else {
        r := Finish(session);
      }
    }

    /** The question a pass settled on is asked, and stays the one settled on. */
    method AskSettled(session: Session, round: Round, ghost pick: Option<Planner.Pair>, ghost replies: seq<Reply<Value>>)
      returns (r: Response)
      requires session.Consistent()
      requires round.Chosen? && Settled(round, pick, Strip(session.meta.lastQuestion), replies, validQuestion, canned)
      modifies session
      ensures session.Consistent() && unchanged(session`status, session`activeDomains, session`popups)
      ensures r.Asked? && Settled(Chosen(r.domain, r.slot, r.question), pick, Strip(old(session.meta.lastQuestion)), replies,
                                  validQuestion, canned)
      ensures r.Asked? && r.domain == round.domain && r.slot == round.slot && r.question == round.question
      ensures session.meta == AfterAsk(old(session.meta), r.domain, r.slot, r.question)
      ensures session.history == old(session.history) + [Turn("assistant", r.question)]
    {
      r := Ask(session, round.domain, round.slot, round.question);
    }

    /** The planned question is asked: it joins the history, the counters go up
        and it becomes the pending and the last question. */
    method Ask(session: Session, domain: string, slot: string, question: string) returns (r: Response)
      requires session.Consistent()
      modifies session
      ensures session.Consistent() && unchanged(session`status, session`activeDomains, session`popups)
      ensures session.meta == AfterAsk(old(session.meta), domain, slot, question)
      ensures session.history == old(session.history) + [Turn("assistant", question)]
      ensures r == Asked(domain, slot, question)
    {
      session.history := session.history + [Turn("assistant", question)];
      var counts := session.meta.domainCounts;
      session.meta := session.meta.(totalAsked := session.meta.totalAsked + 1,
        domainCounts := counts[domain := Planner.CountOf(counts, domain) + 1],
        current := SlotQuestion(domain, slot, question), lastQuestion := question);
      r := Asked(domain, slot, question);
    }

    /** next_question past the combo branch: the session completes when
        should_stop says so, otherwise the planning loop runs for at most the
        number of missing pairs plus three passes that retry. */
    method Proceed(session: Session) returns (r: Response, ghost g0: nat, ghost h0: nat, ghost memo: Planner.Approvals)
      requires session.Consistent() && session.status == Active
      modifies session, session.store, gate, writer, popupModel
      ensures session.Consistent() && session.activeDomains == old(session.activeDomains)
      ensures forall d, s :: SlotValue(session.store.slots, d, s) == SlotValue(old(session.store.slots), d, s)
      ensures r.Asked? || r.Finished?
      ensures old(gate.asked) <= gate.asked && old(gate.answered) <= gate.answered
      ensures old(writer.asked) <= writer.asked && old(writer.answered) <= writer.answered
      ensures |writer.asked| <= |old(writer.asked)| + 2
      ensures old(popupModel.answered) <= popupModel.answered
      ensures var missing := MissingSlots(old(session.activeDomains), old(session.store.slots));
        ShouldStop(old(session.meta.totalAsked), |missing|, minQuestions, maxQuestions) ==>
        r.Finished? && gate.asked == old(gate.asked) && session.store.slots == old(session.store.slots)
      ensures r.Asked? ==>
        && IsSlotAllowed(r.domain, r.slot) && session.status == Active && session.popups == old(session.popups)
        && |old(gate.asked)| <= g0 <= |gate.asked| && |old(gate.answered)| <= h0 <= |gate.answered|
        && VerdictsOf(memo, gate.asked[g0..], gate.answered[h0..])
        && PlannerSearched(priority, session.activeDomains, session.store.slots, old(session.meta.domainCounts), maxDomainQuestions,
                           old(session.meta.causes), memo)
        && Settled(Chosen(r.domain, r.slot, r.question),
                   PlannerPick(priority, session.activeDomains, session.store.slots, old(session.meta.domainCounts), maxDomainQuestions,
                               old(session.meta.causes), memo),
                   Strip(old(session.meta.lastQuestion)), writer.answered[|old(writer.answered)|..], validQuestion, canned)
        && session.meta == AfterAsk(old(session.meta), r.domain, r.slot, r.question)
        && session.history == old(session.history) + [Turn("assistant", r.question)]
      ensures r.Finished? ==>
        && session.status == Completed && session.meta == old(session.meta) && session.history == old(session.history)
        && writer.asked == old(writer.asked) && writer.answered == old(writer.answered)
        && session.popups ==
           CompletedPopups(session.store.slots, old(session.meta.emotionSignals), popupModel.answered[|old(popupModel.answered)|..])
        && r.popupCount == |session.popups|
    {
      var missing := ComputeMissingSlots(session.activeDomains, session.store.slots);
      if ShouldStop(session.meta.totalAsked, |missing|, minQuestions, maxQuestions) {
        r := Finish(session);
        g0, h0, memo := |gate.asked|, |gate.answered|, map[];
        return;
      }
      r, g0, h0, memo := AskPlanned(session, |missing| + 3);
    }

    /** POST /session/<id>/next-question. A session is never without active
        domains (Consistent), so the source's recovery of them is not needed.
        A planned question is the one the planning loop's last pass settled
        on, with the gate consulted from `g0` and `h0` on. */
    method NextQuestion(session: Session?) returns (r: Response, ghost g0: nat, ghost h0: nat, ghost memo: Planner.Approvals)
      requires session != null ==> session.Consistent()
      modifies if session == null then {} else {session, session.store}
      modifies gate, writer, popupModel
      ensures old(gate.asked) <= gate.asked && old(gate.answered) <= gate.answered
      ensures old(writer.asked) <= writer.asked && old(writer.answered) <= writer.answered
      ensures |writer.asked| <= |old(writer.asked)| + 2
      ensures old(popupModel.answered) <= popupModel.answered
      ensures session == null ==> r == Rejected("invalid session")
      ensures session != null ==> session.Consistent()
      ensures session != null && old(session.status) != Active ==>
        r == Rejected("invalid session") && unchanged(session) && session.store.slots == old(session.store.slots)
      ensures session != null && old(session.status) == Active && old(session.meta.current) != NoQuestion ==>
        r == StillPending(old(session.meta.current)) && unchanged(session) && session.store.slots == old(session.store.slots)
      ensures session != null ==> forall d, s :: SlotValue(session.store.slots, d, s) == SlotValue(old(session.store.slots), d, s)
      ensures session != null ==> old(session.meta.totalAsked) <= session.meta.totalAsked <= old(session.meta.totalAsked) + 1
      ensures session != null && session.meta.totalAsked > old(session.meta.totalAsked) ==>
        old(session.meta.totalAsked) <= 2 || old(session.meta.totalAsked) < maxQuestions
      ensures session != null && 3 <= maxQuestions && old(session.meta.totalAsked) <= maxQuestions ==>
        session.meta.totalAsked <= maxQuestions
      ensures session != null ==> old(session.meta.comboHistory) <= session.meta.comboHistory
      ensures session != null && r.ComboAsked? ==>
        r.comboId !in old(session.meta.comboHistory) && session.meta.comboHistory == old(session.meta.comboHistory) + {r.comboId}
      ensures session != null && r.Asked? ==>
        && IsSlotAllowed(r.domain, r.slot) && session.popups == old(session.popups)
        && |old(gate.asked)| <= g0 <= |gate.asked| && |old(gate.answered)| <= h0 <= |gate.answered|
        && VerdictsOf(memo, gate.asked[g0..], gate.answered[h0..])
        && PlannerSearched(priority, session.activeDomains, session.store.slots, old(session.meta.domainCounts), maxDomainQuestions,
                           old(session.meta.causes), memo)
        && Settled(Chosen(r.domain, r.slot, r.question),
                   PlannerPick(priority, session.activeDomains, session.store.slots, old(session.meta.domainCounts), maxDomainQuestions,
                               old(session.meta.causes), memo),
                   Strip(old(session.meta.lastQuestion)), writer.answered[|old(writer.answered)|..], validQuestion, canned)
        && session.meta == AfterAsk(old(session.meta), r.domain, r.slot, r.question)
        && session.history == old(session.history) + [Turn("assistant", r.question)]
      ensures session != null && r.Finished? ==>
        && session.status == Completed && session.meta == old(session.meta) && session.history == old(session.history)
        && session.popups ==
           CompletedPopups(session.store.slots, old(session.meta.emotionSignals), popupModel.answered[|old(popupModel.answered)|..])
        && r.popupCount == |session.popups|
    {
      g0, h0 := |gate.asked|, |gate.answered|;
      if session == null || session.status != Active {
        return Rejected("invalid session"), g0, h0, map[];
      }
      if session.meta.current != NoQuestion {
        return StillPending(session.meta.current), g0, h0, map[];
      }
      var combo := OfferCombo(session);
      if combo.Some? {
        return combo.value, g0, h0, map[];
      }
      r, g0, h0, memo := Proceed(session);
      if r.Asked? {
        assert old(session.meta.totalAsked) < maxQuestions;
      }
    }
  }
}
