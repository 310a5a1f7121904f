/** The follow-up question writer: the language model is asked at most twice for
    a question about one (domain, slot) pair, and its answer is used only when it
    passes the question validator and differs from the question asked last;
    otherwise the canned question of that slot is used. */
module QuestionWriter {
  import opened Text
  import opened Json
  import opened Schema
  import opened Slots
  import opened Oracles
  import opened Validators

  // ---------------------------------------------------------------------
  // The request

  /** The string entries of a list, in order. */
  function StrItems(items: seq<Value>): (r: seq<string>)
    ensures forall s :: s in r <==> Str(s) in items
    ensures |r| <= |items|
  {
    if items == [] then []
    else
      var init := StrItems(items[..|items| - 1]);
      assert items == items[..|items| - 1] + [items[|items| - 1]];
      match items[|items| - 1]
      case Str(s) => init + [s]
      case _ => init
  }

  /** The negated slot names sent along with the request: the string entries of
      "__negated__" when it holds a list, none otherwise. */
  function NegatedNames(f: FilledSlots): (r: seq<string>)
    ensures forall s :: s in r <==> IsSlotNegated(f, s)
  {
    StrItems(NegatedList(f))
  }

  /** What the question writer is sent. */
  datatype Request = Request(
    domain: string,
    slot: string,
    studentText: string,
    filledSlots: FilledSlots,
    negatedSlots: seq<string>,
    excerpt: string,
    lastQuestion: string)

  /** The request of one call: the student's text cut to 1200 characters and the
      stripped previous question. */
  function MakeRequest(domain: string, slot: string, excerpt: string, userText: string,
                       f: FilledSlots, lastQuestion: string): (r: Request)
    ensures |r.studentText| <= 1200 && r.studentText <= userText
    ensures forall s :: s in r.negatedSlots <==> IsSlotNegated(f, s)
    ensures r.lastQuestion == Strip(lastQuestion)
  {
    Request(domain, slot, Take(userText, 1200), f, NegatedNames(f), excerpt, Strip(lastQuestion))
  }

  // ---------------------------------------------------------------------
  // The fallback

  const DefaultFallback: string := "Can you share " + "one quick detail" + " about this?"

  /** Prefixing text free of '?', ';' and '/' keeps a question's shape. */
  lemma ShapePrefix(a: string, b: string)
    requires forall i :: 0 <= i < |a| ==> a[i] != '?' && a[i] != ';' && a[i] != '/'
    requires QuestionShape(b)
    ensures QuestionShape(a + b)
  {
    var c := a + b;
    forall i | 0 <= i < |c| - 1 ensures c[i] != '?' && c[i] != ';' && c[i] != '/' {
      if i >= |a| {
        assert c[i] == b[i - |a|];
      }
    }
  }

  lemma DefaultFallbackShaped()
    ensures QuestionShape(DefaultFallback)
  {
    var a, b, c := "Can you share ", "one quick detail", " about this?";
    assert QuestionShape(c);
    ShapePrefix(b, c);
    ShapePrefix(a, b + c);
    assert a + (b + c) == DefaultFallback;
  }

  /** The question used when the model gives nothing usable, for a given table
      of canned questions: the canned question of the pair, else a generic one. */
  function FallbackIn(canned: seq<(string, seq<(string, string)>)>, d: string, s: string): (r: string)
    ensures r != []
    ensures CannedIn(canned, d, s).Some? && CannedIn(canned, d, s).value != [] ==> r == CannedIn(canned, d, s).value
  {
    match CannedIn(canned, d, s)
    case Some(q) => if q != [] then q else DefaultFallback
    case None => DefaultFallback
  }

  /** The fallback over FALLBACK_QUESTIONS: always a well-shaped question. */
  function Fallback(d: string, s: string): (r: string)
    ensures QuestionShape(r)
  {
    CannedQuestionsWellFormed(d, s);
    DefaultFallbackShaped();
    FallbackIn(FallbackQuestions, d, s)
  }

  /** The fallback is the canned question exactly for the schema's pairs. */
  lemma FallbackIsCanned(d: string, s: string)
    ensures s in SlotsOf(d) ==> Some(Fallback(d, s)) == CannedQuestion(d, s)
    ensures s !in SlotsOf(d) ==> Fallback(d, s) == DefaultFallback
  {
    CannedQuestionsWellFormed(d, s);
  }

  // ---------------------------------------------------------------------
  // Accepting an answer

  /** The question a reply carries: its "question" string with the whitespace
      collapsed; a failed call, a reply that is not an object and a value that
      is not a string all count as the empty question. */
  function Candidate(reply: Reply<Value>): (q: string)
    ensures q != [] ==> reply.Parsed? && reply.value.Dict? && Get(reply.value.fields, "question").Str?
  {
    if reply.Parsed? && reply.value.Dict? && Get(reply.value.fields, "question").Str? then
      Collapse(Get(reply.value.fields, "question").s)
    else
      []
  }

  /** The reply is an object whose "question" string, as received, passes the
      validator. */
  predicate RawValid(reply: Reply<Value>) {
    reply.Parsed? && reply.value.Dict? && Get(reply.value.fields, "question").Str? &&
    IsValidQuestion(Get(reply.value.fields, "question").s)
  }

  /** The candidate is already collapsed, so the validator sees it exactly as it
      would see the raw text of the reply. */
  lemma CandidateCollapsed(reply: Reply<Value>)
    ensures Collapsed(Candidate(reply)) && Collapse(Candidate(reply)) == Candidate(reply)
    ensures IsValidQuestion(Candidate(reply)) <==> RawValid(reply)
  {
    if reply.Parsed? && reply.value.Dict? && Get(reply.value.fields, "question").Str? {
      CollapsedText(Get(reply.value.fields, "question").s);
    } else {
      CollapsedEmpty();
    }
  }

  /** Collapsing is idempotent and invisible to the validator. */
  lemma CollapsedText(s: string)
    ensures Collapsed(Collapse(s)) && Collapse(Collapse(s)) == Collapse(s)
    ensures IsValidQuestion(Collapse(s)) <==> IsValidQuestion(s)
  {
    CollapseShape(s);
    CollapseIdempotent(s);
    CollapseInvariant(s);
  }

  /** The empty question is collapsed and invalid. */
  lemma CollapsedEmpty()
    ensures Collapsed([]) && Collapse([]) == [] && !IsValidQuestion([])
  {
    CollapseShape([]);
  }

  /** An answer is used only when it is non-empty, differs from the previous
      question and passes the validator. The retry logic below is stated for any
      validator `valid`; the writer uses IsValidQuestion. */
  predicate Accepts(q: string, last: string, valid: string -> bool) {
    q != [] && q != last && valid(q)
  }

  /** The first acceptable question among the replies, oldest first. */
  function FirstAccepted(replies: seq<Reply<Value>>, last: string, valid: string -> bool): (r: Option<string>)
    ensures r.Some? ==> Accepts(r.value, last, valid)
    ensures r.Some? ==> exists k :: 0 <= k < |replies| && Candidate(replies[k]) == r.value
    ensures r.None? <==> forall k :: 0 <= k < |replies| ==> !Accepts(Candidate(replies[k]), last, valid)
  {
    if replies == [] then None
    else if Accepts(Candidate(replies[0]), last, valid) then Some(Candidate(replies[0]))
    else
      var rest := FirstAccepted(replies[1..], last, valid);
      assert forall k :: 1 <= k < |replies| ==> replies[k] == replies[1..][k - 1];
      rest
  }

  /** Appending a reply after replies of which none was acceptable. */
  lemma {:induction false} FirstAcceptedSnoc(replies: seq<Reply<Value>>, r: Reply<Value>, last: string, valid: string -> bool)
    requires FirstAccepted(replies, last, valid).None?
    ensures FirstAccepted(replies + [r], last, valid) ==
      if Accepts(Candidate(r), last, valid) then Some(Candidate(r)) else None
  {
    if replies == [] {
      AppendEmpty([r]);
      ConsTail(r, []);
    } else {
      AppendTail(replies, [r]);
      FirstAcceptedSnoc(replies[1..], r, last, valid);
    }
  }

  /** The question of a call: the first accepted reply, else the fallback, which is
      used even when it equals the previous question. */
  function Outcome(replies: seq<Reply<Value>>, last: string, valid: string -> bool, fallback: string): (q: string)
    ensures fallback != [] ==> q != []
    ensures q == fallback || (Accepts(q, last, valid) && exists k :: 0 <= k < |replies| && Candidate(replies[k]) == q)
    ensures (forall k :: 0 <= k < |replies| ==> !Accepts(Candidate(replies[k]), last, valid)) ==> q == fallback
  {
    match FirstAccepted(replies, last, valid)
    case Some(a) => a
    case None => fallback
  }

  // ---------------------------------------------------------------------
  // generate_question

  /** The retry loop: asks the writer at most twice with the same request,
      stopping at the first acceptable answer. */
  method AskTwice(request: Request, valid: string -> bool, writer: Oracle<Request, Value>)
    returns (found: Option<string>)
    modifies writer
    ensures old(writer.answered) <= writer.answered
    ensures old(writer.asked) <= writer.asked
    ensures var replies := writer.answered[|old(writer.answered)|..];
      && 1 <= |replies| <= 2
      && found == FirstAccepted(replies, request.lastQuestion, valid)
      && (|replies| == 2 <==> !Accepts(Candidate(replies[0]), request.lastQuestion, valid))
    ensures |writer.asked| - |old(writer.asked)| == |writer.answered| - |old(writer.answered)|
    ensures writer.asked[|old(writer.asked)|] == request
    ensures |writer.asked| == |old(writer.asked)| + 2 ==> writer.asked[|old(writer.asked)| + 1] == request
  {
    var last := request.lastQuestion;
    found := None;
    var attempt := 0;
    while attempt < 2 && found.None?
      invariant 0 <= attempt <= 2
      invariant |writer.asked| == |old(writer.asked)| + attempt
      invariant |writer.answered| == |old(writer.answered)| + attempt
      invariant old(writer.asked) <= writer.asked
      invariant old(writer.answered) <= writer.answered
      invariant attempt >= 1 ==> writer.asked[|old(writer.asked)|] == request
      invariant attempt == 2 ==> writer.asked[|old(writer.asked)| + 1] == request
      invariant found == FirstAccepted(writer.answered[|old(writer.answered)|..], last, valid)
      invariant attempt == 0 ==> found.None?
      invariant attempt == 2 ==> !Accepts(Candidate(writer.answered[|old(writer.answered)|]), last, valid)
    {
      ghost var before := writer.asked;
      ghost var log := writer.answered;
      var reply := writer.Ask(request);
      DropSnoc(log, reply, |old(writer.answered)|);
      FirstAcceptedSnoc(log[|old(writer.answered)|..], reply, last, valid);
      var question := Candidate(reply);
      if Accepts(question, last, valid) {
        found := Some(question);
      }
      attempt := attempt + 1;
    }
  }

  /** generate_question: the first acceptable answer of at most two, else the
      fallback from the table of canned questions `canned`; answers are judged
      by `valid`, which the interview sets to IsValidQuestion. */
  method GenerateQuestion(domain: string, slot: string, excerpt: string, userText: string,
                          f: FilledSlots, lastQuestion: string, valid: string -> bool,
                          canned: seq<(string, seq<(string, string)>)>, writer: Oracle<Request, Value>)
    returns (q: string)
    modifies writer
    ensures q != []
    ensures old(writer.answered) <= writer.answered
    ensures old(writer.asked) <= writer.asked
    ensures var replies := writer.answered[|old(writer.answered)|..];
      && 1 <= |replies| <= 2
      && q == Outcome(replies, Strip(lastQuestion), valid, FallbackIn(canned, domain, slot))
    ensures |writer.asked| - |old(writer.asked)| == |writer.answered| - |old(writer.answered)|
    ensures writer.asked[|old(writer.asked)|] == MakeRequest(domain, slot, excerpt, userText, f, lastQuestion)
    ensures |writer.asked| == |old(writer.asked)| + 2 ==>
      writer.asked[|old(writer.asked)| + 1] == MakeRequest(domain, slot, excerpt, userText, f, lastQuestion)
  {
    var request := MakeRequest(domain, slot, excerpt, userText, f, lastQuestion);
    var found := AskTwice(request, valid, writer);
    q := match found case Some(a) => a case None => FallbackIn(canned, domain, slot);
  }
}
