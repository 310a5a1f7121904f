/** The guard on generated popup messages: a message must be non-blank; a
    message written as if from a family member ("Mom: ...") needs a family
    member in the student's profile; and a message written as if from a named
    person ("Rahul: ...") needs that name to be the stored friend or comparison
    person, or the generic "friend"/"friends". */
module PopupValidator {
  import opened Text
  import opened Json

  /** The stored profile: the session's filled slots, domain -> slot -> value. */
  type Profile = map<string, Value>

  const FamilyTags: seq<string> := ["mom", "mother", "dad", "father", "brother", "parents", "family"]

  /** The family prefixes without their colon: "mom:", "mummy:", ... are each of
      these followed by ':', and stripping the colon gives these back. */
  const FamilyRoots: seq<string> := ["mom", "mummy", "dad", "papa", "father", "brother", "bhai", "parents", "family"]

  /** The generic names every chat-style prefix may use. */
  const GenericFriends: seq<string> := ["friend", "friends"]

  // ---------------------------------------------------------------------
  // Reading the profile

  /** `(profile.get(section) or {}).get(key)` */
  function Field(profile: Profile, section: string, key: string): Value {
    Get(DictOr(Get(profile, section)), key)
  }

  /** The profile entries the guard reads hold a dictionary (or nothing) and,
      inside it, text (or nothing); the slot store writes only such values, so
      none of the reads raise. */
  predicate Readable(profile: Profile) {
    && DictLike(Get(profile, "family_pressure")) && TextLike(Field(profile, "family_pressure", "family_member"))
    && DictLike(Get(profile, "distractions")) && TextLike(Field(profile, "distractions", "friend_name"))
    && DictLike(Get(profile, "social_comparison")) && TextLike(Field(profile, "social_comparison", "comparison_person"))
  }

  /** `_norm`: `(value or "").strip().lower()` */
  function Norm(v: Value): (r: string)
    requires TextLike(v)
    ensures |r| == |Strip(TextOr(v))|
  {
    Lower(Strip(TextOr(v)))
  }

  /** `_has_family`: the stored family member mentions one of the family tags. */
  predicate HasFamily(profile: Profile)
    requires Readable(profile)
  {
    exists k :: 0 <= k < |FamilyTags| && Contains(Norm(Field(profile, "family_pressure", "family_member")), FamilyTags[k])
  }

  /** The generic names together with the non-empty ones of the two stored,
      normalised texts. */
  function NamesWith(a: string, b: string): (r: set<string>)
    ensures forall x :: x in r <==> x in GenericFriends || (x != [] && x == a) || (x != [] && x == b)
  {
    (if a != [] then {a} else {}) + (if b != [] then {b} else {}) + (set g | g in GenericFriends)
  }

  /** `_allowed_friend_names`: the stored friend name and comparison person,
      stripped and lower-cased when non-empty (lower-casing keeps the length),
      and the two generic names. */
  function AllowedFriendNames(profile: Profile): (r: set<string>)
    requires Readable(profile)
    ensures forall x :: x in r <==>
      || x in GenericFriends
      || (x != [] && x == Norm(Field(profile, "distractions", "friend_name")))
      || (x != [] && x == Norm(Field(profile, "social_comparison", "comparison_person")))
  {
    NamesWith(Norm(Field(profile, "distractions", "friend_name")),
              Norm(Field(profile, "social_comparison", "comparison_person")))
  }

  // ---------------------------------------------------------------------
  // The chat-style prefix: re.match(r"\s*([a-zA-Z][a-zA-Z0-9 _\-]{1,30})\s*:", msg)

  predicate IsAsciiLetter(c: char) {
    ('a' <= c <= 'z') || ('A' <= c <= 'Z')
  }

  /** The characters of `[a-zA-Z0-9 _\-]`. */
  predicate IsNameChar(c: char) {
    IsAsciiLetter(c) || IsDigit(c) || c == ' ' || c == '_' || c == '-'
  }

  /** `\s*:` matches at index p: a run of whitespace, then a colon. */
  predicate ColonAfterSpace(msg: string, p: int) {
    exists q :: 0 <= p <= q < |msg| && msg[q] == ':' && forall m :: p <= m < q ==> IsSpace(msg[m])
  }

  /** The captured group can end at index e: a letter, 1 to 30 name characters,
      then `\s*:`. The message is stripped, so the leading `\s*` matches nothing
      and the group starts at index 0. */
  predicate LabelEndsAt(msg: string, e: int) {
    && 2 <= e <= 31 && e <= |msg|
    && IsAsciiLetter(msg[0])
    && (forall m :: 1 <= m < e ==> IsNameChar(msg[m]))
    && ColonAfterSpace(msg, e)
  }

  /** The first group end at or after e. */
  function FirstLabelEnd(msg: string, e: nat): (r: Option<nat>)
    ensures r.Some? ==> e <= r.value && LabelEndsAt(msg, r.value)
    ensures r.Some? ==> forall e' :: e <= e' < r.value ==> !LabelEndsAt(msg, e')
    ensures r.None? ==> forall e' :: e <= e' ==> !LabelEndsAt(msg, e')
    decreases 32 - e
  {
    if e > 31 then None
    else if LabelEndsAt(msg, e) then Some(e)
    else FirstLabelEnd(msg, e + 1)
  }

  /** Two ends the pattern allows differ only by whitespace, so the stripped
      group is the same whichever end the matcher settles on. */
  lemma LabelEndsAgree(msg: string, e1: int, e2: int)
    requires LabelEndsAt(msg, e1) && LabelEndsAt(msg, e2) && e1 <= e2
    ensures Strip(msg[..e1]) == Strip(msg[..e2])
  {
    var q :| 0 <= e1 <= q < |msg| && msg[q] == ':' && forall m :: e1 <= m < q ==> IsSpace(msg[m]);
    assert forall m :: 1 <= m < e2 ==> msg[m] != ':';
    assert e2 <= q;
    assert msg[..e2] == msg[..e1] + msg[e1..e2];
    assert IsBlank(msg[e1..e2]) by {
      forall m | 0 <= m < e2 - e1 ensures IsSpace(msg[e1..e2][m]) {
        assert msg[e1..e2][m] == msg[e1 + m];
      }
    }
    RStripBlankSuffix(msg[..e1], msg[e1..e2]);
  }

  /** `friend_match.group(1).strip().lower()` when the pattern matches. */
  function FriendLabel(msg: string): (r: Option<string>)
    ensures r.None? <==> forall e :: !LabelEndsAt(msg, e)
    ensures r.Some? ==> forall e :: LabelEndsAt(msg, e) ==> r.value == Lower(Strip(msg[..e]))
  {
    match FirstLabelEnd(msg, 0)
    case None => None
    case Some(e) =>
      assert forall e' :: LabelEndsAt(msg, e') ==> e <= e';
      forall e' | LabelEndsAt(msg, e') ensures Lower(Strip(msg[..e])) == Lower(Strip(msg[..e'])) {
        LabelEndsAgree(msg, e, e');
      }
      Some(Lower(Strip(msg[..e])))
  }

  // ---------------------------------------------------------------------
  // validate_popup_message

  /** The lowered message starts with one of the family prefixes. */
  predicate FamilyPrefixed(lowered: string) {
    exists k :: 0 <= k < |FamilyRoots| && StartsWith(lowered, FamilyRoots[k] + ":")
  }

  /** A chat-style label that is neither a family root nor an allowed name. */
  predicate LabelRejected(msg: string, profile: Profile)
    requires Readable(profile)
  {
    match FriendLabel(msg)
    case None => false
    case Some(p) => p !in FamilyRoots && p !in AllowedFriendNames(profile) && p !in GenericFriends
  }

  /** The sentences of the last-resort branch: '!' and '?' read as '.', then the
      stripped non-blank pieces between dots. */
  function Sentences(lowered: string): (r: seq<string>)
    ensures forall p <- r :: Trimmed(p)
  {
    StrippedNonBlank(SplitOn(ReplaceChar(ReplaceChar(lowered, '!', '.'), '?', '.'), '.'))
  }

  /** validate_popup_message, branch for branch. */
  function ValidatePopupMessage(message: string, profile: Profile): (ok: bool)
    requires Readable(profile)
    ensures ok ==> !IsBlank(message)
  {
    var msg := Strip(message);
    StripEmptyIffBlank(message);
    if msg == [] then false
    else if FamilyPrefixed(Lower(LStrip(msg))) && !HasFamily(profile) then false
    else if LabelRejected(msg, profile) then false
    else if |NonBlankLines(msg)| >= 1 then true
    else |Sentences(Lower(msg))| >= 2
  }

  /** A non-blank message has a non-blank line, so the sentence branch is never
      reached. */
  lemma NonBlankHasLine(msg: string)
    requires !IsBlank(msg)
    ensures NonBlankLines(msg) != []
  {
    NonBlankJoinHasPart(SplitOn(msg, '\n'));
  }

  lemma {:induction false} NonBlankJoinHasPart(parts: seq<string>)
    requires parts != [] && !IsBlank(Join(parts, "\n"))
    ensures StrippedNonBlank(parts) != []
  {
    StripEmptyIffBlank(parts[0]);
    if IsBlank(parts[0]) {
      assert |parts| > 1;
      BlankHeadJoin(parts[0], Join(parts[1..], "\n"));
      NonBlankJoinHasPart(parts[1..]);
    }
  }

  /** Past a blank first part, the non-blank text lies in the rest. */
  lemma BlankHeadJoin(head: string, rest: string)
    requires IsBlank(head) && !IsBlank(head + "\n" + rest)
    ensures !IsBlank(rest)
  {
    var s := head + "\n" + rest;
    var i :| 0 <= i < |s| && !IsSpace(s[i]);
    assert s[i] == rest[i - |head| - 1];
  }

  /** The verdict without the dead branch: a message is accepted exactly when it
      is non-blank, a family prefix comes with a family member in the profile,
      and a chat-style label is a family root or an allowed name. */
  lemma ValidateVerdict(message: string, profile: Profile)
    requires Readable(profile)
    ensures ValidatePopupMessage(message, profile) <==>
      && !IsBlank(message)
      && (FamilyPrefixed(Lower(Strip(message))) ==> HasFamily(profile))
      && !LabelRejected(Strip(message), profile)
  {
    StripEmptyIffBlank(message);
    StrippedHasLine(message);
  }

  /** A non-empty stripped message has no leading whitespace and a non-blank
      line. */
  lemma StrippedHasLine(message: string)
    ensures Strip(message) != [] ==> LStrip(Strip(message)) == Strip(message) && NonBlankLines(Strip(message)) != []
  {
    var msg := Strip(message);
    if msg != [] {
      StripEmptyIffBlank(msg);
      NonBlankHasLine(msg);
      assert LStrip(msg) == msg;
    }
  }

  /** An accepted chat-style label names a family root (and then the family
      prefix rule applied) or a name the profile allows. */
  lemma AcceptedLabel(message: string, profile: Profile)
    requires Readable(profile)
    requires ValidatePopupMessage(message, profile)
    ensures FriendLabel(Strip(message)).Some? ==>
      FriendLabel(Strip(message)).value in FamilyRoots || FriendLabel(Strip(message)).value in AllowedFriendNames(profile)
  {
    ValidateVerdict(message, profile);
  }
}
