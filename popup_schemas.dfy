/** The popup record the generator validates: a type among five, a message of
    5 to 180 characters and a display time of 3 to 15 seconds. The type is
    normalised before it is checked, the message after its length is checked. */
module PopupSchemas {
  import opened Text
  import opened Json

  /** The five popup types. */
  const PopupTypes: seq<string> := ["distraction", "self_doubt", "panic", "pressure", "motivation"]

  /** TYPE_MAP: the synonyms the model may use, each mapped to a popup type. */
  const TypeMap: map<string, string> := map[
    "stress" := "panic",
    "anxiety" := "panic",
    "fear" := "panic",
    "panic" := "panic",
    "parental_pressure" := "pressure",
    "doubt" := "self_doubt",
    "selfdoubt" := "self_doubt",
    "self_doubt" := "self_doubt",
    "pressure" := "pressure",
    "motivation" := "motivation",
    "distraction" := "distraction",
    "girlfriend" := "distraction"
  ]

  /** Every synonym maps to one of the five popup types. */
  lemma TypeMapValues()
    ensures forall k <- TypeMap :: TypeMap[k] in PopupTypes
  {
  }

  // ---------------------------------------------------------------------
  // normalize_type

  /** `value.strip().lower().replace("-", "_").replace(" ", "_")` */
  function TypeKey(s: string): (r: string)
    ensures |r| == |Strip(s)|
    ensures '-' !in r && ' ' !in r
  {
    ReplaceChar(ReplaceChar(Lower(Strip(s)), '-', '_'), ' ', '_')
  }

  /** normalize_type: text is keyed and looked up, an unknown key passes through;
      any other value is left for the type check to refuse. */
  function NormalizeType(v: Value): (r: Value)
    ensures !v.Str? ==> r == v
    ensures v.Str? ==> r.Str?
    ensures v.Str? && TypeKey(v.s) in TypeMap ==> r.s in PopupTypes
    ensures v.Str? && TypeKey(v.s) !in TypeMap ==> r.s == TypeKey(v.s)
  {
    if !v.Str? then v
    else
      var key := TypeKey(v.s);
      if key in TypeMap then
        TypeMapValues();
        Str(TypeMap[key])
      else
        Str(key)
  }

  /** A key has no upper-case letter, no '-' or ' ', and no whitespace at its ends. */
  lemma TypeKeyShape(s: string)
    ensures Lower(TypeKey(s)) == TypeKey(s)
    ensures Strip(TypeKey(s)) == TypeKey(s)
  {
    var st := Strip(s);
    var t := Lower(st);
    var k := TypeKey(s);
    forall i | 0 <= i < |k| ensures LowerChar(k[i]) == k[i] && (IsSpace(k[i]) ==> IsSpace(st[i])) {
      assert k[i] == '_' || k[i] == t[i];
    }
    assert Lower(k) == k;
    StripOfStripped(k);
  }

  /** Keying a key changes nothing. */
  lemma TypeKeyIdempotent(s: string)
    ensures TypeKey(TypeKey(s)) == TypeKey(s)
  {
    TypeKeyShape(s);
  }

  /** A string made of lower-case letters and '_' is its own key. */
  lemma PlainKey(t: string)
    requires forall i :: 0 <= i < |t| ==> 'a' <= t[i] <= 'z' || t[i] == '_'
    ensures TypeKey(t) == t
  {
    StripOfStripped(t);
  }

  /** Each popup type is its own key. */
  lemma PopupTypeKey(t: string)
    requires t in PopupTypes
    ensures TypeKey(t) == t
  {
    assert t == PopupTypes[0] || t == PopupTypes[1] || t == PopupTypes[2] || t == PopupTypes[3] || t == PopupTypes[4];
    if t == PopupTypes[0] {
      PlainKey(PopupTypes[0]);
    } else if t == PopupTypes[1] {
      PlainKey(PopupTypes[1]);
    } else if t == PopupTypes[2] {
      PlainKey(PopupTypes[2]);
    } else if t == PopupTypes[3] {
      PlainKey(PopupTypes[3]);
    } else {
      PlainKey(PopupTypes[4]);
    }
  }

  /** Each popup type maps to itself. */
  lemma PopupTypeMapped(t: string)
    requires t in PopupTypes
    ensures t in TypeMap && TypeMap[t] == t
  {
  }

  /** Normalising a normalised type changes nothing. */
  lemma NormalizeTypeIdempotent(v: Value)
    ensures NormalizeType(NormalizeType(v)) == NormalizeType(v)
  {
    if v.Str? {
      var r := NormalizeType(v);
      if TypeKey(v.s) in TypeMap {
        PopupTypeKey(r.s);
        PopupTypeMapped(r.s);
      } else {
        TypeKeyIdempotent(v.s);
      }
    }
  }

  // ---------------------------------------------------------------------
  // normalize_message

  /** Each non-blank piece, stripped and with its whitespace collapsed. */
  function CollapseLines(parts: seq<string>): (r: seq<string>)
    ensures forall l <- r :: l != [] && Collapsed(l)
    ensures |r| <= |parts|
  {
    if parts == [] then []
    else
      var rest := CollapseLines(parts[1..]);
      var p := Strip(parts[0]);
      if p == [] then rest
      else
        CollapsedPiece(p);
        [Collapse(p)] + rest
  }

  /** A stripped, non-empty piece collapses to a non-empty collapsed line. */
  lemma CollapsedPiece(p: string)
    requires p != [] && !IsSpace(p[0])
    ensures Collapse(p) != [] && Collapsed(Collapse(p))
  {
    CollapseShape(p);
    CollapseEmptyIffBlank(p);
    assert !IsBlank(p) by {
      assert !IsSpace(p[0]);
    }
  }

  /** The lines normalize_message keeps: the message stripped and split on
      "\n", blank lines dropped, each line collapsed. */
  function NormalizedLines(value: string): (r: seq<string>)
    ensures forall l <- r :: l != [] && Collapsed(l)
  {
    CollapseLines(SplitOn(Strip(value), '\n'))
  }

  /** normalize_message */
  function NormalizeMessage(value: string): string {
    Join(NormalizedLines(value), "\n")
  }

  /** A collapsed line holds no "\n". */
  lemma CollapsedHasNoBreak(l: string)
    requires Collapsed(l)
    ensures '\n' !in l
  {
    forall i | 0 <= i < |l| ensures l[i] != '\n' {
      if IsSpace(l[i]) {
        assert l[i] == ' ';
      }
    }
  }

  /** The normalised message splits back into exactly its kept lines: no line is
      blank, none has whitespace at its ends or two whitespace characters in a
      row, and the only whitespace inside a line is ' '. */
  lemma NormalizeMessageLines(value: string)
    ensures NormalizeMessage(value) == [] <==> NormalizedLines(value) == []
    ensures NormalizeMessage(value) != [] ==>
      SplitOn(NormalizeMessage(value), '\n') == NormalizedLines(value)
  {
    var ls := NormalizedLines(value);
    if ls != [] {
      forall l <- ls ensures '\n' !in l {
        CollapsedHasNoBreak(l);
      }
      JoinTrimmed(ls, "\n");
      SplitOnOfJoin(ls, '\n');
    }
  }

  /** Lines already collapsed and non-blank pass through unchanged. */
  lemma {:induction false} CollapseLinesOfCollapsed(ls: seq<string>)
    requires forall l <- ls :: l != [] && Collapsed(l)
    ensures CollapseLines(ls) == ls
  {
    if ls != [] {
      assert ls[0] in ls;
      StripOfStripped(ls[0]);
      CollapseOfCollapsed(ls[0]);
      assert forall l <- ls[1..] :: l in ls;
      CollapseLinesOfCollapsed(ls[1..]);
      ConsTail(ls[0], ls[1..]);
    }
  }

  /** normalize_message is idempotent. */
  lemma NormalizeMessageIdempotent(value: string)
    ensures NormalizeMessage(NormalizeMessage(value)) == NormalizeMessage(value)
  {
    var ls := NormalizedLines(value);
    NormalizeMessageLines(value);
    if ls == [] {
      NormalizeEmpty();
    } else {
      NormalizeKept(ls);
    }
  }

  /** The empty message normalises to itself. */
  lemma NormalizeEmpty()
    ensures NormalizeMessage([]) == []
  {
    assert SplitOn([], '\n') == [[]];
    assert NormalizedLines([]) == [];
  }

  /** Kept lines, joined, normalise to themselves. */
  lemma NormalizeKept(ls: seq<string>)
    requires ls != [] && forall l <- ls :: l != [] && Collapsed(l)
    requires SplitOn(Join(ls, "\n"), '\n') == ls
    ensures NormalizeMessage(Join(ls, "\n")) == Join(ls, "\n")
  {
    var out := Join(ls, "\n");
    JoinTrimmed(ls, "\n");
    StripOfStripped(out);
    CollapseLinesOfCollapsed(ls);
    assert NormalizedLines(out) == ls;
  }

  // ---------------------------------------------------------------------
  // The Popup record

  datatype Popup = Popup(kind: string, message: string, ttl: int)

  const MinMessage: nat := 5
  const MaxMessage: nat := 180
  const MinTtl: int := 3000
  const MaxTtl: int := 15000

  /** Popup.model_validate on a message that is already text: the type is
      normalised and must then be a popup type; the length bounds apply to the
      message as given, and only then is it normalised. */
  function ValidatePopup(kind: Value, message: string, ttl: int): (r: Option<Popup>)
    ensures r.Some? ==> r.value.kind in PopupTypes && r.value.ttl == ttl
    ensures r.Some? ==> r.value.message == NormalizeMessage(message)
    ensures r.Some? <==>
      && NormalizeType(kind).Str? && NormalizeType(kind).s in PopupTypes
      && MinMessage <= |message| <= MaxMessage && MinTtl <= ttl <= MaxTtl
  {
    var t := NormalizeType(kind);
    if t.Str? && t.s in PopupTypes && MinMessage <= |message| <= MaxMessage && MinTtl <= ttl <= MaxTtl then
      Some(Popup(t.s, NormalizeMessage(message), ttl))
    else
      None
  }

  /** The message of a validated popup is in normal form already. */
  lemma ValidatedMessageNormal(kind: Value, message: string, ttl: int)
    requires ValidatePopup(kind, message, ttl).Some?
    ensures NormalizeMessage(ValidatePopup(kind, message, ttl).value.message) ==
      ValidatePopup(kind, message, ttl).value.message
  {
    NormalizeMessageIdempotent(message);
  }
}
