/** The popups shown when the model's popups are too few or missing: five
    two-line templates, one per popup type, turned into one card per line, in an
    order led by the session's emotion signals. */
module PopupFallback {
  import opened Text
  import opened PopupSchemas

  // ---------------------------------------------------------------------
  // FALLBACK_TEMPLATES

  /** The end of the first pressure line as the source file holds it: an emoji
      whose UTF-8 bytes were decoded as cp1252 text, four characters. */
  const Mojibake: string := "\U{00F0}\U{0178}\U{02DC}\U{201D}"

  const PressureFirst: string := "Schedule feels " + ("crushing right " + "now ") + Mojibake
  const PressureSecond: string := "Slow inhale, " + ("slow exhale, " + "one step at ") + "a time."
  const SelfDoubtFirst: string := "Mind says you " + "aren't prepared " + "enough."
  const SelfDoubtSecond: string := "Counter it: you " + "have survived " + "tougher days."
  const PanicFirst: string := "Heart racing " + "like the bell " + "already rang."
  const PanicSecond: string := "Count 5-4-3-2-1, " + "eyes back to " + "the sheet."
  const MotivationFirst: string := "Dream college " + "still needs " + "your fight."
  const MotivationSecond: string := "Tiny effort now " + "beats big regret " + "later."
  const DistractionFirst: string := "Phone gossip will" + " still be there " + "later."
  const DistractionSecond: string := "Give me 10 " + "focused mins, " + "then check it."

  /** The two lines of each template of FALLBACK_TEMPLATES. */
  const TemplatePairs: map<string, (string, string)> := map[
    "pressure" := (PressureFirst, PressureSecond),
    "self_doubt" := (SelfDoubtFirst, SelfDoubtSecond),
    "panic" := (PanicFirst, PanicSecond),
    "motivation" := (MotivationFirst, MotivationSecond),
    "distraction" := (DistractionFirst, DistractionSecond)
  ]

  /** Each pair of lines joined by "\n". */
  function Joined(pairs: map<string, (string, string)>): (r: map<string, string>)
    ensures r.Keys == pairs.Keys
    ensures forall t <- pairs :: r[t] == pairs[t].0 + "\n" + pairs[t].1
  {
    map t | t in pairs :: pairs[t].0 + "\n" + pairs[t].1
  }

  /** FALLBACK_TEMPLATES: type -> two-line message. */
  const FallbackTemplates: map<string, string> := Joined(TemplatePairs)

  /** `templates.get(t)`, with "" for a missing type. */
  function Template(templates: map<string, string>, t: string): (r: string)
    ensures t in templates ==> r == templates[t]
    ensures t !in templates ==> r == []
  {
    if t in templates then templates[t] else []
  }

  /** The cards one template turns into: its stripped non-blank lines, or the
      whole template when it has none. */
  function FallbackLines(templates: map<string, string>, t: string): (r: seq<string>)
    ensures r != []
  {
    var ls := NonBlankLines(Template(templates, t));
    if ls == [] then [Template(templates, t)] else ls
  }

  /** A template of two distinct trimmed lines, with no whitespace around it. */
  predicate TwoLines(m: string) {
    var ls := NonBlankLines(m);
    && |ls| == 2 && ls[0] != ls[1]
    && m != [] && Strip(m) == m
  }

  /** Every template of the table has two distinct lines. */
  predicate WellFormed(templates: map<string, string>) {
    forall t <- templates :: TwoLines(templates[t])
  }

  // ---------------------------------------------------------------------
  // Facts about the template text

  /** A line made of three pieces, none holding "\n", that starts and ends with a
      non-whitespace character is trimmed and holds no "\n". */
  lemma Piece(a: string, m: string, b: string)
    requires '\n' !in a && '\n' !in m && '\n' !in b
    requires a != [] && !IsSpace(a[0]) && b != [] && !IsSpace(b[|b| - 1])
    ensures Trimmed(a + m + b) && '\n' !in a + m + b
  {
    assert (a + m + b)[0] == a[0];
    assert (a + m + b)[|a + m + b| - 1] == b[|b| - 1];
  }

  lemma PressureFirstClean()
    ensures Trimmed(PressureFirst) && '\n' !in PressureFirst
  {
    assert '\n' !in "Schedule feels ";
    assert '\n' !in "crushing right " + "now ";
    assert '\n' !in Mojibake && !IsSpace(Mojibake[|Mojibake| - 1]);
    assert !IsSpace("Schedule feels "[0]);
    Piece("Schedule feels ", "crushing right " + "now ", Mojibake);
  }

  lemma PressureSecondClean()
    ensures Trimmed(PressureSecond) && '\n' !in PressureSecond
  {
    assert '\n' !in "Slow inhale, ";
    assert '\n' !in "slow exhale, " + "one step at ";
    assert '\n' !in "a time.";
    assert !IsSpace("Slow inhale, "[0]) && !IsSpace("a time."[6]);
    Piece("Slow inhale, ", "slow exhale, " + "one step at ", "a time.");
  }

  lemma SelfDoubtFirstClean()
    ensures Trimmed(SelfDoubtFirst) && '\n' !in SelfDoubtFirst
  {
    assert '\n' !in "Mind says you ";
    assert '\n' !in "aren't prepared ";
    assert '\n' !in "enough.";
    assert !IsSpace("Mind says you "[0]) && !IsSpace("enough."[6]);
    Piece("Mind says you ", "aren't prepared ", "enough.");
  }

  lemma SelfDoubtSecondClean()
    ensures Trimmed(SelfDoubtSecond) && '\n' !in SelfDoubtSecond
  {
    assert '\n' !in "Counter it: you ";
    assert '\n' !in "have survived ";
    assert '\n' !in "tougher days.";
    assert !IsSpace("Counter it: you "[0]) && !IsSpace("tougher days."[12]);
    Piece("Counter it: you ", "have survived ", "tougher days.");
  }

  lemma PanicFirstClean()
    ensures Trimmed(PanicFirst) && '\n' !in PanicFirst
  {
    assert '\n' !in "Heart racing ";
    assert '\n' !in "like the bell ";
    assert '\n' !in "already rang.";
    assert !IsSpace("Heart racing "[0]) && !IsSpace("already rang."[12]);
    Piece("Heart racing ", "like the bell ", "already rang.");
  }

  lemma PanicSecondClean()
    ensures Trimmed(PanicSecond) && '\n' !in PanicSecond
  {
    assert '\n' !in "Count 5-4-3-2-1, ";
    assert '\n' !in "eyes back to ";
    assert '\n' !in "the sheet.";
    assert !IsSpace("Count 5-4-3-2-1, "[0]) && !IsSpace("the sheet."[9]);
    Piece("Count 5-4-3-2-1, ", "eyes back to ", "the sheet.");
  }

  lemma MotivationFirstClean()
    ensures Trimmed(MotivationFirst) && '\n' !in MotivationFirst
  {
    assert '\n' !in "Dream college ";
    assert '\n' !in "still needs ";
    assert '\n' !in "your fight.";
    assert !IsSpace("Dream college "[0]) && !IsSpace("your fight."[10]);
    Piece("Dream college ", "still needs ", "your fight.");
  }

  lemma MotivationSecondClean()
    ensures Trimmed(MotivationSecond) && '\n' !in MotivationSecond
  {
    assert '\n' !in "Tiny effort now ";
    assert '\n' !in "beats big regret ";
    assert '\n' !in "later.";
    assert !IsSpace("Tiny effort now "[0]) && !IsSpace("later."[5]);
    Piece("Tiny effort now ", "beats big regret ", "later.");
  }

  lemma DistractionFirstClean()
    ensures Trimmed(DistractionFirst) && '\n' !in DistractionFirst
  {
    assert '\n' !in "Phone gossip will";
    assert '\n' !in " still be there ";
    assert '\n' !in "later.";
    assert !IsSpace("Phone gossip will"[0]) && !IsSpace("later."[5]);
    Piece("Phone gossip will", " still be there ", "later.");
  }

  lemma DistractionSecondClean()
    ensures Trimmed(DistractionSecond) && '\n' !in DistractionSecond
  {
    assert '\n' !in "Give me 10 ";
    assert '\n' !in "focused mins, ";
    assert '\n' !in "then check it.";
    assert !IsSpace("Give me 10 "[0]) && !IsSpace("then check it."[13]);
    Piece("Give me 10 ", "focused mins, ", "then check it.");
  }

  /** Two distinct lines, each trimmed and without "\n". */
  predicate CleanPair(pair: (string, string)) {
    Trimmed(pair.0) && '\n' !in pair.0 && Trimmed(pair.1) && '\n' !in pair.1 && pair.0 != pair.1
  }

  /** Two clean lines joined by "\n" split back into those lines. */
  lemma TwoLinesOf(a: string, b: string)
    requires CleanPair((a, b))
    ensures NonBlankLines(a + "\n" + b) == [a, b]
    ensures TwoLines(a + "\n" + b)
  {
    var ls := [a, b];
    assert Join(ls, "\n") == a + "\n" + b;
    assert ls[0] in ls && ls[1] in ls;
    SplitOnOfJoin(ls, '\n');
    StrippedNonBlankOfTrimmed(ls);
    JoinTrimmed(ls, "\n");
    StripOfStripped(a + "\n" + b);
  }

  /** Joining clean pairs gives a well-formed table, whose lines are the pairs. */
  lemma JoinedWellFormed(pairs: map<string, (string, string)>)
    requires forall t <- pairs :: CleanPair(pairs[t])
    ensures WellFormed(Joined(pairs))
    ensures forall t <- pairs :: FallbackLines(Joined(pairs), t) == [pairs[t].0, pairs[t].1]
  {
    forall t | t in pairs
      ensures TwoLines(Joined(pairs)[t]) && FallbackLines(Joined(pairs), t) == [pairs[t].0, pairs[t].1]
    {
      TwoLinesOf(pairs[t].0, pairs[t].1);
    }
  }

  lemma DistinctByLength(a: string, b: string)
    requires |a| != |b|
    ensures a != b
  {
  }

  lemma DistinctByHead(a: string, b: string)
    requires a != [] && b != [] && a[0] != b[0]
    ensures a != b
  {
  }

  /** The lines of each template are clean. */
  lemma TemplatePairsClean()
    ensures forall t <- TemplatePairs :: CleanPair(TemplatePairs[t])
  {
    PressureFirstClean();
    PressureSecondClean();
    SelfDoubtFirstClean();
    SelfDoubtSecondClean();
    PanicFirstClean();
    PanicSecondClean();
    MotivationFirstClean();
    MotivationSecondClean();
    DistractionFirstClean();
    DistractionSecondClean();
    assert |PressureFirst| == 38 && |PressureSecond| == 45;
    DistinctByLength(PressureFirst, PressureSecond);
    DistinctByHead(SelfDoubtFirst, SelfDoubtSecond);
    DistinctByHead(PanicFirst, PanicSecond);
    DistinctByHead(MotivationFirst, MotivationSecond);
    DistinctByHead(DistractionFirst, DistractionSecond);
  }

  /** Each of the five templates is two distinct lines, and those lines are
      the cards it turns into. */
  lemma FallbackTemplatesWellFormed()
    ensures WellFormed(FallbackTemplates)
    ensures forall t <- TemplatePairs :: FallbackLines(FallbackTemplates, t) == [TemplatePairs[t].0, TemplatePairs[t].1]
  {
    TemplatePairsClean();
    JoinedWellFormed(TemplatePairs);
  }

  /** Every type with a template is a popup type. */
  lemma TemplateTypesArePopupTypes()
    ensures forall t <- TemplatePairs :: t in PopupTypes
  {
  }

  // ---------------------------------------------------------------------
  // _fallback_sequence

  const DefaultOrder: seq<string> := ["pressure", "self_doubt", "panic", "motivation", "distraction"]

  /** The signals that have a template, first occurrence first, then the
      default types that have one and are not yet named. */
  function FallbackOrder(templates: map<string, string>, signals: seq<string>): (r: seq<string>)
    ensures NoDup(r)
    ensures forall t <- r :: t in templates
  {
    Dedup(Within(signals + DefaultOrder, templates.Keys))
  }

  /** One more candidate: it is appended when it has a template and is not yet
      in the order. */
  lemma OrderStep(keys: set<string>, s: seq<string>, x: string)
    ensures Dedup(Within(s + [x], keys)) ==
      if x in keys && x !in Dedup(Within(s, keys)) then Dedup(Within(s, keys)) + [x]
      else Dedup(Within(s, keys))
  {
    var w := Within(s, keys);
    WithinSnoc(s, x, keys);
    if x in keys {
      DedupSnoc(w, x);
    } else {
      AppendEmpty(w);
    }
  }

  /** One of the two loops of _fallback_sequence: each candidate with a template
      and not yet in the order is appended. */
  method AppendCandidates(keys: set<string>, before: seq<string>, ordered0: seq<string>, candidates: seq<string>)
    returns (ordered: seq<string>)
    requires ordered0 == Dedup(Within(before, keys))
    ensures ordered == Dedup(Within(before + candidates, keys))
  {
    ordered := ordered0;
    AppendEmpty(before);
    var i := 0;
    while i < |candidates|
      invariant 0 <= i <= |candidates|
      invariant ordered == Dedup(Within(before + candidates[..i], keys))
    {
      var c := candidates[i];
      TakeStep(candidates, i);
      AppendAssoc(before, candidates[..i], [c]);
      OrderStep(keys, before + candidates[..i], c);
      if c in keys && c !in ordered {
        ordered := ordered + [c];
      }
      i := i + 1;
    }
    TakeAll(candidates);
  }

  /** _fallback_sequence: the signals, then the default order. */
  method FallbackSequence(signals: seq<string>) returns (ordered: seq<string>)
    ensures ordered == FallbackOrder(FallbackTemplates, signals)
  {
    AppendEmpty(signals);
    ordered := AppendCandidates(FallbackTemplates.Keys, [], [], signals);
    ordered := AppendCandidates(FallbackTemplates.Keys, signals, ordered, DefaultOrder);
  }

  /** The default order names each of the five types with a template once. */
  lemma DefaultOrderFacts()
    ensures NoDup(DefaultOrder)
    ensures forall t <- DefaultOrder :: t in TemplatePairs
    ensures forall t <- TemplatePairs :: t in DefaultOrder
  {
  }

  lemma {:induction false} WithinAll(s: seq<string>, xs: set<string>)
    requires forall t <- s :: t in xs
    ensures Within(s, xs) == s
  {
    if s != [] {
      assert s[0] in s;
      assert forall t <- s[1..] :: t in s;
      WithinAll(s[1..], xs);
      ConsTail(s[0], s[1..]);
    }
  }

  /** When every default type has a template, the order holds every type that
      has one and is a signal or a default, once: first the signals that have
      one, in the order they were first given, then the other default types in
      the default order. */
  lemma FallbackOrderShape(templates: map<string, string>, signals: seq<string>)
    requires forall t <- DefaultOrder :: t in templates
    ensures forall t :: t in FallbackOrder(templates, signals) <==> t in templates && (t in signals || t in DefaultOrder)
    ensures FallbackOrder(templates, signals) ==
      Dedup(Within(signals, templates.Keys)) + Without(DefaultOrder, set x | x in Within(signals, templates.Keys))
  {
    var keys := templates.Keys;
    DefaultOrderNoDup();
    WithinConcat(signals, DefaultOrder, keys);
    WithinAll(DefaultOrder, keys);
    DedupAppendFresh(Within(signals, keys), DefaultOrder);
  }

  lemma DefaultOrderNoDup()
    ensures NoDup(DefaultOrder) && DefaultOrder[0] != DefaultOrder[2]
  {
  }

  /** There are always at least two types to draw from. */
  lemma FallbackOrderTwo(templates: map<string, string>, signals: seq<string>)
    requires forall t <- DefaultOrder :: t in templates
    ensures |FallbackOrder(templates, signals)| >= 2
  {
    var r := FallbackOrder(templates, signals);
    FallbackOrderShape(templates, signals);
    DefaultOrderNoDup();
    var a, b := DefaultOrder[0], DefaultOrder[2];
    assert a in DefaultOrder && b in DefaultOrder;
    assert a in r && b in r;
    var i :| 0 <= i < |r| && r[i] == a;
    var j :| 0 <= j < |r| && r[j] == b;
    assert i != j;
  }

  // ---------------------------------------------------------------------
  // _fallback_popups

  /** The (type, message) pairs already shown. */
  type Key = (string, string)

  /** The cards made so far and the keys seen so far. */
  datatype Acc = Acc(created: seq<Popup>, seen: set<Key>)

  const CardTtl: int := 12000

  function KeyOf(p: Popup): Key {
    (p.kind, p.message)
  }

  function KeysOf(ps: seq<Popup>): set<Key> {
    set p | p in ps :: KeyOf(p)
  }

  lemma KeysOfConcat(a: seq<Popup>, b: seq<Popup>)
    ensures KeysOf(a + b) == KeysOf(a) + KeysOf(b)
  {
  }

  /** One card per line whose key is not yet seen, each key then seen. */
  function LineCards(t: string, lines: seq<string>, acc: Acc): (r: Acc)
    decreases |lines|
  {
    if lines == [] then acc
    else
      var key := (t, lines[0]);
      if key in acc.seen then LineCards(t, lines[1..], acc)
      else LineCards(t, lines[1..], Acc(acc.created + [Popup(t, lines[0], CardTtl)], acc.seen + {key}))
  }

  /** One type's turn: nothing when it has no template or its whole template was
      seen, otherwise a card per unseen line. */
  function TemplateCards(templates: map<string, string>, t: string, acc: Acc): (r: Acc) {
    var message := Template(templates, t);
    if message == [] then acc
    else if (t, Strip(message)) in acc.seen then acc
    else LineCards(t, FallbackLines(templates, t), acc)
  }

  /** The types' turns, one after the other, until `count` cards exist; a turn
      is never cut short, so the last one may pass `count`. */
  function FallbackFrom(templates: map<string, string>, types: seq<string>, count: int, acc: Acc): (r: Acc)
    decreases |types|
  {
    if types == [] || |acc.created| >= count then acc
    else FallbackFrom(templates, types[1..], count, TemplateCards(templates, types[0], acc))
  }

  /** The inner loop of _fallback_popups. */
  method AddLines(t: string, lines: seq<string>, created0: seq<Popup>, seen0: set<Key>)
    returns (created: seq<Popup>, seen: set<Key>)
    ensures Acc(created, seen) == LineCards(t, lines, Acc(created0, seen0))
  {
    created, seen := created0, seen0;
    var i := 0;
    while i < |lines|
      invariant 0 <= i <= |lines|
      invariant LineCards(t, lines, Acc(created0, seen0)) == LineCards(t, lines[i..], Acc(created, seen))
    {
      var line := lines[i];
      assert lines[i..][1..] == lines[i + 1..];
      if (t, line) !in seen {
        created := created + [Popup(t, line, CardTtl)];
        seen := seen + {(t, line)};
      }
      i := i + 1;
    }
  }

  /** _fallback_popups: the cards and the updated seen set. */
  method FallbackPopups(count: int, seen0: set<Key>, signals: seq<string>)
    returns (created: seq<Popup>, seen: set<Key>)
    ensures Acc(created, seen) == FallbackFrom(FallbackTemplates, FallbackOrder(FallbackTemplates, signals), count, Acc([], seen0))
  {
    var types := FallbackSequence(signals);
    created, seen := [], seen0;
    var i := 0;
    while i < |types| && |created| < count
      invariant 0 <= i <= |types|
      invariant FallbackFrom(FallbackTemplates, types, count, Acc([], seen0)) ==
        FallbackFrom(FallbackTemplates, types[i..], count, Acc(created, seen))
    {
      var t := types[i];
      assert types[i..][1..] == types[i + 1..];
      var message := Template(FallbackTemplates, t);
      if message != [] && (t, Strip(message)) !in seen {
        var lines := NonBlankLines(message);
        if lines == [] {
          lines := [message];
        }
        created, seen := AddLines(t, lines, created, seen);
      }
      i := i + 1;
    }
  }

  /** A card the fallback may add after `before`: shown for 12 seconds, and
      its key not seen before. */
  predicate FreshCard(before: Acc, p: Popup) {
    p.ttl == CardTtl && KeyOf(p) !in before.seen
  }

  /** `after` keeps the cards of `before` and adds fresh cards with distinct
      keys; the seen set grows by exactly their keys. */
  predicate Extends(before: Acc, after: Acc) {
    && before.created <= after.created
    && (forall i :: |before.created| <= i < |after.created| ==> FreshCard(before, after.created[i]))
    && (forall i, j :: |before.created| <= i < j < |after.created| ==> KeyOf(after.created[i]) != KeyOf(after.created[j]))
    && after.seen == before.seen + KeysOf(after.created[|before.created|..])
  }

  /** Every card is a line of its type's template. */
  predicate Drawn(templates: map<string, string>, cards: seq<Popup>) {
    forall p <- cards :: p.kind in templates && p.message in FallbackLines(templates, p.kind)
  }

  lemma ExtendsRefl(acc: Acc)
    ensures Extends(acc, acc)
  {
    assert acc.created[|acc.created|..] == [];
  }

  lemma ExtendsTrans(a: Acc, b: Acc, c: Acc)
    requires Extends(a, b) && Extends(b, c)
    ensures Extends(a, c)
  {
    var na, nb, nc := |a.created|, |b.created|, |c.created|;
    assert c.created[..nb] == b.created;
    forall i | na <= i < nc ensures FreshCard(a, c.created[i]) {
      if i < nb {
        assert c.created[i] == b.created[i];
      }
    }
    forall i, j | na <= i < j < nc ensures KeyOf(c.created[i]) != KeyOf(c.created[j]) {
      if i < nb {
        assert c.created[i] == b.created[i] == b.created[na..][i - na];
        if j >= nb {
          assert KeyOf(c.created[i]) in b.seen;
        }
      }
    }
    assert c.created[na..] == b.created[na..] + c.created[nb..];
    KeysOfConcat(b.created[na..], c.created[nb..]);
  }

  /** Adding one card with a fresh key. */
  lemma ExtendsSnoc(acc: Acc, p: Popup)
    requires FreshCard(acc, p)
    ensures Extends(acc, Acc(acc.created + [p], acc.seen + {KeyOf(p)}))
  {
    var after := Acc(acc.created + [p], acc.seen + {KeyOf(p)});
    var n := |acc.created|;
    assert after.created[n] == p;
    assert after.created[n..] == [p];
  }

  /** The cards of some lines extend the accumulator, one card per line at
      most, each card one of the lines. */
  lemma {:induction false} LineCardsExtend(t: string, lines: seq<string>, acc: Acc)
    ensures Extends(acc, LineCards(t, lines, acc))
    ensures |LineCards(t, lines, acc).created| <= |acc.created| + |lines|
    ensures forall p <- LineCards(t, lines, acc).created :: p in acc.created || (p.kind == t && p.message in lines)
    decreases |lines|
  {
    if lines == [] {
      ExtendsRefl(acc);
    } else {
      var key := (t, lines[0]);
      if key in acc.seen {
        LineCardsExtend(t, lines[1..], acc);
      } else {
        var p := Popup(t, lines[0], CardTtl);
        var next := Acc(acc.created + [p], acc.seen + {key});
        ExtendsSnoc(acc, p);
        LineCardsExtend(t, lines[1..], next);
        ExtendsTrans(acc, next, LineCards(t, lines[1..], next));
      }
    }
  }

  /** One type's turn extends the accumulator by at most two cards, each a line
      of the type's template, when every template has two lines. */
  lemma TemplateCardsExtend(templates: map<string, string>, t: string, acc: Acc)
    requires WellFormed(templates)
    ensures Extends(acc, TemplateCards(templates, t, acc))
    ensures |TemplateCards(templates, t, acc).created| <= |acc.created| + 2
    ensures Drawn(templates, acc.created) ==> Drawn(templates, TemplateCards(templates, t, acc).created)
  {
    if Template(templates, t) == [] || (t, Strip(Template(templates, t))) in acc.seen {
      ExtendsRefl(acc);
    } else {
      assert TwoLines(templates[t]);
      LineCardsExtend(t, FallbackLines(templates, t), acc);
    }
  }

  /** The fallback only adds fresh template cards with distinct keys, stops
      once `count` cards exist, and passes `count` by one card at most. */
  lemma {:induction false} FallbackExtends(templates: map<string, string>, types: seq<string>, count: int, acc: Acc)
    requires WellFormed(templates)
    ensures Extends(acc, FallbackFrom(templates, types, count, acc))
    ensures Drawn(templates, acc.created) ==> Drawn(templates, FallbackFrom(templates, types, count, acc).created)
    ensures |acc.created| >= count ==> FallbackFrom(templates, types, count, acc) == acc
    ensures |acc.created| < count ==> |FallbackFrom(templates, types, count, acc).created| <= count + 1
    decreases |types|
  {
    if types == [] || |acc.created| >= count {
      ExtendsRefl(acc);
    } else {
      var next := TemplateCards(templates, types[0], acc);
      TemplateCardsExtend(templates, types[0], acc);
      FallbackExtends(templates, types[1..], count, next);
      ExtendsTrans(acc, next, FallbackFrom(templates, types[1..], count, next));
    }
  }

  /** Distinct lines whose keys are all unseen each become a card. */
  lemma {:induction false} LineCardsAllNew(t: string, lines: seq<string>, acc: Acc)
    requires NoDup(lines) && forall l <- lines :: (t, l) !in acc.seen
    ensures |LineCards(t, lines, acc).created| == |acc.created| + |lines|
    decreases |lines|
  {
    if lines != [] {
      var next := Acc(acc.created + [Popup(t, lines[0], CardTtl)], acc.seen + {(t, lines[0])});
      assert lines[0] in lines;
      assert NoDup(lines[1..]) by {
        forall i, j | 0 <= i < j < |lines| - 1 ensures lines[1..][i] != lines[1..][j] {
          assert lines[1..][i] == lines[i + 1] && lines[1..][j] == lines[j + 1];
        }
      }
      forall l | l in lines[1..] ensures (t, l) !in next.seen {
        var k :| 0 <= k < |lines| - 1 && lines[1..][k] == l;
        assert lines[k + 1] != lines[0];
      }
      LineCardsAllNew(t, lines[1..], next);
    }
  }

  /** The keys LineCards adds are of its type. */
  lemma {:induction false} LineCardsKinds(t: string, lines: seq<string>, acc: Acc)
    ensures forall k <- LineCards(t, lines, acc).seen :: k in acc.seen || k.0 == t
    decreases |lines|
  {
    if lines != [] {
      var key := (t, lines[0]);
      if key in acc.seen {
        LineCardsKinds(t, lines[1..], acc);
      } else {
        LineCardsKinds(t, lines[1..], Acc(acc.created + [Popup(t, lines[0], CardTtl)], acc.seen + {key}));
      }
    }
  }

  lemma NoDupPair(ls: seq<string>)
    requires |ls| == 2 && ls[0] != ls[1]
    ensures NoDup(ls)
  {
  }

  /** A type with a template, none of whose keys has been seen, yields both its
      lines. */
  lemma TemplateCardsFreshType(templates: map<string, string>, t: string, acc: Acc)
    requires t in templates && TwoLines(templates[t]) && forall k <- acc.seen :: k.0 != t
    ensures |TemplateCards(templates, t, acc).created| == |acc.created| + 2
    ensures forall k <- TemplateCards(templates, t, acc).seen :: k in acc.seen || k.0 == t
  {
    var ls := FallbackLines(templates, t);
    assert (t, Strip(Template(templates, t))) !in acc.seen;
    assert TemplateCards(templates, t, acc) == LineCards(t, ls, acc);
    assert |ls| == 2 && ls[0] != ls[1];
    NoDupPair(ls);
    LineCardsAllNew(t, ls, acc);
    LineCardsKinds(t, ls, acc);
  }

  /** With nothing seen, asking for 3 cards yields 4: the first type gives two
      cards, which is fewer than 3, so the second type gives two more. */
  lemma FallbackOvershoot(signals: seq<string>)
    ensures |FallbackFrom(FallbackTemplates, FallbackOrder(FallbackTemplates, signals), 3, Acc([], {})).created| == 4
  {
    FallbackTemplatesWellFormed();
    DefaultOrderFacts();
    FallbackOrderTwo(FallbackTemplates, signals);
    var types := FallbackOrder(FallbackTemplates, signals);
    assert types[0] in types && types[1] in types;
    Overshoot(FallbackTemplates, types, Acc([], {}));
  }

  /** One turn of the fallback, while fewer than `count` cards exist. */
  lemma FallbackStep(templates: map<string, string>, types: seq<string>, count: int, acc: Acc)
    requires types != [] && |acc.created| < count
    ensures FallbackFrom(templates, types, count, acc) == FallbackFrom(templates, types[1..], count, TemplateCards(templates, types[0], acc))
  {
  }

  lemma Overshoot(templates: map<string, string>, types: seq<string>, acc: Acc)
    requires NoDup(types) && |types| >= 2 && types[0] in templates && types[1] in templates
    requires TwoLines(templates[types[0]]) && TwoLines(templates[types[1]])
    requires acc.created == [] && acc.seen == {}
    ensures |FallbackFrom(templates, types, 3, acc).created| == 4
  {
    TemplateCardsFreshType(templates, types[0], acc);
    FallbackStep(templates, types, 3, acc);
    SecondTurn(templates, types, TemplateCards(templates, types[0], acc));
  }

  /** The second turn, after two cards of the first type. */
  lemma SecondTurn(templates: map<string, string>, types: seq<string>, acc: Acc)
    requires NoDup(types) && |types| >= 2 && types[1] in templates && TwoLines(templates[types[1]])
    requires |acc.created| == 2 && forall k <- acc.seen :: k in {} || k.0 == types[0]
    ensures |FallbackFrom(templates, types[1..], 3, acc).created| == 4
  {
    var t0, t1 := types[0], types[1];
    assert t0 != t1;
    TemplateCardsFreshType(templates, t1, acc);
    FallbackStep(templates, types[1..], 3, acc);
    assert types[1..][0] == t1;
  }

  // ---------------------------------------------------------------------
  // _ensure_minimum_popups

  const Minimum: nat := 3
  const Limit: nat := 15

  /** The fallback cards for `count` more popups. */
  function Fallback(count: int, seen: set<Key>, signals: seq<string>): seq<Popup> {
    FallbackFrom(FallbackTemplates, FallbackOrder(FallbackTemplates, signals), count, Acc([], seen)).created
  }

  /** _ensure_minimum_popups: fewer than three popups are topped up from the
      fallback, and the result is cut to fifteen. */
  function EnsureMinimum(popups: seq<Popup>, seen: set<Key>, signals: seq<string>): seq<Popup> {
    var augmented := if |popups| < Minimum then popups + Fallback(Minimum - |popups|, seen, signals) else popups;
    First(augmented, Limit)
  }

  /** _ensure_minimum_popups, step by step. */
  method EnsureMinimumPopups(popups: seq<Popup>, seen: set<Key>, signals: seq<string>) returns (r: seq<Popup>)
    ensures r == EnsureMinimum(popups, seen, signals)
  {
    var augmented := popups;
    if |augmented| < Minimum {
      var added, _ := FallbackPopups(Minimum - |augmented|, seen, signals);
      augmented := augmented + added;
    }
    r := First(augmented, Limit);
  }

  /** The popups given come first and are kept (up to fifteen); any card added
      is a fresh template card whose key is neither seen nor repeated; three
      popups or more pass through untouched but for the cut. */
  lemma EnsureMinimumShape(popups: seq<Popup>, seen: set<Key>, signals: seq<string>)
    ensures |EnsureMinimum(popups, seen, signals)| <= Limit
    ensures First(popups, Limit) <= EnsureMinimum(popups, seen, signals)
    ensures |popups| >= Minimum ==> EnsureMinimum(popups, seen, signals) == First(popups, Limit)
    ensures forall i :: |popups| <= i < |EnsureMinimum(popups, seen, signals)| ==>
      FreshCard(Acc([], seen), EnsureMinimum(popups, seen, signals)[i])
    ensures Drawn(FallbackTemplates, EnsureMinimum(popups, seen, signals)[|First(popups, Limit)|..])
    ensures forall i, j :: |popups| <= i < j < |EnsureMinimum(popups, seen, signals)| ==>
      KeyOf(EnsureMinimum(popups, seen, signals)[i]) != KeyOf(EnsureMinimum(popups, seen, signals)[j])
  {
    var r := EnsureMinimum(popups, seen, signals);
    if |popups| < Minimum {
      var added := Fallback(Minimum - |popups|, seen, signals);
      FallbackTemplatesWellFormed();
      FallbackExtends(FallbackTemplates, FallbackOrder(FallbackTemplates, signals), Minimum - |popups|, Acc([], seen));
      assert r == popups + added;
      forall i | |popups| <= i < |r| ensures FreshCard(Acc([], seen), r[i]) {
        assert r[i] == added[i - |popups|];
      }
      assert r[|popups|..] == added;
      forall i, j | |popups| <= i < j < |r| ensures KeyOf(r[i]) != KeyOf(r[j]) {
        assert r[i] == added[i - |popups|] && r[j] == added[j - |popups|];
      }
    }
  }
}
