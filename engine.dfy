/**
 * The review-session engine: it holds the card map, the settings, the
 * session counters and the cursor on the kana being quizzed, and judges the
 * learner's input keystroke by keystroke.
 *
 * The engine's collaborators are explicit: the clocks are the parameters
 * `now` (wall clock, for due times) and `tick` (the timer that measures
 * response times); the random number is `r`; the scheduling library's
 * review step is the function `advance` given to `Attempt`; what the store
 * returned is passed to `Init`; and every write to the store and every callback to the
 * presentation layer is appended, in order, to the effect log `log`.
 */
module SessionEngine {
  import opened Wrappers
  import opened Kana
  import opened Scheduler

  // ---------------------------------------------------------------------
  // Input normalization: lower-casing, then trimming.
  // ---------------------------------------------------------------------

  /** The characters ECMAScript's `trim` removes: WhiteSpace and LineTerminator. */
  predicate IsSpace(c: char)
  {
    || c == '\t' || c == '\n' || c == '\U{000B}' || c == '\U{000C}' || c == '\r'
    || c == ' ' || c == '\U{00A0}' || c == '\U{1680}' || ('\U{2000}' <= c <= '\U{200A}')
    || c == '\U{2028}' || c == '\U{2029}' || c == '\U{202F}' || c == '\U{205F}'
    || c == '\U{3000}' || c == '\U{FEFF}'
  }

  /** Lower-cases an ASCII capital; every other character is left as it is. */
  function LowerChar(c: char): char
  {
    if 'A' <= c <= 'Z' then (c as int + 32) as char else c
  }

  /** `toLowerCase`, on the ASCII letters. */
  function ToLower(s: string): (r: string)
    ensures |r| == |s|
  {
    if s == [] then [] else [LowerChar(s[0])] + ToLower(s[1..])
  }

  /** Drops the leading white space. */
  function TrimStart(s: string): (r: string)
    ensures |r| <= |s|
  {
    if s != [] && IsSpace(s[0]) then TrimStart(s[1..]) else s
  }

  /** Drops the trailing white space. */
  function TrimEnd(s: string): (r: string)
    ensures |r| <= |s|
  {
    if s != [] && IsSpace(s[|s| - 1]) then TrimEnd(s[..|s| - 1]) else s
  }

  /** `trim`. */
  function Trim(s: string): string
  {
    TrimEnd(TrimStart(s))
  }

  /**
   * The TypeScript engine's `input.toLowerCase().trim()`: the result has no
   * upper-case ASCII letter left and no white space at either end.
   */
  function Normalize(input: string): (r: string)
    ensures ToLower(r) == r && Trim(r) == r
  {
    LowerTrimmedIsFixed(input);
    Trim(ToLower(input))
  }

  predicate AllSpace(p: string)
  {
    forall i :: 0 <= i < |p| ==> IsSpace(p[i])
  }

  /** Lower-casing maps every character on its own. */
  lemma {:induction false} ToLowerMapsEach(s: string)
    ensures forall i :: 0 <= i < |s| ==> ToLower(s)[i] == LowerChar(s[i])
  {
    if s != [] {
      ToLowerMapsEach(s[1..]);
    }
  }

  /** Lower-casing a lower-cased string changes nothing. */
  lemma {:induction false} ToLowerIdempotent(s: string)
    ensures ToLower(ToLower(s)) == ToLower(s)
  {
    if s != [] {
      ToLowerIdempotent(s[1..]);
      assert ToLower(s)[1..] == ToLower(s[1..]);
    }
  }

  /** Lower-casing works piecewise over a concatenation. */
  lemma {:induction false} ToLowerAppend(a: string, b: string)
    ensures ToLower(a + b) == ToLower(a) + ToLower(b)
  {
    if a != [] {
      ToLowerAppend(a[1..], b);
      assert (a + b)[0] == a[0] && (a + b)[1..] == a[1..] + b;
    } else {
      assert a + b == b;
    }
  }

  /** `TrimStart` removes a run of white space from the front, and nothing more. */
  lemma {:induction false} TrimStartDropsLeadingSpace(s: string)
    ensures exists pre :: s == pre + TrimStart(s) && AllSpace(pre)
    ensures TrimStart(s) != [] ==> !IsSpace(TrimStart(s)[0])
    decreases |s|
  {
    if s != [] && IsSpace(s[0]) {
      TrimStartDropsLeadingSpace(s[1..]);
      var pre :| s[1..] == pre + TrimStart(s[1..]) && AllSpace(pre);
      assert s == ([s[0]] + pre) + TrimStart(s);
      assert AllSpace([s[0]] + pre);
    } else {
      assert s == [] + TrimStart(s);
      assert AllSpace([]);
    }
  }

  /** `TrimEnd` removes a run of white space from the back, and nothing more. */
  lemma {:induction false} TrimEndDropsTrailingSpace(s: string)
    ensures exists post :: s == TrimEnd(s) + post && AllSpace(post)
    ensures TrimEnd(s) != [] ==> !IsSpace(TrimEnd(s)[|TrimEnd(s)| - 1])
    decreases |s|
  {
    if s != [] && IsSpace(s[|s| - 1]) {
      var init := s[..|s| - 1];
      TrimEndDropsTrailingSpace(init);
      var post :| init == TrimEnd(init) + post && AllSpace(post);
      assert s == init + [s[|s| - 1]];
      assert s == TrimEnd(s) + (post + [s[|s| - 1]]);
      assert AllSpace(post + [s[|s| - 1]]);
    } else {
      assert s == TrimEnd(s) + [];
      assert AllSpace([]);
    }
  }

  /**
   * The trim of `s` is `s` with a run of white space cut from each end, and
   * it neither starts nor ends with white space.
   */
  lemma TrimIsInnerSlice(s: string)
    ensures exists pre, post :: s == pre + Trim(s) + post && AllSpace(pre) && AllSpace(post)
    ensures Trim(s) != [] ==> !IsSpace(Trim(s)[0]) && !IsSpace(Trim(s)[|Trim(s)| - 1])
  {
    var t := TrimStart(s);
    TrimStartDropsLeadingSpace(s);
    TrimEndDropsTrailingSpace(t);
    var pre :| s == pre + t && AllSpace(pre);
    var post :| t == TrimEnd(t) + post && AllSpace(post);
    assert s == pre + Trim(s) + post;
    if Trim(s) != [] {
      assert Trim(s)[0] == t[0];
    }
  }

  /** A string that starts and ends with something other than white space is its own trim. */
  lemma TrimmedIsFixed(s: string)
    requires s != [] ==> !IsSpace(s[0]) && !IsSpace(s[|s| - 1])
    ensures Trim(s) == s
  {
    assert TrimStart(s) == s;
    assert TrimEnd(s) == s;
  }

  /** The middle of a string that lower-casing leaves alone is left alone too. */
  lemma ToLowerFixesMiddle(pre: string, n: string, post: string)
    requires ToLower(pre + n + post) == pre + n + post
    ensures ToLower(n) == n
  {
    ToLowerAppend(pre + n, post);
    ToLowerAppend(pre, n);
    assert n == (pre + n + post)[|pre|..|pre| + |n|];
    assert ToLower(n) == (ToLower(pre) + ToLower(n) + ToLower(post))[|pre|..|pre| + |n|];
  }

  /** The trim of a lower-cased string is left alone by lower-casing and by trimming. */
  lemma LowerTrimmedIsFixed(input: string)
    ensures ToLower(Trim(ToLower(input))) == Trim(ToLower(input))
    ensures Trim(Trim(ToLower(input))) == Trim(ToLower(input))
  {
    var lowered := ToLower(input);
    var n := Trim(lowered);
    TrimIsInnerSlice(lowered);
    var pre, post :| lowered == pre + n + post && AllSpace(pre) && AllSpace(post);
    ToLowerIdempotent(input);
    ToLowerFixesMiddle(pre, n, post);
    TrimmedIsFixed(n);
  }

  /** Normalizing twice is normalizing once: typed input can be re-checked safely. */
  lemma NormalizeIdempotent(input: string)
    ensures Normalize(Normalize(input)) == Normalize(input)
  {
  }

  // ---------------------------------------------------------------------
  // Judging an attempt.
  // ---------------------------------------------------------------------

  /** What one attempt amounts to. */
  datatype Outcome = Correct | Incorrect | Pending

  /** Some accepted reading starts with `s`: the learner may still be typing toward it. */
  predicate IsValidPrefix(readings: seq<string>, s: string)
  {
    exists rd :: rd in readings && s <= rd
  }

  /**
   * The verdict on normalized input `s` for a kana with `readings`: empty is
   * pending, an accepted reading is correct, the start of one is pending, and
   * anything else is wrong at once.
   */
  function Judge(readings: seq<string>, s: string): Outcome
  {
    if |s| == 0 then Pending
    else if s in readings then Correct
    else if IsValidPrefix(readings, s) then Pending
    else Incorrect
  }

  /** Input is judged correct exactly when it is non-empty and one of the readings. */
  lemma JudgeCorrectIff(readings: seq<string>, s: string)
    ensures Judge(readings, s) == Correct <==> s != [] && s in readings
  {
  }

  /**
   * The non-destructive prefix check predicts the fast failure: non-empty
   * input is judged incorrect exactly when no reading starts with it.
   */
  lemma JudgeIncorrectIff(readings: seq<string>, s: string)
    ensures Judge(readings, s) == Incorrect <==> s != [] && !IsValidPrefix(readings, s)
  {
    if s in readings {
      assert s <= s;
    }
  }

  /** Every kana has a reading, so the empty input is the start of one: `checkPrefix("")` holds. */
  lemma EmptyInputIsValidPrefix(readings: Readings)
    ensures IsValidPrefix(readings, "")
  {
    assert readings[0] in readings && "" <= readings[0];
  }

  /** Typing any accepted reading key by key never fails on the way. */
  lemma TypingAReadingNeverFails(readings: seq<string>, rd: string, k: nat)
    requires rd in readings && k <= |rd|
    ensures Judge(readings, rd[..k]) != Incorrect
    ensures Judge(readings, rd) == (if rd == [] then Pending else Correct)
  {
    assert rd[..k] <= rd;
  }

  /** Pending non-empty input can always still be completed into a correct answer. */
  lemma PendingCanComplete(readings: seq<string>, s: string)
    requires s != [] && Judge(readings, s) == Pending
    ensures exists rest :: Judge(readings, s + rest) == Correct
  {
    var rd :| rd in readings && s <= rd;
    assert s + rd[|s|..] == rd;
  }

  /** The worked example for し, accepted as "shi" or "si". */
  lemma ShiExample()
    ensures Judge(["shi", "si"], "s") == Pending
    ensures Judge(["shi", "si"], "sh") == Pending
    ensures Judge(["shi", "si"], "shi") == Correct
    ensures Judge(["shi", "si"], "si") == Correct
    ensures Judge(["shi", "si"], "x") == Incorrect
  {
    var rs := ["shi", "si"];
    assert |"s"| != |"shi"| && |"s"| != |"si"| && |"sh"| != |"shi"| && "sh"[1] != "si"[1];
    assert "shi"[..1] == "s" && "shi"[..2] == "sh";
    assert IsValidPrefix(rs, "s") && IsValidPrefix(rs, "sh") by {
      assert "shi" in rs;
    }
    assert "shi"[0] != 'x' && "si"[0] != 'x';
  }

  // ---------------------------------------------------------------------
  // Session statistics.
  // ---------------------------------------------------------------------

  /** The four lifetime counters; response times are in milliseconds. */
  datatype Stats = Stats(correct: nat, incorrect: nat, totalTime: int, responses: nat)

  const ZeroStats := Stats(0, 0, 0, 0)

  /** Every response was judged either correct or incorrect. */
  predicate Consistent(s: Stats)
  {
    s.responses == s.correct + s.incorrect
  }

  /** The counters after one judged response taking `responseTime`. */
  function RecordResponse(s: Stats, correct: bool, responseTime: int): (r: Stats)
    ensures r.responses == s.responses + 1
    ensures r.correct + r.incorrect == s.correct + s.incorrect + 1
    ensures r.correct == s.correct + (if correct then 1 else 0)
    ensures r.totalTime == s.totalTime + responseTime
    ensures Consistent(s) ==> Consistent(r)
  {
    if correct then Stats(s.correct + 1, s.incorrect, s.totalTime + responseTime, s.responses + 1)
    else Stats(s.correct, s.incorrect + 1, s.totalTime + responseTime, s.responses + 1)
  }

  // ---------------------------------------------------------------------
  // Settings patches.
  // ---------------------------------------------------------------------

  /** A partial settings object: the fields present replace those of the settings. */
  datatype SettingsPatch = SettingsPatch(hiragana: Option<bool>, katakana: Option<bool>,
                                         rows: Option<seq<Row>>, theme: Option<string>)

  /** `{ ...settings, ...patch }`. */
  function Merge(s: Settings, p: SettingsPatch): (r: Settings)
    ensures r.hiragana == p.hiragana.GetOr(s.hiragana) && r.katakana == p.katakana.GetOr(s.katakana)
    ensures r.rows == p.rows.GetOr(s.rows) && r.theme == p.theme.GetOr(s.theme)
  {
    Settings(p.hiragana.GetOr(s.hiragana), p.katakana.GetOr(s.katakana),
             p.rows.GetOr(s.rows), p.theme.GetOr(s.theme))
  }

  /** Applying the same patch twice changes nothing more; an empty patch changes nothing. */
  lemma MergeIdempotent(s: Settings, p: SettingsPatch)
    ensures Merge(Merge(s, p), p) == Merge(s, p)
    ensures Merge(s, SettingsPatch(None, None, None, None)) == s
  {
  }

  const DefaultRows: seq<Row> := [A, Ka, Sa, Ta, Na, Ha, Ma, Ya, Ra, Wa, Dakuten, Combo]

  /** The settings an engine starts with: hiragana only, every row, the system theme. */
  const DefaultSettings := Settings(true, false, DefaultRows, "system")

  // ---------------------------------------------------------------------
  // Specification functions over the active set and the card map.
  // ---------------------------------------------------------------------

  /** The glyphs of `es`. */
  function KeysOf(es: seq<Entry>): set<string>
  {
    set e | e in es :: e.kana
  }

  /** The glyph-to-entry map built by inserting `es` in order (a later entry replaces an earlier one). */
  function KanaIndex(es: seq<Entry>): map<string, Entry>
    decreases |es|
  {
    if es == [] then map[] else KanaIndex(es[..|es| - 1])[es[|es| - 1].kana := es[|es| - 1]]
  }

  /** The index has a key for every glyph of `es`, and each key maps to an entry of `es` with that glyph. */
  lemma {:induction false} KanaIndexSound(es: seq<Entry>)
    ensures KanaIndex(es).Keys == KeysOf(es)
    ensures forall k :: k in KanaIndex(es) ==> KanaIndex(es)[k] in es && KanaIndex(es)[k].kana == k
    decreases |es|
  {
    if es != [] {
      var prefix := es[..|es| - 1];
      KanaIndexSound(prefix);
      assert es == prefix + [es[|es| - 1]];
      assert KeysOf(es) == KeysOf(prefix) + {es[|es| - 1].kana};
    }
  }

  /**
   * The cards of the active entries, in the order the TypeScript engine's `next` inserts
   * them into a fresh `Map`: a glyph already inserted keeps its first place.
   */
  function ActiveCards(es: seq<Entry>, cards: map<string, CardState>): seq<CardState>
    decreases |es|
  {
    if es == [] then []
    else
      var prefix, e := es[..|es| - 1], es[|es| - 1];
      if e.kana in cards && e.kana !in KeysOf(prefix) then ActiveCards(prefix, cards) + [cards[e.kana]]
      else ActiveCards(prefix, cards)
  }

  /** Each active card is the card of some active entry. */
  lemma {:induction false} ActiveCardsSound(es: seq<Entry>, cards: map<string, CardState>)
    ensures forall c :: c in ActiveCards(es, cards) ==> exists e :: e in es && e.kana in cards && c == cards[e.kana]
    decreases |es|
  {
    if es != [] {
      var prefix := es[..|es| - 1];
      ActiveCardsSound(prefix, cards);
      assert es == prefix + [es[|es| - 1]];
    }
  }

  /** Every active entry that has a card contributes that card: no stored active card is skipped. */
  lemma {:induction false} ActiveCardsComplete(es: seq<Entry>, cards: map<string, CardState>, e: Entry)
    requires e in es && e.kana in cards
    ensures cards[e.kana] in ActiveCards(es, cards)
    decreases |es|
  {
    var prefix, last := es[..|es| - 1], es[|es| - 1];
    assert es == prefix + [last];
    if e == last {
      if last.kana in KeysOf(prefix) {
        var d :| d in prefix && d.kana == last.kana;
        ActiveCardsComplete(prefix, cards, d);
      }
    } else {
      ActiveCardsComplete(prefix, cards, e);
    }
  }

  /**
   * `after` is `before` with a fresh card for each active glyph that had none:
   * existing cards, in scope or dormant, are kept as they were.
   */
  ghost predicate AddsMissing(before: map<string, CardState>, after: map<string, CardState>,
                              es: seq<Entry>, now: int)
  {
    && after.Keys == before.Keys + KeysOf(es)
    && (forall k :: k in before ==> after[k] == before[k])
    && (forall e :: e in es && e.kana !in before ==> after[e.kana] == InitCard(e, now))
  }

  /** One step of the missing-card loop: the next entry gets a fresh card unless its glyph has one. */
  lemma AddsMissingStep(before: map<string, CardState>, mid: map<string, CardState>,
                        es: seq<Entry>, e: Entry, now: int)
    requires AddsMissing(before, mid, es, now)
    ensures AddsMissing(before, if e.kana in mid then mid else mid[e.kana := InitCard(e, now)], es + [e], now)
  {
  }

  /** `cards` holds exactly a fresh card for each glyph of `es`. */
  ghost predicate FreshCards(cards: map<string, CardState>, es: seq<Entry>, now: int)
  {
    && cards.Keys == KeysOf(es)
    && (forall e :: e in es ==> cards[e.kana] == InitCard(e, now))
  }

  /** One step of the reset loop: the next entry's glyph gets a fresh card. */
  lemma FreshCardsStep(cards: map<string, CardState>, es: seq<Entry>, e: Entry, now: int)
    requires FreshCards(cards, es, now)
    ensures FreshCards(cards[e.kana := InitCard(e, now)], es + [e], now)
  {
  }

  /** Fresh cards are filed under their own glyphs. */
  lemma FreshCardsWellKeyed(cards: map<string, CardState>, es: seq<Entry>, now: int)
    requires FreshCards(cards, es, now)
    ensures forall k :: k in cards ==> cards[k].kana == k
  {
    forall k | k in cards
      ensures cards[k].kana == k
    {
      var e :| e in es && e.kana == k;
    }
  }

  /** Extending a sequence of entries adds that entry's glyph to its glyphs. */
  lemma KeysOfSnoc(es: seq<Entry>, e: Entry)
    ensures KeysOf(es + [e]) == KeysOf(es) + {e.kana}
  {
  }

  /**
   * When every active kana has a card filed under its own glyph, the
   * scheduler always has a card to offer, and its glyph is in the index.
   */
  lemma CoveredActiveSetYieldsCard(active: seq<Entry>, cards: map<string, CardState>, now: int, r: real)
    requires 0.0 <= r < 1.0 && active != []
    requires forall e :: e in active ==> e.kana in cards
    requires forall k :: k in cards ==> cards[k].kana == k
    ensures SelectNext(ActiveCards(active, cards), now, r).Some?
    ensures SelectNext(ActiveCards(active, cards), now, r).value.kana in KanaIndex(active)
  {
    var ac := ActiveCards(active, cards);
    ActiveCardsComplete(active, cards, active[0]);
    SelectNextNoneIffEmpty(ac, now, r);
    SelectNextIsMember(ac, now, r);
    ActiveCardsSound(active, cards);
    KanaIndexSound(active);
  }

  /** The exact-match scan of `attempt`. */
  method HasReading(readings: seq<string>, s: string) returns (found: bool)
    ensures found <==> s in readings
  {
    for i := 0 to |readings|
      invariant forall j :: 0 <= j < i ==> readings[j] != s
    {
      if s == readings[i] {
        return true;
      }
    }
    return false;
  }

  /** The `startsWith` scan shared by `attempt` and `checkPrefix`. */
  method SomeReadingStartsWith(readings: seq<string>, s: string) returns (found: bool)
    ensures found <==> IsValidPrefix(readings, s)
  {
    for i := 0 to |readings|
      invariant forall j :: 0 <= j < i ==> !(s <= readings[j])
    {
      if s <= readings[i] {
        assert readings[i] in readings;
        return true;
      }
    }
    return false;
  }

  /** The verdict of `attempt` on raw input: normalize, then the two scans. */
  method JudgeInput(readings: seq<string>, input: string) returns (o: Outcome)
    ensures o == Judge(readings, Normalize(input))
  {
    var normalized := Normalize(input);
    if |normalized| == 0 {
      return Pending;
    }
    var exact := HasReading(readings, normalized);
    if exact {
      return Correct;
    }
    var partial := SomeReadingStartsWith(readings, normalized);
    if partial {
      return Pending;
    }
    return Incorrect;
  }

  // ---------------------------------------------------------------------
  // The engine.
  // ---------------------------------------------------------------------

  /** The kana on screen, its memory state when it was chosen, and when it was shown. */
  datatype Cursor = Cursor(entry: Entry, state: CardState, startTime: int)

  /** What `next` hands to the presentation layer. */
  datatype Prompt = Prompt(kana: string, readings: Readings)

  /** A write to the store or a callback to the presentation layer. */
  datatype Effect =
    | SaveCards(cards: map<string, CardState>)
    | SaveSettings(settings: Settings)
    | SaveStats(stats: Stats)
    | OnPrompt(kana: string)
    | OnCorrect(due: int)
    | OnIncorrect(correctReading: string, due: int)
    | OnStatsUpdate(stats: Stats)

  /**
   * The callback `attempt` makes after reviewing the card: the next due time
   * on success; the canonical reading and the next due time on failure.
   */
  function Verdict(c: Cursor, correct: bool, updated: CardState): Effect
  {
    if correct then OnCorrect(updated.card.due) else OnIncorrect(c.entry.readings[0], updated.card.due)
  }

  class Engine {
    /** The kana catalog the engine draws from (always `Kana.Catalog`). */
    const catalog: seq<Entry>

    var cards: map<string, CardState>
    var settings: Settings
    var stats: Stats
    var current: Option<Cursor>
    var kanaMap: map<string, Entry>
    /** The store writes and callbacks made so far, in order. */
    var log: seq<Effect>

    /** The kana in scope under the current settings. */
    function Active(): seq<Entry>
      reads this`settings
    {
      Select(catalog, settings)
    }

    /** The glyph index matches the settings, and the cursor's entry and card agree on the glyph. */
    ghost predicate Valid()
      reads this`settings, this`kanaMap, this`current
    {
      && kanaMap == KanaIndex(Active())
      && (current.Some? ==> current.value.entry.kana == current.value.state.kana)
    }

    /** Every active kana has a card. */
    ghost predicate Covers()
      reads this`settings, this`cards
    {
      forall e :: e in Active() ==> e.kana in cards
    }

    /** Every card is filed under its own glyph. */
    ghost predicate WellKeyed()
      reads this`cards
    {
      forall k :: k in cards ==> cards[k].kana == k
    }

    /** `createEngine`: default settings, zero counters, no cards and no cursor. */
    constructor ()
      ensures Valid()
      ensures catalog == Kana.Catalog
      ensures cards == map[] && settings == DefaultSettings && stats == ZeroStats
      ensures current == None && log == []
    {
      this.catalog := Kana.Catalog;
      cards := map[];
      settings := DefaultSettings;
      stats := ZeroStats;
      current := None;
      kanaMap := map[];
      log := [];
      new;
      UpdateKanaMap();
    }

    /** Rebuilds the glyph index from the active set. */
    method UpdateKanaMap()
      modifies this`kanaMap
      ensures kanaMap == KanaIndex(Active())
    {
      kanaMap := map[];
      var active := Select(catalog, settings);
      for i := 0 to |active|
        invariant kanaMap == KanaIndex(active[..i])
      {
        assert active[..i + 1][..i] == active[..i];
        kanaMap := kanaMap[active[i].kana := active[i]];
      }
      assert active[..|active|] == active;
    }

    /** The loop shared by `init` and `updateSettings`: a fresh card for each active kana without one. */
    method AddMissingCards(now: int) returns (added: bool)
      modifies this`cards
      ensures AddsMissing(old(cards), cards, Active(), now)
      ensures added <==> cards.Keys != old(cards).Keys
      ensures old(WellKeyed()) ==> WellKeyed()
    {
      var active := Select(catalog, settings);
      added := false;
      for i := 0 to |active|
        invariant AddsMissing(old(cards), cards, active[..i], now)
        invariant added <==> cards.Keys != old(cards).Keys
        invariant old(WellKeyed()) ==> WellKeyed()
      {
        var entry := active[i];
        assert active[..i + 1] == active[..i] + [entry];
        AddsMissingStep(old(cards), cards, active[..i], entry, now);
        if entry.kana !in cards {
          cards := cards[entry.kana := InitCard(entry, now)];
          added := true;
        }
      }
      assert active[..|active|] == active;
    }

    /**
     * `init`: adopts what the store returned, rebuilds the glyph index and
     * gives every active kana a card, saving the cards only if one was added.
     */
    method Init(loadedCards: map<string, CardState>, loadedSettings: Settings, loadedStats: Stats, now: int)
      requires Valid()
      modifies this`cards, this`settings, this`stats, this`kanaMap, this`log
      ensures Valid() && Covers()
      ensures settings == loadedSettings && stats == loadedStats && current == old(current)
      ensures AddsMissing(loadedCards, cards, Active(), now)
      ensures log == old(log) + (if cards.Keys != loadedCards.Keys then [SaveCards(cards)] else [])
      ensures (forall k :: k in loadedCards ==> loadedCards[k].kana == k) ==> WellKeyed()
    {
      cards := loadedCards;
      settings := loadedSettings;
      stats := loadedStats;
      UpdateKanaMap();
      var needsSave := AddMissingCards(now);
      if needsSave {
        log := log + [SaveCards(cards)];
      }
    }

    /** The cards of `active`, in the order the TypeScript engine's `next` inserts them into a fresh `Map`. */
    method CollectActiveCards(active: seq<Entry>) returns (activeCards: seq<CardState>)
      ensures activeCards == ActiveCards(active, cards)
    {
      activeCards := [];
      var inserted: set<string> := {};
      for i := 0 to |active|
        invariant activeCards == ActiveCards(active[..i], cards)
        invariant inserted == KeysOf(active[..i]) * cards.Keys
      {
        var entry := active[i];
        assert active[..i + 1] == active[..i] + [entry];
        assert active[..i + 1][..i] == active[..i];
        KeysOfSnoc(active[..i], entry);
        if entry.kana in cards && entry.kana !in inserted {
          activeCards := activeCards + [cards[entry.kana]];
          inserted := inserted + {entry.kana};
        }
      }
      assert active[..|active|] == active;
    }

    /**
     * `next`: picks the kana to show among the active ones that have a card
     * and puts the cursor on it; nothing when no kana is in scope.
     */
    method Next(now: int, tick: int, r: real) returns (item: Option<Prompt>)
      requires Valid() && 0.0 <= r < 1.0
      modifies this`current, this`log
      ensures Valid()
      ensures Active() == [] ==> item.None?
      ensures item.None? ==> current == old(current) && log == old(log)
      ensures item.Some? ==>
                && current.Some?
                && current.value.entry in Active()
                && item.value == Prompt(current.value.entry.kana, current.value.entry.readings)
                && current.value.startTime == tick
                && SelectNext(ActiveCards(Active(), cards), now, r) == Some(current.value.state)
                && log == old(log) + [OnPrompt(item.value.kana)]
      ensures Covers() && WellKeyed() && Active() != [] ==> item.Some?
    {
      var active := Select(catalog, settings);
      if |active| == 0 {
        return None;
      }
      var activeCards := CollectActiveCards(active);
      ghost var willShow := Covers() && WellKeyed();
      if willShow {
        CoveredActiveSetYieldsCard(active, cards, now, r);
      }
      KanaIndexSound(active);
      var nextState := GetNextDue(activeCards, now, r);
      if nextState.None? {
        return None;
      }
      if nextState.value.kana !in kanaMap {
        return None;
      }
      var entry := kanaMap[nextState.value.kana];
      current := Some(Cursor(entry, nextState.value, tick));
      log := log + [OnPrompt(entry.kana)];
      return Some(Prompt(entry.kana, entry.readings));
    }

    /**
     * Reviews the card under the cursor with the verdict, counts the
     * response, saves cards and counters and reports to the presentation layer.
     */
    method RecordReview(cur: Cursor, correct: bool, tick: int, now: int, advance: (Card, Grade, int) -> Card)
      requires cur.entry.kana == cur.state.kana
      modifies this`cards, this`stats, this`log
      ensures var updated := ReviewCard(cur.state, if correct then Good else Again, tick - cur.startTime, now, advance);
              && cards == old(cards)[cur.entry.kana := updated]
              && stats == RecordResponse(old(stats), correct, tick - cur.startTime)
              && log == old(log) + [SaveCards(cards), SaveStats(stats), Verdict(cur, correct, updated),
                                    OnStatsUpdate(stats)]
      ensures Consistent(old(stats)) ==> Consistent(stats)
      ensures old(Covers()) ==> Covers()
      ensures old(WellKeyed()) ==> WellKeyed()
    {
      var responseTime := tick - cur.startTime;
      var updated := ReviewCard(cur.state, if correct then Good else Again, responseTime, now, advance);
      cards := cards[cur.entry.kana := updated];
      stats := RecordResponse(stats, correct, responseTime);
      log := log + [SaveCards(cards), SaveStats(stats), Verdict(cur, correct, updated), OnStatsUpdate(stats)];
    }

    /**
     * `attempt`: judges `input` against the kana under the cursor. A correct
     * or incorrect verdict reviews the card, counts the response, saves and
     * reports; a correct one also clears the cursor. Pending changes nothing.
     */
    method Attempt(input: string, tick: int, now: int, advance: (Card, Grade, int) -> Card) returns (o: Outcome)
      requires Valid()
      modifies this`cards, this`stats, this`current, this`log
      ensures Valid()
      ensures old(current).None? ==> o == Pending
      ensures old(current).Some? ==> o == Judge(old(current).value.entry.readings, Normalize(input))
      ensures o == Pending ==>
                cards == old(cards) && stats == old(stats) && current == old(current) && log == old(log)
      ensures o != Pending ==>
                var c := old(current).value;
                var updated := ReviewCard(c.state, if o == Correct then Good else Again, tick - c.startTime, now, advance);
                && cards == old(cards)[c.entry.kana := updated]
                && stats == RecordResponse(old(stats), o == Correct, tick - c.startTime)
                && log == old(log) + [SaveCards(cards), SaveStats(stats), Verdict(c, o == Correct, updated),
                                      OnStatsUpdate(stats)]
      ensures current == (if o == Correct then None else old(current))
      ensures Consistent(old(stats)) ==> Consistent(stats)
      ensures old(Covers()) ==> Covers()
      ensures old(WellKeyed()) ==> WellKeyed()
    {
      if current.None? {
        return Pending;
      }
      var cur := current.value;
      o := JudgeInput(cur.entry.readings, input);
      if o != Pending {
        RecordReview(cur, o == Correct, tick, now, advance);
        if o == Correct {
          current := None;
        }
      }
    }

    /** `checkPrefix`: whether some reading of the kana under the cursor starts with the normalized input. */
    method CheckPrefix(input: string) returns (ok: bool)
      ensures ok <==> current.Some? && IsValidPrefix(current.value.entry.readings, Normalize(input))
    {
      if current.None? {
        return false;
      }
      ok := SomeReadingStartsWith(current.value.entry.readings, Normalize(input));
    }

    /** `getCurrentReadings`: the accepted readings of the kana under the cursor, if any. */
    method GetCurrentReadings() returns (rs: Option<Readings>)
      ensures current.None? <==> rs.None?
      ensures current.Some? ==> rs == Some(current.value.entry.readings)
    {
      if current.None? {
        return None;
      }
      return Some(current.value.entry.readings);
    }

    /**
     * `updateSettings`: merges the patch, saves the settings, rebuilds the
     * glyph index and gives every newly active kana a card; no card is dropped.
     */
    method UpdateSettings(patch: SettingsPatch, now: int)
      requires Valid()
      modifies this`settings, this`kanaMap, this`cards, this`log
      ensures Valid() && Covers()
      ensures settings == Merge(old(settings), patch)
      ensures AddsMissing(old(cards), cards, Active(), now)
      ensures log == old(log) + [SaveSettings(settings)]
                     + (if cards.Keys != old(cards).Keys then [SaveCards(cards)] else [])
      ensures old(WellKeyed()) ==> WellKeyed()
    {
      settings := Merge(settings, patch);
      log := log + [SaveSettings(settings)];
      UpdateKanaMap();
      var needsSave := AddMissingCards(now);
      if needsSave {
        log := log + [SaveCards(cards)];
      }
    }

    /** The loop of `resetProgress`, run on an empty card map: a fresh card for each active kana. */
    method SeedCards(now: int)
      requires cards == map[]
      modifies this`cards
      ensures FreshCards(cards, Active(), now)
    {
      var active := Select(catalog, settings);
      for i := 0 to |active|
        invariant FreshCards(cards, active[..i], now)
      {
        var entry := active[i];
        assert active[..i + 1] == active[..i] + [entry];
        FreshCardsStep(cards, active[..i], entry, now);
        cards := cards[entry.kana := InitCard(entry, now)];
      }
      assert active[..|active|] == active;
    }

    /**
     * `resetProgress`: forgets every card and zeroes the counters, clears the
     * cursor, then gives every active kana a fresh card.
     */
    method ResetProgress(now: int)
      requires Valid()
      modifies this`cards, this`stats, this`current, this`log
      ensures Valid() && Covers() && WellKeyed()
      ensures stats == ZeroStats && current == None
      ensures cards.Keys == KeysOf(Active())
      ensures forall e :: e in Active() ==> cards[e.kana] == InitCard(e, now)
      ensures log == old(log) + [SaveCards(map[]), SaveStats(ZeroStats)] + [SaveCards(cards)]
    {
      cards := map[];
      stats := ZeroStats;
      log := log + [SaveCards(cards), SaveStats(stats)];
      current := None;
      SeedCards(now);
      FreshCardsWellKeyed(cards, Select(catalog, settings), now);
      log := log + [SaveCards(cards)];
    }
  }
}
