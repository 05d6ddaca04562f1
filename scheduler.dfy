/**
 * Per-kana memory state and the choice of the next card to drill.
 *
 * The spaced-repetition computation itself belongs to an external library;
 * here it is the function `advance`, passed in by the caller, of which only
 * the `due` time of its result is ever read. Times are integers
 * (milliseconds); the value of `Math.random()` is the real `r`, with
 * 0 <= r < 1, that the caller supplies.
 */
module Scheduler {
  import opened Wrappers
  import opened Kana

  /** The two grades the engine hands to the scheduling function. */
  datatype Grade = Again | Good

  /**
   * The scheduler's payload for one kana. `due` is when the card should next
   * be shown; `memory` stands for the scheduler's own fields, which this
   * engine passes through without reading.
   */
  datatype Card = Card(due: int, memory: seq<real>)

  /** A kana's memory state: the scheduler payload and the latest response times. */
  datatype CardState = CardState(kana: string, card: Card, times: seq<int>)

  /** How many response times a card remembers. */
  const MaxTimes: nat := 10

  /** The scheduler's fresh card: due at once, with no memory yet. */
  function EmptyCard(now: int): Card
  {
    Card(now, [])
  }

  /** The memory state of a kana seen for the first time. */
  function InitCard(entry: Entry, now: int): (c: CardState)
    ensures c.kana == entry.kana && c.times == []
    ensures c.card.due == now
  {
    CardState(entry.kana, EmptyCard(now), [])
  }

  function Min(a: int, b: int): int
  {
    if a <= b then a else b
  }

  /** The last `n` elements of `s` (all of `s` when it is shorter). */
  function KeepLast<T>(s: seq<T>, n: nat): (r: seq<T>)
    ensures |r| == Min(n, |s|)
    ensures r == s[|s| - |r|..]
  {
    if |s| <= n then s else s[|s| - n..]
  }

  /**
   * Records one review: the scheduler advances the payload, the response
   * time joins the history and the oldest time falls out past `MaxTimes`.
   */
  function ReviewCard(state: CardState, grade: Grade, responseTime: int, now: int,
                      advance: (Card, Grade, int) -> Card): CardState
  {
    CardState(state.kana, advance(state.card, grade, now), KeepLast(state.times + [responseTime], MaxTimes))
  }

  /**
   * A review keeps the kana, takes the scheduler's new payload, and leaves a
   * history ending in this response time and holding at most `MaxTimes`
   * times: the latest ones, oldest first.
   */
  lemma ReviewCardRecords(state: CardState, grade: Grade, responseTime: int, now: int,
                          advance: (Card, Grade, int) -> Card)
    ensures var r := ReviewCard(state, grade, responseTime, now, advance);
            && r.kana == state.kana
            && r.card == advance(state.card, grade, now)
            && |r.times| == Min(MaxTimes, |state.times| + 1)
            && r.times[|r.times| - 1] == responseTime
            && r.times == (state.times + [responseTime])[|state.times| + 1 - |r.times|..]
  {
  }

  /** One review to replay: its grade, the response time and the clock reading. */
  datatype Review = Review(grade: Grade, responseTime: int, now: int)

  /** The card after the reviews of `steps`, in order. */
  function Replay(state: CardState, steps: seq<Review>, advance: (Card, Grade, int) -> Card): CardState
    decreases |steps|
  {
    if steps == [] then state
    else
      var last := steps[|steps| - 1];
      ReviewCard(Replay(state, steps[..|steps| - 1], advance), last.grade, last.responseTime, last.now, advance)
  }

  /** The response times of `steps`, in order. */
  function ResponseTimes(steps: seq<Review>): seq<int>
    decreases |steps|
  {
    if steps == [] then [] else ResponseTimes(steps[..|steps| - 1]) + [steps[|steps| - 1].responseTime]
  }

  /** Trimming before appending one element and trimming again loses nothing. */
  lemma KeepLastAppend<T>(s: seq<T>, x: T, n: nat)
    ensures KeepLast(KeepLast(s, n) + [x], n) == KeepLast(s + [x], n)
  {
  }

  /**
   * However many reviews a card goes through, its history is the last
   * `MaxTimes` of all the response times it has been given, and it keeps its kana.
   */
  lemma {:induction false} ReplayKeepsLastTimes(state: CardState, steps: seq<Review>,
                                                advance: (Card, Grade, int) -> Card)
    requires steps != [] || |state.times| <= MaxTimes
    ensures Replay(state, steps, advance).kana == state.kana
    ensures Replay(state, steps, advance).times == KeepLast(state.times + ResponseTimes(steps), MaxTimes)
  {
    if steps == [] {
      assert state.times + [] == state.times;
    } else {
      var prefix, last := steps[..|steps| - 1], steps[|steps| - 1];
      if prefix == [] {
        assert ResponseTimes(steps) == [last.responseTime];
        return;
      }
      ReplayKeepsLastTimes(state, prefix, advance);
      KeepLastAppend(state.times + ResponseTimes(prefix), last.responseTime, MaxTimes);
      assert state.times + ResponseTimes(steps) == state.times + ResponseTimes(prefix) + [last.responseTime];
    }
  }

  /** `Math.floor(r * n)`: the index a random `r` in [0, 1) picks among `n` candidates. */
  function Pick(n: nat, r: real): (i: nat)
    requires n > 0 && 0.0 <= r < 1.0
    ensures i < n
  {
    ScaleOrder(r, 1.0, n as real);
    (r * n as real).Floor
  }

  /** Each index is picked by exactly the numbers of one interval of width 1/n: the pick is uniform. */
  lemma PickUniform(n: nat, r: real, j: nat)
    requires n > 0 && 0.0 <= r < 1.0
    ensures Pick(n, r) == j <==> j as real / n as real <= r < (j + 1) as real / n as real
  {
    var nr := n as real;
    var x := r * nr;
    ScaleOrder(j as real / nr, r, nr);
    ScaleOrder(r, (j + 1) as real / nr, nr);
    assert (j as real / nr) * nr == j as real;
    assert ((j + 1) as real / nr) * nr == (j + 1) as real;
  }

  /** Multiplying by a positive number keeps the order of two reals. */
  lemma ScaleOrder(a: real, b: real, c: real)
    requires c > 0.0
    ensures a <= b <==> a * c <= b * c
    ensures a < b <==> a * c < b * c
  {
    if a <= b {
      assert b * c - a * c == (b - a) * c;
    } else {
      assert a * c - b * c == (a - b) * c;
    }
  }

  /** The number j/n picks index j: every candidate can be chosen. */
  lemma PickReaches(n: nat, j: nat)
    requires j < n
    ensures 0.0 <= j as real / n as real < 1.0
    ensures Pick(n, j as real / n as real) == j
  {
    PickUniform(n, j as real / n as real, j);
  }

  /** The cards of `cards` that are due at `now`, in order. */
  function DueNow(cards: seq<CardState>, now: int): seq<CardState>
    decreases |cards|
  {
    if cards == [] then []
    else
      var c := cards[|cards| - 1];
      DueNow(cards[..|cards| - 1], now) + (if c.card.due <= now then [c] else [])
  }

  /** The earliest due time among `cards`. */
  function MinDue(cards: seq<CardState>): int
    requires cards != []
    decreases |cards|
  {
    var c := cards[|cards| - 1];
    if |cards| == 1 then c.card.due
    else Min(MinDue(cards[..|cards| - 1]), c.card.due)
  }

  /** `MinDue` is the least due time, and some card has it. */
  lemma {:induction false} MinDueIsLeast(cards: seq<CardState>)
    requires cards != []
    ensures forall c :: c in cards ==> MinDue(cards) <= c.card.due
    ensures exists c :: c in cards && c.card.due == MinDue(cards)
    decreases |cards|
  {
    var c := cards[|cards| - 1];
    if |cards| == 1 {
      assert c in cards;
    } else {
      var prefix := cards[..|cards| - 1];
      MinDueIsLeast(prefix);
      assert cards == prefix + [c];
      var d :| d in prefix && d.card.due == MinDue(prefix);
      assert d in cards;
    }
  }

  /** The cards of `cards` due exactly at `m`, in order. */
  function Ties(cards: seq<CardState>, m: int): seq<CardState>
    decreases |cards|
  {
    if cards == [] then []
    else
      var c := cards[|cards| - 1];
      Ties(cards[..|cards| - 1], m) + (if c.card.due == m then [c] else [])
  }

  /** `DueNow` keeps exactly the cards due at `now`. */
  lemma {:induction false} DueNowMembers(cards: seq<CardState>, now: int)
    ensures forall c :: c in DueNow(cards, now) <==> c in cards && c.card.due <= now
    decreases |cards|
  {
    if cards != [] {
      var prefix := cards[..|cards| - 1];
      DueNowMembers(prefix, now);
      assert cards == prefix + [cards[|cards| - 1]];
    }
  }

  /** `Ties` keeps exactly the cards due at `m`. */
  lemma {:induction false} TiesMembers(cards: seq<CardState>, m: int)
    ensures forall c :: c in Ties(cards, m) <==> c in cards && c.card.due == m
    decreases |cards|
  {
    if cards != [] {
      var prefix := cards[..|cards| - 1];
      TiesMembers(prefix, m);
      assert cards == prefix + [cards[|cards| - 1]];
    }
  }

  /**
   * The card the TypeScript scheduler's `getNextDue` returns: a random one among those due,
   * or, when none is due, a random one among those tied at the earliest due time.
   */
  function SelectNext(cards: seq<CardState>, now: int, r: real): Option<CardState>
    requires 0.0 <= r < 1.0
  {
    if cards == [] then None
    else
      var due := DueNow(cards, now);
      if |due| > 0 then Some(due[Pick(|due|, r)])
      else
        var soonest := Ties(cards, MinDue(cards));
        if |soonest| > 0 then Some(soonest[Pick(|soonest|, r)]) else None
  }

  /** Nothing is selected exactly when there is nothing to select from. */
  lemma SelectNextNoneIffEmpty(cards: seq<CardState>, now: int, r: real)
    requires 0.0 <= r < 1.0
    ensures SelectNext(cards, now, r).None? <==> cards == []
  {
    if cards != [] && |DueNow(cards, now)| == 0 {
      TiesMembers(cards, MinDue(cards));
      MinDueIsLeast(cards);
      var c :| c in cards && c.card.due == MinDue(cards);
      assert c in Ties(cards, MinDue(cards));
    }
  }

  /** The selected card is one of the input cards. */
  lemma SelectNextIsMember(cards: seq<CardState>, now: int, r: real)
    requires 0.0 <= r < 1.0
    ensures SelectNext(cards, now, r).Some? ==> SelectNext(cards, now, r).value in cards
  {
    if cards != [] {
      DueNowMembers(cards, now);
      TiesMembers(cards, MinDue(cards));
      var due := DueNow(cards, now);
      if |due| > 0 {
        assert due[Pick(|due|, r)] in due;
      } else {
        var soonest := Ties(cards, MinDue(cards));
        if |soonest| > 0 {
          assert soonest[Pick(|soonest|, r)] in soonest;
        }
      }
    }
  }

  /** When some card is due, the selected card is due too. */
  lemma SelectNextPrefersDue(cards: seq<CardState>, now: int, r: real, c: CardState)
    requires 0.0 <= r < 1.0
    requires c in cards && c.card.due <= now
    ensures SelectNext(cards, now, r).Some?
    ensures SelectNext(cards, now, r).value.card.due <= now
  {
    DueNowMembers(cards, now);
    var due := DueNow(cards, now);
    assert c in due;
    assert due[Pick(|due|, r)] in due;
  }

  /** When no card is due, the selected card is due no later than any other. */
  lemma SelectNextSoonest(cards: seq<CardState>, now: int, r: real)
    requires 0.0 <= r < 1.0
    requires cards != []
    requires forall c :: c in cards ==> c.card.due > now
    ensures SelectNext(cards, now, r).Some?
    ensures SelectNext(cards, now, r).value.card.due == MinDue(cards)
    ensures forall c :: c in cards ==> SelectNext(cards, now, r).value.card.due <= c.card.due
  {
    TiesMembers(cards, MinDue(cards));
    MinDueIsLeast(cards);
    SelectNextNoneIffEmpty(cards, now, r);
    NothingDue(cards, now);
    var soonest := Ties(cards, MinDue(cards));
    assert soonest[Pick(|soonest|, r)] in soonest;
  }

  /** Every due card is selected by some random number. */
  lemma DueCardReachable(cards: seq<CardState>, now: int, c: CardState)
    requires c in cards && c.card.due <= now
    ensures exists r :: 0.0 <= r < 1.0 && SelectNext(cards, now, r) == Some(c)
  {
    DueNowMembers(cards, now);
    var due := DueNow(cards, now);
    assert c in due;
    var j :| 0 <= j < |due| && due[j] == c;
    PickReaches(|due|, j);
    var r := j as real / |due| as real;
    assert SelectNext(cards, now, r) == Some(c);
  }

  /** When no card is due, every card at the earliest due time is selected by some random number. */
  lemma SoonestCardReachable(cards: seq<CardState>, now: int, c: CardState)
    requires forall d :: d in cards ==> d.card.due > now
    requires c in cards && c.card.due == MinDue(cards)
    ensures exists r :: 0.0 <= r < 1.0 && SelectNext(cards, now, r) == Some(c)
  {
    TiesMembers(cards, MinDue(cards));
    NothingDue(cards, now);
    var soonest := Ties(cards, MinDue(cards));
    assert c in soonest;
    var j :| 0 <= j < |soonest| && soonest[j] == c;
    PickReaches(|soonest|, j);
    var r := j as real / |soonest| as real;
    assert SelectNext(cards, now, r) == Some(c);
  }

  /** No card is tied at a time earlier than every due time. */
  lemma {:induction false} NoTiesBelow(cards: seq<CardState>, m: int)
    requires forall c :: c in cards ==> m < c.card.due
    ensures Ties(cards, m) == []
    decreases |cards|
  {
    if cards != [] {
      NoTiesBelow(cards[..|cards| - 1], m);
      assert cards[|cards| - 1] in cards;
    }
  }

  /** When every card is due after `now`, none is due now. */
  lemma {:induction false} NothingDue(cards: seq<CardState>, now: int)
    requires forall c :: c in cards ==> c.card.due > now
    ensures DueNow(cards, now) == []
    decreases |cards|
  {
    if cards != [] {
      NothingDue(cards[..|cards| - 1], now);
      assert cards[|cards| - 1] in cards;
    }
  }

  /** The first card seen is the earliest so far and the only one tied at its time. */
  lemma SoonestFirst(c: CardState)
    ensures MinDue([c]) == c.card.due
    ensures Ties([c], c.card.due) == [c]
  {
    assert [c][..0] == [];
  }

  /** One more card: the earliest time and its ties after it, as the soonest pass updates them. */
  lemma SoonestStep(cards: seq<CardState>, c: CardState)
    requires cards != []
    ensures var m := MinDue(cards);
      && (c.card.due < m ==> MinDue(cards + [c]) == c.card.due && Ties(cards + [c], c.card.due) == [c])
      && (c.card.due == m ==> MinDue(cards + [c]) == m && Ties(cards + [c], m) == Ties(cards, m) + [c])
      && (c.card.due > m ==> MinDue(cards + [c]) == m && Ties(cards + [c], m) == Ties(cards, m))
  {
    var m := MinDue(cards);
    assert (cards + [c])[..|cards|] == cards;
    if c.card.due < m {
      MinDueIsLeast(cards);
      NoTiesBelow(cards, c.card.due);
    }
  }

  /**
   * The TypeScript scheduler's `getNextDue`, over the cards in the order the map yields
   * them: one pass collects the due cards, a second the cards tied at the
   * earliest due time, restarting the list whenever an earlier time appears.
   */
  method GetNextDue(cards: seq<CardState>, now: int, r: real) returns (res: Option<CardState>)
    requires 0.0 <= r < 1.0
    ensures res == SelectNext(cards, now, r)
  {
    if |cards| == 0 {
      return None;
    }
    var dueNow: seq<CardState> := [];
    var i := 0;
    while i < |cards|
      invariant 0 <= i <= |cards|
      invariant dueNow == DueNow(cards[..i], now)
    {
      assert cards[..i + 1][..i] == cards[..i];
      if cards[i].card.due <= now {
        dueNow := dueNow + [cards[i]];
      }
      i := i + 1;
    }
    assert cards[..i] == cards;
    if |dueNow| > 0 {
      return Some(dueNow[Pick(|dueNow|, r)]);
    }
    var soonestDue: Option<int> := None;
    var soonestCandidates: seq<CardState> := [];
    i := 0;
    while i < |cards|
      invariant 0 <= i <= |cards|
      invariant i == 0 <==> soonestDue.None?
      invariant i == 0 ==> soonestCandidates == []
      invariant i > 0 ==> soonestDue == Some(MinDue(cards[..i]))
      invariant i > 0 ==> soonestCandidates == Ties(cards[..i], MinDue(cards[..i]))
    {
      var due := cards[i].card.due;
      assert cards[..i + 1] == cards[..i] + [cards[i]];
      if i == 0 {
        assert cards[..1] == [cards[0]];
        SoonestFirst(cards[0]);
      } else {
        SoonestStep(cards[..i], cards[i]);
      }
      if soonestDue.None? || due < soonestDue.value {
        soonestDue := Some(due);
        soonestCandidates := [cards[i]];
      } else if due == soonestDue.value {
        soonestCandidates := soonestCandidates + [cards[i]];
      }
      i := i + 1;
    }
    assert cards[..i] == cards;
    if |soonestCandidates| > 0 {
      return Some(soonestCandidates[Pick(|soonestCandidates|, r)]);
    }
    return None;
  }
}
