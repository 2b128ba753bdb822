/** The memory game's board: building a deck of paired cards for a difficulty,
    and the match engine that turns two successive card selections into a turn
    (a match, or a mismatch that a later reset flips back). */
module GameBoard {
  import opened Wrappers
  import opened Difficulties
  import Seqs

  /** A card on the board; `kind` is the icon type shared by the two cards of a pair. */
  datatype Card = Card(id: nat, kind: string, matched: bool, flipped: bool)

  /** The icon types, in the order the board takes them from. */
  const Icons: seq<string> :=
    ["lightbulb", "brain", "target", "key", "star", "lock", "search", "puzzle", "zap", "eye"]

  lemma IconsDistinct()
    ensures forall i, j :: 0 <= i < j < |Icons| ==> Icons[i] != Icons[j]
  {
  }

  /** `getCardCount`: the number of pairs dealt for a difficulty. */
  function PairCount(d: Difficulty): (n: nat)
    ensures 6 <= n <= |Icons|
  {
    match d
    case Easy => 6
    case Medium => 8
    case Hard => 10
  }

  /** The pair count of the board is the `maxPairs` the score panel shows. */
  lemma PairCountMatchesPanel(d: Difficulty)
    ensures PairCount(d) == if d == Easy then 6 else if d == Medium then 8 else 10
    ensures PairCount(Easy) < PairCount(Medium) < PairCount(Hard)
  {
  }

  function Kinds(cards: seq<Card>): (ks: seq<string>)
  {
    seq(|cards|, k requires 0 <= k < |cards| => cards[k].kind)
  }

  /** The types of `[...selectedIcons, ...selectedIcons]`: the first `n` icons, twice. */
  function PairedKinds(n: nat): seq<string>
    requires n <= |Icons|
  {
    Icons[..n] + Icons[..n]
  }

  /** `createCards` before its shuffle: card `k` gets id `k`, face down and unmatched. */
  function CreateCards(n: nat): (deck: seq<Card>)
    requires n <= |Icons|
  {
    var doubled := PairedKinds(n);
    seq(|doubled|, k requires 0 <= k < |doubled| => Card(k, doubled[k], false, false))
  }

  /** The shuffle `sort(() => Math.random() - 0.5)`: it may return any rearrangement. */
  ghost predicate IsShuffleOf(deck: seq<Card>, original: seq<Card>)
  {
    multiset(deck) == multiset(original)
  }

  predicate DistinctIds(cards: seq<Card>)
  {
    forall j, k :: 0 <= j < |cards| && 0 <= k < |cards| && j != k ==> cards[j].id != cards[k].id
  }

  /** Exactly the first `n` icon types occur in a deck of `n` pairs, each twice. */
  lemma PairedKindsCount(n: nat, t: string)
    requires n <= |Icons|
    ensures multiset(PairedKinds(n))[t] == if t in Icons[..n] then 2 else 0
  {
    IconsDistinct();
    if t in Icons[..n] {
      Seqs.OccursOnce(Icons[..n], t);
    }
  }

  /** A new deck has 2N cards with ids 0..2N-1, all face down and unmatched,
      and each of the first N icon types on exactly two of them. */
  lemma NewDeck(n: nat)
    requires n <= |Icons|
    ensures var deck := CreateCards(n);
      && |deck| == 2 * n
      && (forall k :: 0 <= k < |deck| ==> deck[k].id == k && !deck[k].matched && !deck[k].flipped)
      && (forall k :: 0 <= k < |deck| ==> deck[k].kind in Icons[..n])
      && (forall t :: t in Icons[..n] ==> multiset(Kinds(deck))[t] == 2)
  {
    var deck := CreateCards(n);
    assert Kinds(deck) == PairedKinds(n);
    forall t | t in Icons[..n] ensures multiset(Kinds(deck))[t] == 2 {
      PairedKindsCount(n, t);
    }
  }

  lemma KindsConcat(a: seq<Card>, b: seq<Card>)
    ensures Kinds(a + b) == Kinds(a) + Kinds(b)
  {
  }

  /** Rearranging cards rearranges their types. */
  lemma {:induction false} KindsOfShuffle(a: seq<Card>, b: seq<Card>)
    requires multiset(a) == multiset(b)
    ensures multiset(Kinds(a)) == multiset(Kinds(b))
    decreases |a|
  {
    if a == [] {
      assert |b| == |multiset(b)| == 0;
    } else {
      var n := |a| - 1;
      var x := a[n];
      assert a == a[..n] + [x];
      assert x in multiset(b);
      var j :| 0 <= j < |b| && b[j] == x;
      var rest := b[..j] + b[j + 1..];
      assert b == b[..j] + [x] + b[j + 1..];
      assert multiset(a) == multiset(a[..n]) + multiset([x]);
      assert multiset(b) == multiset(b[..j]) + multiset([x]) + multiset(b[j + 1..]);
      assert multiset(rest) == multiset(b[..j]) + multiset(b[j + 1..]);
      assert multiset(a[..n]) == multiset(a) - multiset([x]);
      assert multiset(rest) == multiset(b) - multiset([x]);
      KindsOfShuffle(a[..n], rest);
      KindsConcat(a[..n], [x]);
      KindsConcat(b[..j] + [x], b[j + 1..]);
      KindsConcat(b[..j], [x]);
      KindsConcat(b[..j], b[j + 1..]);
    }
  }

  /** Whatever order the shuffle picks, the deck still has 2N distinct face-down
      cards and the same types. */
  lemma ShuffledDeck(deck: seq<Card>, n: nat)
    requires n <= |Icons| && IsShuffleOf(deck, CreateCards(n))
    ensures |deck| == 2 * n
    ensures multiset(Kinds(deck)) == multiset(PairedKinds(n))
    ensures forall k :: 0 <= k < |deck| ==> !deck[k].matched && !deck[k].flipped && deck[k].id < 2 * n
    ensures DistinctIds(deck)
  {
    var original := CreateCards(n);
    assert |deck| == |multiset(deck)| == |multiset(original)| == 2 * n;
    KindsOfShuffle(deck, original);
    assert Kinds(original) == PairedKinds(n);
    forall k | 0 <= k < |deck|
      ensures deck[k].id < |original| && deck[k] == original[deck[k].id]
    {
      assert deck[k] in multiset(original);
      var m :| 0 <= m < |original| && original[m] == deck[k];
    }
    forall j, k | 0 <= j < |deck| && 0 <= k < |deck| && j != k
      ensures deck[j].id != deck[k].id
    {
      if deck[j].id == deck[k].id {
        Seqs.OccursTwice(deck, j, k);
        Seqs.OccursOnce(original, deck[j]);
      }
    }
  }

  /** Turning one card over: every card carrying that id becomes face up. */
  function FlipCard(cards: seq<Card>, id: nat): seq<Card>
  {
    seq(|cards|, k requires 0 <= k < |cards| =>
      if cards[k].id == id then cards[k].(flipped := true) else cards[k])
  }

  /** A found pair: every card of that type becomes matched. */
  function MarkMatched(cards: seq<Card>, kind: string): seq<Card>
  {
    seq(|cards|, k requires 0 <= k < |cards| =>
      if cards[k].kind == kind then cards[k].(matched := true) else cards[k])
  }

  /** The flip-back of `resetTurn`: face-up cards that are not matched turn face down. */
  function UnflipUnmatched(cards: seq<Card>): seq<Card>
  {
    seq(|cards|, k requires 0 <= k < |cards| =>
      if !cards[k].matched && cards[k].flipped then cards[k].(flipped := false) else cards[k])
  }

  predicate FaceUp(c: Card) { c.flipped && !c.matched }

  function MatchedPositions(cards: seq<Card>): set<int>
  {
    set k | 0 <= k < |cards| && cards[k].matched
  }

  /** Every card is matched (and there is at least one card): the completion check. */
  predicate AllMatched(cards: seq<Card>)
  {
    |cards| > 0 && forall k :: 0 <= k < |cards| ==> cards[k].matched
  }

  /** The board's state: the cards, the two pending choices (positions of the
      chosen cards), the input lock, whether the deck is still being dealt, and the
      score and turn counts the board has reported through `incrementScore` and
      `incrementTurns`. */
  datatype BoardState = BoardState(
    cards: seq<Card>,
    firstChoice: Option<nat>,
    secondChoice: Option<nat>,
    disabled: bool,
    loading: bool,
    score: nat,
    turns: nat)

  /** The state on mounting: no cards yet, loading. */
  function Mounted(): BoardState
  {
    BoardState([], None, None, false, true, 0, 0)
  }

  /** The choices point at cards of the board. */
  predicate ChoicesInRange(b: BoardState)
  {
    && (b.firstChoice.Some? ==> b.firstChoice.value < |b.cards|)
    && (b.secondChoice.Some? ==> b.secondChoice.value < |b.cards|)
  }

  /** The choices, the lock and the face-up cards agree: the face-up unmatched
      cards are exactly the chosen ones, a second choice exists only after a first
      one, differs from it in type (equal types are resolved at once) and locks
      the board. */
  ghost predicate ChoicesAgree(b: BoardState)
    requires ChoicesInRange(b)
  {
    && (b.firstChoice.None? ==> b.secondChoice.None?)
    && (b.secondChoice.Some? ==>
          b.secondChoice.value != b.firstChoice.value
          && b.cards[b.firstChoice.value].kind != b.cards[b.secondChoice.value].kind)
    && (b.disabled <==> b.secondChoice.Some?)
    && forall k :: 0 <= k < |b.cards| ==>
         (FaceUp(b.cards[k]) <==> b.firstChoice == Some(k) || b.secondChoice == Some(k))
  }

  /** What every step of the engine preserves. */
  ghost predicate Inv(d: Difficulty, b: BoardState)
  {
    && (b.loading ==> b == Mounted())
    && (!b.loading ==> multiset(Kinds(b.cards)) == multiset(PairedKinds(PairCount(d))))
    && DistinctIds(b.cards)
    && (forall k :: 0 <= k < |b.cards| && b.cards[k].matched ==> b.cards[k].flipped)
    && (forall j, k :: 0 <= j < |b.cards| && 0 <= k < |b.cards| && b.cards[j].kind == b.cards[k].kind
          ==> b.cards[j].matched == b.cards[k].matched)
    && |MatchedPositions(b.cards)| == 2 * b.score
    && ChoicesInRange(b)
    && ChoicesAgree(b)
  }

  /** The deal after the load delay: the shuffled deck replaces the cards and both
      choices are cleared. */
  function Deal(b: BoardState, deck: seq<Card>): BoardState
  {
    b.(cards := deck, firstChoice := None, secondChoice := None, loading := false)
  }

  /** `resetTurn`: clear both choices, unlock the board, flip back unmatched cards. */
  function ResetTurn(b: BoardState): BoardState
  {
    b.(firstChoice := None, secondChoice := None, disabled := false, cards := UnflipUnmatched(b.cards))
  }

  /** `handleChoice` for the card at position `i`: ignored while the board is
      locked or when the card is already face up; otherwise that card is turned
      over and becomes the first choice, or the second when a first exists. */
  function Choose(b: BoardState, i: nat): BoardState
    requires i < |b.cards|
  {
    if b.disabled || b.cards[i].flipped then b
    else
      var cards := FlipCard(b.cards, b.cards[i].id);
      if b.firstChoice.None? then b.(cards := cards, firstChoice := Some(i))
      else b.(cards := cards, secondChoice := Some(i))
  }

  /** The match-check effect: once both choices are set it locks the board and
      counts a turn; equal types mark the pair matched, score, and reset at once;
      different types wait, locked, for the delayed reset. */
  function CheckMatch(b: BoardState): BoardState
    requires ChoicesInRange(b)
  {
    if b.firstChoice.Some? && b.secondChoice.Some? then
      var kind := b.cards[b.firstChoice.value].kind;
      var pending := b.(disabled := true, turns := b.turns + 1);
      if kind == b.cards[b.secondChoice.value].kind then
        ResetTurn(pending.(cards := MarkMatched(b.cards, kind), score := b.score + 1))
      else
        pending
    else
      b
  }

  /** A click on the card at position `i`. The effect runs only when the click
      changed the choices, which an ignored click does not. */
  function Select(b: BoardState, i: nat): BoardState
    requires i < |b.cards| && ChoicesInRange(b)
  {
    if b.disabled || b.cards[i].flipped then b else CheckMatch(Choose(b, i))
  }

  // ---- facts about the flag updates ----

  /** With distinct ids, turning card `i` over changes that card only. */
  lemma FlipOne(cards: seq<Card>, i: nat)
    requires DistinctIds(cards) && i < |cards|
    ensures var r := FlipCard(cards, cards[i].id);
      |r| == |cards| && forall k :: 0 <= k < |r| ==> r[k] == if k == i then cards[i].(flipped := true) else cards[k]
  {
  }

  /** Only flags change: ids and types stay where they were. */
  ghost predicate SameFaces(a: seq<Card>, b: seq<Card>)
  {
    |a| == |b| && forall k :: 0 <= k < |a| ==> a[k].id == b[k].id && a[k].kind == b[k].kind
  }

  lemma SameFacesKinds(a: seq<Card>, b: seq<Card>)
    requires SameFaces(a, b)
    ensures Kinds(a) == Kinds(b)
    ensures DistinctIds(a) <==> DistinctIds(b)
  {
  }

  /** The type of a dealt card occurs on exactly two cards. */
  lemma KindTwice(d: Difficulty, b: BoardState, k: nat)
    requires Inv(d, b) && k < |b.cards|
    ensures multiset(Kinds(b.cards))[b.cards[k].kind] == 2
  {
    var t := b.cards[k].kind;
    assert Kinds(b.cards)[k] == t;
    assert t in multiset(Kinds(b.cards));
    PairedKindsCount(PairCount(d), t);
  }

  /** Two positions of the same type are the only two of that type. */
  lemma OnlyPair(d: Difficulty, b: BoardState, f: nat, i: nat)
    requires Inv(d, b) && f < |b.cards| && i < |b.cards| && f != i
    requires b.cards[f].kind == b.cards[i].kind
    ensures forall k :: 0 <= k < |b.cards| && b.cards[k].kind == b.cards[f].kind ==> k == f || k == i
  {
    var ks := Kinds(b.cards);
    var t := b.cards[f].kind;
    KindTwice(d, b, f);
    forall k | 0 <= k < |b.cards| && b.cards[k].kind == t
      ensures k == f || k == i
    {
      if k != f && k != i {
        Seqs.OccurrencesCount(ks, t);
        Seqs.SubsetSize({f, i, k}, Seqs.Occurrences(ks, t));
      }
    }
  }

  // ---- the engine's steps preserve the invariant ----

  lemma DealInv(d: Difficulty, b: BoardState, deck: seq<Card>)
    requires Inv(d, b) && b.loading && IsShuffleOf(deck, CreateCards(PairCount(d)))
    ensures Inv(d, Deal(b, deck))
  {
    ShuffledDeck(deck, PairCount(d));
    assert MatchedPositions(deck) == {};
  }

  lemma ResetTurnInv(d: Difficulty, b: BoardState)
    requires Inv(d, b)
    ensures Inv(d, ResetTurn(b))
  {
    var r := ResetTurn(b);
    SameFacesKinds(b.cards, r.cards);
    assert MatchedPositions(r.cards) == MatchedPositions(b.cards);
  }

  lemma FirstPickInv(d: Difficulty, b: BoardState, i: nat)
    requires Inv(d, b) && i < |b.cards| && !b.disabled && !b.cards[i].flipped && b.firstChoice.None?
    ensures Inv(d, Select(b, i))
  {
    var r := Select(b, i);
    FlipOne(b.cards, i);
    SameFacesKinds(b.cards, r.cards);
    assert MatchedPositions(r.cards) == MatchedPositions(b.cards);
  }

  lemma MismatchInv(d: Difficulty, b: BoardState, i: nat)
    requires Inv(d, b) && i < |b.cards| && !b.disabled && !b.cards[i].flipped && b.firstChoice.Some?
    requires b.cards[b.firstChoice.value].kind != b.cards[i].kind
    ensures Inv(d, Select(b, i))
  {
    var r := Select(b, i);
    FlipOne(b.cards, i);
    SameFacesKinds(b.cards, r.cards);
    assert MatchedPositions(r.cards) == MatchedPositions(b.cards);
  }

  /** The cards after a found pair at positions `f` and `i`: those two become
      matched and stay face up, nothing else changes. */
  lemma MatchCards(d: Difficulty, b: BoardState, i: nat)
    requires Inv(d, b) && i < |b.cards| && !b.disabled && !b.cards[i].flipped && b.firstChoice.Some?
    requires b.cards[b.firstChoice.value].kind == b.cards[i].kind
    ensures var f := b.firstChoice.value;
      var r := Select(b, i);
      && f != i && |r.cards| == |b.cards|
      && forall k :: 0 <= k < |r.cards| ==>
           r.cards[k] == if k == f || k == i then b.cards[k].(matched := true, flipped := true) else b.cards[k]
  {
    var f := b.firstChoice.value;
    var t := b.cards[f].kind;
    var flipped := FlipCard(b.cards, b.cards[i].id);
    var marked := MarkMatched(flipped, t);
    assert Select(b, i).cards == UnflipUnmatched(marked);
    FlipOne(b.cards, i);
    OnlyPair(d, b, f, i);
  }

  /** `r` is `a` with the cards at `f` and `i` matched and face up. */
  ghost predicate PairMarked(a: seq<Card>, r: seq<Card>, f: nat, i: nat)
  {
    |r| == |a| && forall k :: 0 <= k < |r| ==>
      r[k] == if k == f || k == i then a[k].(matched := true, flipped := true) else a[k]
  }

  /** Matching two unmatched cards adds exactly two matched positions. */
  lemma PairedCount(a: seq<Card>, r: seq<Card>, f: nat, i: nat)
    requires PairMarked(a, r, f, i) && f < |a| && i < |a| && f != i
    requires !a[f].matched && !a[i].matched
    ensures |MatchedPositions(r)| == |MatchedPositions(a)| + 2
  {
    assert MatchedPositions(r) == MatchedPositions(a) + {f, i};
    assert f !in MatchedPositions(a) && i !in MatchedPositions(a);
  }

  /** Matching the only two cards of a type keeps cards of one type alike. */
  lemma PairedAlike(d: Difficulty, b: BoardState, r: seq<Card>, f: nat, i: nat)
    requires Inv(d, b) && f < |b.cards| && i < |b.cards| && f != i
    requires b.cards[f].kind == b.cards[i].kind
    requires PairMarked(b.cards, r, f, i)
    ensures forall j, k :: 0 <= j < |r| && 0 <= k < |r| && r[j].kind == r[k].kind ==> r[j].matched == r[k].matched
  {
    OnlyPair(d, b, f, i);
  }

  /** A state whose cards are those of `b` with the pair at `f` and `i` matched,
      with no choice pending and one more point, satisfies the invariant. */
  lemma PairedStateInv(d: Difficulty, b: BoardState, r: BoardState, f: nat, i: nat)
    requires Inv(d, b) && f < |b.cards| && i < |b.cards| && f != i
    requires b.firstChoice == Some(f) && b.secondChoice.None?
    requires b.cards[f].kind == b.cards[i].kind && !b.cards[i].flipped
    requires PairMarked(b.cards, r.cards, f, i)
    requires r.firstChoice.None? && r.secondChoice.None? && !r.disabled && !r.loading
    requires r.score == b.score + 1
    ensures Inv(d, r)
  {
    PairedAlike(d, b, r.cards, f, i);
    PairedCount(b.cards, r.cards, f, i);
    SameFacesKinds(b.cards, r.cards);
  }

  lemma MatchInv(d: Difficulty, b: BoardState, i: nat)
    requires Inv(d, b) && i < |b.cards| && !b.disabled && !b.cards[i].flipped && b.firstChoice.Some?
    requires b.cards[b.firstChoice.value].kind == b.cards[i].kind
    ensures Inv(d, Select(b, i))
  {
    MatchCards(d, b, i);
    PairedStateInv(d, b, Select(b, i), b.firstChoice.value, i);
  }

  /** Every selection keeps the invariant. */
  lemma SelectInv(d: Difficulty, b: BoardState, i: nat)
    requires Inv(d, b) && i < |b.cards|
    ensures Inv(d, Select(b, i))
  {
    if b.disabled || b.cards[i].flipped {
    } else if b.firstChoice.None? {
      FirstPickInv(d, b, i);
    } else if b.cards[b.firstChoice.value].kind == b.cards[i].kind {
      MatchInv(d, b, i);
    } else {
      MismatchInv(d, b, i);
    }
  }

  // ---- what a selection and a reset do ----

  /** A click on a locked board or on a card already face up changes nothing. */
  lemma SelectIgnored(b: BoardState, i: nat)
    requires i < |b.cards| && ChoicesInRange(b)
    requires b.disabled || b.cards[i].flipped
    ensures Select(b, i) == b
  {
  }

  /** A first pick turns over that card only and records it as the first choice;
      no turn is counted. */
  lemma FirstPick(d: Difficulty, b: BoardState, i: nat)
    requires Inv(d, b) && i < |b.cards| && !b.disabled && !b.cards[i].flipped && b.firstChoice.None?
    ensures var r := Select(b, i);
      && |r.cards| == |b.cards|
      && (forall k :: 0 <= k < |r.cards| ==>
            r.cards[k] == if k == i then b.cards[i].(flipped := true) else b.cards[k])
      && r.firstChoice == Some(i) && r.secondChoice == None && !r.disabled
      && r.score == b.score && r.turns == b.turns
  {
    FlipOne(b.cards, i);
  }

  /** A second pick counts one turn. Equal types: both cards of that type become
      matched and stay face up, the score rises by one and the board is free again.
      Different types: both cards stay face up, the score is unchanged and the board
      is locked until the reset. */
  lemma SecondPick(d: Difficulty, b: BoardState, i: nat)
    requires Inv(d, b) && i < |b.cards| && !b.disabled && !b.cards[i].flipped && b.firstChoice.Some?
    ensures var f := b.firstChoice.value;
      var r := Select(b, i);
      && f != i && r.turns == b.turns + 1 && |r.cards| == |b.cards|
      && (b.cards[f].kind == b.cards[i].kind ==>
            && r.score == b.score + 1
            && r.firstChoice == None && r.secondChoice == None && !r.disabled
            && (forall k :: 0 <= k < |r.cards| ==>
                  r.cards[k] == if k == f || k == i then b.cards[k].(matched := true, flipped := true) else b.cards[k]))
      && (b.cards[f].kind != b.cards[i].kind ==>
            && r.score == b.score
            && r.firstChoice == Some(f) && r.secondChoice == Some(i) && r.disabled
            && (forall k :: 0 <= k < |r.cards| ==>
                  r.cards[k] == if k == i then b.cards[i].(flipped := true) else b.cards[k]))
  {
    var f := b.firstChoice.value;
    FlipOne(b.cards, i);
    if b.cards[f].kind == b.cards[i].kind {
      MatchCards(d, b, i);
    }
  }

  /** `resetTurn` clears both choices, unlocks the board and turns face down exactly
      the chosen cards: the face-up unmatched ones. Matched cards are untouched. */
  lemma ResetTurnFlipsBackChoices(d: Difficulty, b: BoardState)
    requires Inv(d, b)
    ensures var r := ResetTurn(b);
      && r.firstChoice == None && r.secondChoice == None && !r.disabled
      && r.score == b.score && r.turns == b.turns && |r.cards| == |b.cards|
      && (forall k :: 0 <= k < |r.cards| ==>
            r.cards[k] == if b.firstChoice == Some(k) || b.secondChoice == Some(k)
                          then b.cards[k].(flipped := false) else b.cards[k])
  {
  }

  // ---- consequences of the invariant ----

  /** The score never exceeds the number of pairs, and at most two cards are
      face up and unmatched. */
  lemma ScoreBounded(d: Difficulty, b: BoardState)
    requires Inv(d, b)
    ensures b.score <= PairCount(d)
    ensures |set k | 0 <= k < |b.cards| && FaceUp(b.cards[k])| <= 2
  {
    Seqs.PositionsSize(b.cards, MatchedPositions(b.cards));
    assert |b.cards| == |Kinds(b.cards)| == |multiset(Kinds(b.cards))|;
    var up := set k | 0 <= k < |b.cards| && FaceUp(b.cards[k]);
    var chosen := (if b.firstChoice.Some? then {b.firstChoice.value} else {})
      + (if b.secondChoice.Some? then {b.secondChoice.value} else {});
    Seqs.SubsetSize(up, chosen);
  }

  /** The completion check fires exactly when every pair has been found. */
  lemma CompleteIffAllPairs(d: Difficulty, b: BoardState)
    requires Inv(d, b)
    ensures AllMatched(b.cards) <==> !b.loading && b.score == PairCount(d)
  {
    var n := PairCount(d);
    var mp := MatchedPositions(b.cards);
    Seqs.PositionsSize(b.cards, mp);
    if !b.loading {
      assert |b.cards| == |Kinds(b.cards)| == |multiset(Kinds(b.cards))| == 2 * n;
    }
    assert forall k :: 0 <= k < |b.cards| ==> (k in mp <==> b.cards[k].matched);
    if !b.loading {
      assert AllMatched(b.cards) <==> forall k :: 0 <= k < |b.cards| ==> k in mp;
    }
  }

  // ---- re-runs of the match effect ----

  /** The match effect lists `incrementScore` and `incrementTurns` among its
      dependencies, and the page hands the board new functions for them on every
      render, so each page render runs the effect again on the current state:
      the state after `k` such renders. */
  function Reruns(b: BoardState, k: nat): (r: BoardState)
    requires ChoicesInRange(b)
    ensures ChoicesInRange(r) && |r.cards| == |b.cards|
    decreases k
  {
    if k == 0 then b else CheckMatch(Reruns(b, k - 1))
  }

  /** A re-run keeps the invariant: with no second choice it does nothing, and
      during a mismatch wait it only counts one more turn. */
  lemma RerunInv(d: Difficulty, b: BoardState)
    requires Inv(d, b)
    ensures Inv(d, CheckMatch(b))
    ensures b.secondChoice.None? ==> CheckMatch(b) == b
    ensures b.secondChoice.Some? ==> CheckMatch(b) == b.(turns := b.turns + 1)
  {
  }

  /** During a mismatch wait every re-run counts a further turn: `k` renders add
      `k` turns and change nothing else. */
  lemma {:induction false} MismatchReruns(d: Difficulty, b: BoardState, k: nat)
    requires Inv(d, b) && b.secondChoice.Some?
    ensures Reruns(b, k) == b.(turns := b.turns + k)
  {
    if k > 0 {
      MismatchReruns(d, b, k - 1);
      RerunInv(d, b.(turns := b.turns + k - 1));
    }
  }

  /** A second pick of another type followed by `k` page renders before the reset
      counts `1 + k` turns for one pair of picks, with the cards and the score as
      the click left them. */
  lemma MismatchTurns(d: Difficulty, b: BoardState, i: nat, k: nat)
    requires Inv(d, b) && i < |b.cards| && !b.disabled && !b.cards[i].flipped && b.firstChoice.Some?
    requires b.cards[b.firstChoice.value].kind != b.cards[i].kind
    ensures var r := Reruns(Select(b, i), k);
      && r.turns == b.turns + 1 + k
      && r.score == b.score && r.cards == Select(b, i).cards
  {
    SecondPick(d, b, i);
    SelectInv(d, b, i);
    MismatchReruns(d, Select(b, i), k);
  }

  /** The match check as evidently intended: it acts only on a pair that has not
      yet locked the board, so a pair of picks counts one turn however often the
      effect runs. */
  function CheckNewPair(b: BoardState): BoardState
    requires ChoicesInRange(b)
  {
    if b.disabled then b else CheckMatch(b)
  }

  /** Every state of the invariant is left alone by the intended check, so re-runs
      change nothing; and a click followed by the intended check is the `Select`
      step the rest of the model uses. */
  lemma CheckNewPairStable(d: Difficulty, b: BoardState, i: nat)
    requires Inv(d, b) && i < |b.cards|
    ensures CheckNewPair(b) == b
    ensures ChoicesInRange(Choose(b, i)) && Select(b, i) == CheckNewPair(Choose(b, i))
  {
  }

  /** The board component: its state fields and the steps that update them. */
  class Board {
    const difficulty: Difficulty
    var cards: seq<Card>
    var firstChoice: Option<nat>
    var secondChoice: Option<nat>
    var disabled: bool
    var loading: bool
    var score: nat
    var turns: nat

    function State(): BoardState
      reads this
    {
      BoardState(cards, firstChoice, secondChoice, disabled, loading, score, turns)
    }

    ghost predicate Valid()
      reads this
    {
      Inv(difficulty, State())
    }

    constructor (d: Difficulty)
      ensures difficulty == d && State() == Mounted() && Valid()
    {
      difficulty := d;
      cards, firstChoice, secondChoice := [], None, None;
      disabled, loading := false, true;
      score, turns := 0, 0;
    }

    /** The deal after the load delay; `deck` is the shuffled output of `createCards`. */
    method DealCards(deck: seq<Card>)
      requires Valid() && loading && IsShuffleOf(deck, CreateCards(PairCount(difficulty)))
      modifies this
      ensures Valid() && State() == Deal(old(State()), deck)
    {
      DealInv(difficulty, State(), deck);
      cards := deck;
      firstChoice := None;
      secondChoice := None;
      loading := false;
    }

    /** `resetTurn`, run directly after a match and by the mismatch timeout. */
    method Reset()
      modifies this
      ensures State() == ResetTurn(old(State()))
      ensures old(Valid()) ==> Valid()
    {
      if Valid() { ResetTurnInv(difficulty, State()); }
      firstChoice := None;
      secondChoice := None;
      disabled := false;
      cards := UnflipUnmatched(cards);
    }

    /** The match-check effect; `turnTaken` and `matchFound` are its calls to
        `incrementTurns` and `incrementScore`. Run after a click, and again on
        every page render (`Reruns`), which keeps the invariant. */
    method MatchCheck() returns (turnTaken: bool, matchFound: bool)
      requires ChoicesInRange(State())
      modifies this
      ensures State() == CheckMatch(old(State()))
      ensures turns == old(turns) + (if turnTaken then 1 else 0)
      ensures score == old(score) + (if matchFound then 1 else 0)
      ensures old(Valid()) ==> Valid()
    {
      if Valid() { RerunInv(difficulty, State()); }
      turnTaken, matchFound := false, false;
      if firstChoice.Some? && secondChoice.Some? {
        disabled := true;
        turns := turns + 1;
        turnTaken := true;
        var kind := cards[firstChoice.value].kind;
        if kind == cards[secondChoice.value].kind {
          cards := MarkMatched(cards, kind);
          score := score + 1;
          matchFound := true;
          Reset();
        }
      }
    }

    /** A click on the card at position `i` (`handleChoice`), followed by the match
        check, which React runs before the next click is handled. */
    method HandleChoice(i: nat) returns (turnTaken: bool, matchFound: bool)
      requires Valid() && i < |cards|
      modifies this
      ensures Valid() && State() == Select(old(State()), i)
      ensures turns == old(turns) + (if turnTaken then 1 else 0)
      ensures score == old(score) + (if matchFound then 1 else 0)
    {
      SelectInv(difficulty, State(), i);
      turnTaken, matchFound := false, false;
      if !disabled && !cards[i].flipped {
        cards := FlipCard(cards, cards[i].id);
        if firstChoice.None? {
          firstChoice := Some(i);
        } else {
          secondChoice := Some(i);
        }
        turnTaken, matchFound := MatchCheck();
      }
    }

    /** The completion effect's condition. When it holds the source calls
        `onGameComplete` a second later, which the page does not supply. */
    method GameComplete() returns (complete: bool)
      requires Valid()
      ensures complete <==> !loading && score == PairCount(difficulty)
    {
      CompleteIffAllPairs(difficulty, State());
      complete := AllMatched(cards);
    }
  }
}
