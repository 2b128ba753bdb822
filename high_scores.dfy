/** The high-score table kept in the browser's local storage under one key: per
    difficulty, at most five records ranked by their score value (lower is better). */
module HighScores {
  import opened Difficulties

  /** One completed game. `scoreValue` is the ranking value (lower is better);
      `date` is the completion timestamp, used only as an opaque token. */
  datatype HighScore = HighScore(turns: nat, time: nat, score: nat, scoreValue: int, date: string)

  /** What the storage key holds: nothing, content whose parse or lookup throws
      (malformed JSON, `null`), or the parsed table. */
  datatype Slot = Absent | Unreadable | Present(table: map<Difficulty, seq<HighScore>>)

  /** The number of records kept per difficulty. */
  const MaxKept: nat := 5

  ghost predicate SortedByValue(s: seq<HighScore>)
  {
    forall j, k :: 0 <= j < k < |s| ==> s[j].scoreValue <= s[k].scoreValue
  }

  // ---- the sort ----

  /** Inserts `x` before the first record of strictly higher value. */
  function InsertByValue(s: seq<HighScore>, x: HighScore): (r: seq<HighScore>)
    ensures |r| == |s| + 1
  {
    if s == [] || x.scoreValue < s[0].scoreValue then [x] + s
    else [s[0]] + InsertByValue(s[1..], x)
  }

  /** Where `InsertByValue` puts `x`. */
  function InsertPos(s: seq<HighScore>, x: HighScore): (k: nat)
    ensures k <= |s|
  {
    if s == [] || x.scoreValue < s[0].scoreValue then 0 else InsertPos(s[1..], x) + 1
  }

  /** `x` lands at its insert position, the rest of the list around it. */
  lemma {:induction false} InsertSplit(s: seq<HighScore>, x: HighScore)
    ensures InsertByValue(s, x) == s[..InsertPos(s, x)] + [x] + s[InsertPos(s, x)..]
  {
    if s != [] && x.scoreValue >= s[0].scoreValue {
      InsertSplit(s[1..], x);
      var k := InsertPos(s[1..], x);
      assert s[..k + 1] == [s[0]] + s[1..][..k];
      assert s[k + 1..] == s[1..][k..];
    }
  }

  /** Every record ahead of the insert position has value at most `x`'s. */
  lemma {:induction false} InsertPosAfterLower(s: seq<HighScore>, x: HighScore)
    ensures forall j :: 0 <= j < InsertPos(s, x) ==> s[j].scoreValue <= x.scoreValue
  {
    if s != [] && x.scoreValue >= s[0].scoreValue {
      InsertPosAfterLower(s[1..], x);
      assert forall j :: 1 <= j < InsertPos(s, x) ==> s[j] == s[1..][j - 1];
    }
  }

  /** In a sorted list, every record from the insert position on has value above `x`'s. */
  lemma {:induction false} InsertPosBeforeHigher(s: seq<HighScore>, x: HighScore)
    requires SortedByValue(s)
    ensures forall j :: InsertPos(s, x) <= j < |s| ==> x.scoreValue < s[j].scoreValue
  {
    if s != [] && x.scoreValue >= s[0].scoreValue {
      assert SortedByValue(s[1..]);
      InsertPosBeforeHigher(s[1..], x);
      assert forall j :: InsertPos(s, x) <= j < |s| ==> s[j] == s[1..][j - 1];
    }
  }

  /** Insertion adds exactly `x`. */
  lemma InsertMultiset(s: seq<HighScore>, x: HighScore)
    ensures multiset(InsertByValue(s, x)) == multiset(s) + multiset{x}
  {
    InsertSplit(s, x);
    var k := InsertPos(s, x);
    assert s == s[..k] + s[k..];
  }

  /** Insertion keeps a sorted list sorted. */
  lemma InsertKeepsSorted(s: seq<HighScore>, x: HighScore)
    requires SortedByValue(s)
    ensures SortedByValue(InsertByValue(s, x))
  {
    InsertSplit(s, x);
    InsertPosAfterLower(s, x);
    InsertPosBeforeHigher(s, x);
    var k := InsertPos(s, x);
    var r := InsertByValue(s, x);
    assert r[k] == x;
    assert forall j :: 0 <= j < k ==> r[j] == s[j];
    assert forall j :: k < j < |r| ==> r[j] == s[j - 1];
  }

  /** The stable ascending sort by score value: each record, taken in order, goes
      after the ones of equal or lower value already placed. */
  function SortByValue(s: seq<HighScore>): (r: seq<HighScore>)
    ensures |r| == |s|
  {
    if s == [] then []
    else
      var n := |s| - 1;
      InsertByValue(SortByValue(s[..n]), s[n])
  }

  /** The sort yields a sorted list ... */
  lemma {:induction false} SortIsSorted(s: seq<HighScore>)
    ensures SortedByValue(SortByValue(s))
  {
    if s != [] {
      var n := |s| - 1;
      SortIsSorted(s[..n]);
      InsertKeepsSorted(SortByValue(s[..n]), s[n]);
    }
  }

  /** ... holding exactly the records of its input. */
  lemma {:induction false} SortPermutes(s: seq<HighScore>)
    ensures multiset(SortByValue(s)) == multiset(s)
  {
    if s != [] {
      var n := |s| - 1;
      SortPermutes(s[..n]);
      InsertMultiset(SortByValue(s[..n]), s[n]);
      assert s == s[..n] + [s[n]];
      assert multiset(s) == multiset(s[..n]) + multiset{s[n]};
    }
  }

  lemma SortSpec(s: seq<HighScore>)
    ensures SortedByValue(SortByValue(s))
    ensures multiset(SortByValue(s)) == multiset(s)
  {
    SortIsSorted(s);
    SortPermutes(s);
  }

  /** Appending a record and sorting is inserting it into the sorted list. */
  lemma SortAppend(s: seq<HighScore>, x: HighScore)
    ensures SortByValue(s + [x]) == InsertByValue(SortByValue(s), x)
  {
    assert (s + [x])[..|s|] == s;
  }

  /** A record of value at least every other one goes to the end. */
  lemma {:induction false} InsertAtEnd(s: seq<HighScore>, x: HighScore)
    requires forall j :: 0 <= j < |s| ==> s[j].scoreValue <= x.scoreValue
    ensures InsertByValue(s, x) == s + [x]
  {
    if s != [] {
      InsertAtEnd(s[1..], x);
      assert s == [s[0]] + s[1..];
    }
  }

  /** Sorting an already sorted list leaves it as it is. */
  lemma {:induction false} SortSorted(s: seq<HighScore>)
    requires SortedByValue(s)
    ensures SortByValue(s) == s
  {
    if s != [] {
      var n := |s| - 1;
      assert SortedByValue(s[..n]);
      SortSorted(s[..n]);
      InsertAtEnd(s[..n], s[n]);
      assert s == s[..n] + [s[n]];
    }
  }

  /** The records of one value, in order. */
  function WithValue(s: seq<HighScore>, v: int): seq<HighScore>
  {
    if s == [] then []
    else (if s[0].scoreValue == v then [s[0]] else []) + WithValue(s[1..], v)
  }

  lemma {:induction false} WithValueConcat(a: seq<HighScore>, b: seq<HighScore>, v: int)
    ensures WithValue(a + b, v) == WithValue(a, v) + WithValue(b, v)
  {
    if a != [] {
      WithValueConcat(a[1..], b, v);
      assert (a + b)[1..] == a[1..] + b;
    } else {
      assert a + b == b;
    }
  }

  lemma {:induction false} WithValueNone(s: seq<HighScore>, v: int)
    requires forall j :: 0 <= j < |s| ==> s[j].scoreValue != v
    ensures WithValue(s, v) == []
  {
    if s != [] {
      WithValueNone(s[1..], v);
    }
  }

  /** Inserting `x` in front of records all of higher value adds it to the end
      of its own value's records. */
  lemma InsertWithValue(s: seq<HighScore>, x: HighScore, v: int)
    requires forall j :: InsertPos(s, x) <= j < |s| ==> x.scoreValue < s[j].scoreValue
    ensures WithValue(InsertByValue(s, x), v) == WithValue(s, v) + WithValue([x], v)
  {
    InsertSplit(s, x);
    var k := InsertPos(s, x);
    var front, back := s[..k], s[k..];
    assert s == front + back;
    WithValueConcat(front, back, v);
    calc {
      WithValue(InsertByValue(s, x), v);
      WithValue((front + [x]) + back, v);
      { WithValueConcat(front + [x], back, v); }
      WithValue(front + [x], v) + WithValue(back, v);
      { WithValueConcat(front, [x], v); }
      WithValue(front, v) + WithValue([x], v) + WithValue(back, v);
      { WithValueMoved(front, back, x, v); }
      WithValue(front, v) + WithValue(back, v) + WithValue([x], v);
    }
  }

  /** `x`'s contribution commutes with that of records all of higher value. */
  lemma WithValueMoved(front: seq<HighScore>, back: seq<HighScore>, x: HighScore, v: int)
    requires forall j :: 0 <= j < |back| ==> x.scoreValue < back[j].scoreValue
    ensures WithValue(front, v) + WithValue([x], v) + WithValue(back, v)
         == WithValue(front, v) + WithValue(back, v) + WithValue([x], v)
  {
    assert WithValue([x], v) == (if x.scoreValue == v then [x] else []) by {
      assert [x][1..] == [];
    }
    if x.scoreValue == v {
      WithValueNone(back, v);
    }
  }

  /** The sort is stable: the records of any one value keep their relative order. */
  lemma {:induction false} SortStable(s: seq<HighScore>, v: int)
    ensures WithValue(SortByValue(s), v) == WithValue(s, v)
  {
    if s != [] {
      var n := |s| - 1;
      SortStable(s[..n], v);
      SortSpec(s[..n]);
      InsertPosBeforeHigher(SortByValue(s[..n]), s[n]);
      InsertWithValue(SortByValue(s[..n]), s[n], v);
      WithValueConcat(s[..n], [s[n]], v);
      assert s == s[..n] + [s[n]];
    }
  }

  // ---- reading and saving ----

  /** The first `MaxKept` records. */
  function Top(s: seq<HighScore>): seq<HighScore>
  {
    if |s| <= MaxKept then s else s[..MaxKept]
  }

  /** The records stored for `d`, in stored order. */
  function Stored(slot: Slot, d: Difficulty): seq<HighScore>
  {
    if slot.Present? && d in slot.table then slot.table[d] else []
  }

  /** `getHighScores`: the stored records of `d`, sorted. */
  function Read(slot: Slot, d: Difficulty): seq<HighScore>
  {
    SortByValue(Stored(slot, d))
  }

  /** Reading gives the stored records of `d`, sorted by value; nothing at all
      when the key is absent or unreadable or `d` has no entry. */
  lemma ReadSpec(slot: Slot, d: Difficulty)
    ensures SortedByValue(Read(slot, d))
    ensures multiset(Read(slot, d)) == multiset(Stored(slot, d))
    ensures !slot.Present? || d !in slot.table ==> Read(slot, d) == []
  {
    SortSpec(Stored(slot, d));
  }

  /** The outcome of `saveHighScore`: the new slot and the reported "new record" flag. */
  datatype SaveOutcome = SaveOutcome(slot: Slot, isNewRecord: bool)

  /** The list `saveHighScore` writes back for `d`: the old one with `x`
      appended, sorted, cut to the best five. */
  function Kept(slot: Slot, d: Difficulty, x: HighScore): seq<HighScore>
  {
    Top(SortByValue(Stored(slot, d) + [x]))
  }

  /** `saveHighScore`. An unreadable key aborts with `false` and no change; a write
      that fails (`writeFails`) reports `false` and leaves the store as it was;
      otherwise the table, with `d`'s list replaced by `Kept`, is written and the
      flag says whether the top entry carries `x`'s date. */
  function Save(slot: Slot, d: Difficulty, x: HighScore, writeFails: bool): SaveOutcome
  {
    if slot.Unreadable? || writeFails then SaveOutcome(slot, false)
    else
      var table := if slot.Present? then slot.table else map[];
      var kept := Kept(slot, d, x);
      SaveOutcome(Present(table[d := kept]), kept[0].date == x.date)
  }

  /** The first five records of a sorted list are sorted, and none of the
      records after them is below one of them. */
  lemma TopOfSorted(s: seq<HighScore>)
    requires SortedByValue(s)
    ensures var t := Top(s);
      && SortedByValue(t)
      && |t| == (if |s| <= MaxKept then |s| else MaxKept)
      && s == t + s[|t|..]
      && multiset(s) == multiset(t) + multiset(s[|t|..])
      && forall j, e :: 0 <= j < |t| && e in s[|t|..] ==> t[j].scoreValue <= e.scoreValue
  {
    var t := Top(s);
    assert s == t + s[|t|..];
  }

  /** The list a save keeps is sorted, holds at most five records, all taken from
      the old list plus the new one, and they are the smallest: none of the
      records left out is below a kept one. */
  lemma KeptIsBest(s: seq<HighScore>, x: HighScore)
    ensures var kept := Top(SortByValue(s + [x]));
      var offered := multiset(s) + multiset{x};
      && SortedByValue(kept)
      && |kept| == (if |s| < MaxKept then |s| + 1 else MaxKept)
      && multiset(kept) <= offered
      && forall e, k :: e in offered - multiset(kept) && 0 <= k < |kept| ==> kept[k].scoreValue <= e.scoreValue
  {
    var all := SortByValue(s + [x]);
    SortSpec(s + [x]);
    TopOfSorted(all);
    var kept := Top(all);
    assert multiset(s + [x]) == multiset(s) + multiset{x};
    var dropped := all[|kept|..];
    assert multiset(all) - multiset(kept) == multiset(dropped);
    forall e | e in multiset(all) - multiset(kept) ensures e in dropped {
    }
  }

  /** After a successful save, `d`'s stored list is `Kept` (so reading it back
      gives it unchanged), with the properties of `KeptIsBest`. */
  lemma SaveKeepsBest(slot: Slot, d: Difficulty, x: HighScore)
    requires !slot.Unreadable?
    ensures var after := Save(slot, d, x, false).slot;
      && after.Present? && d in after.table
      && Stored(after, d) == Kept(slot, d, x)
      && Read(after, d) == Kept(slot, d, x)
  {
    KeptIsBest(Stored(slot, d), x);
    SortSorted(Kept(slot, d, x));
  }

  /** Saving changes no other difficulty's stored list. */
  lemma SaveFrame(slot: Slot, d: Difficulty, x: HighScore, writeFails: bool, other: Difficulty)
    requires other != d
    ensures Stored(Save(slot, d, x, writeFails).slot, other) == Stored(slot, other)
  {
  }

  /** A save that cannot read the key, or cannot write it, changes nothing and
      reports no new record. */
  lemma SaveFailure(slot: Slot, d: Difficulty, x: HighScore, writeFails: bool)
    requires slot.Unreadable? || writeFails
    ensures Save(slot, d, x, writeFails) == SaveOutcome(slot, false)
  {
  }

  /** In the sorted list a save builds, `x` stands after every stored record of
      equal or lower value and before every one of higher value: on a tie, the
      records already stored rank ahead. */
  lemma SavePlacesAfterTies(slot: Slot, d: Difficulty, x: HighScore)
    ensures var all := SortByValue(Stored(slot, d) + [x]);
      var k := InsertPos(Read(slot, d), x);
      && k < |all| && all[k] == x
      && (forall j :: 0 <= j < k ==> all[j].scoreValue <= x.scoreValue && all[j] in Stored(slot, d))
      && (forall j :: k < j < |all| ==> all[j].scoreValue > x.scoreValue && all[j] in Stored(slot, d))
  {
    var sorted := Read(slot, d);
    ReadSpec(slot, d);
    SortAppend(Stored(slot, d), x);
    InsertSplit(sorted, x);
    InsertPosAfterLower(sorted, x);
    InsertPosBeforeHigher(sorted, x);
    forall j | 0 <= j < |sorted| ensures sorted[j] in Stored(slot, d) {
      assert sorted[j] in multiset(sorted);
    }
  }

  /** Saving into an empty list always reports a new record. */
  lemma SaveIntoEmptyIsNew(slot: Slot, d: Difficulty, x: HighScore)
    requires !slot.Unreadable? && Stored(slot, d) == []
    ensures Save(slot, d, x, false).isNewRecord
  {
    assert Stored(slot, d) + [x] == [x];
  }

  /** When no stored record of `d` shares `x`'s date, the flag is exactly "x is
      strictly better than every stored record of `d`". */
  lemma NewRecordIff(slot: Slot, d: Difficulty, x: HighScore)
    requires !slot.Unreadable?
    requires forall e :: e in Stored(slot, d) ==> e.date != x.date
    ensures Save(slot, d, x, false).isNewRecord <==>
      forall e :: e in Stored(slot, d) ==> x.scoreValue < e.scoreValue
  {
    SavePlacesAfterTies(slot, d, x);
    var all := SortByValue(Stored(slot, d) + [x]);
    var k := InsertPos(Read(slot, d), x);
    assert Kept(slot, d, x)[0] == all[0];
    if k == 0 {
      SortSpec(Stored(slot, d) + [x]);
      assert multiset(all) == multiset(Stored(slot, d)) + multiset{x} by {
        assert multiset(Stored(slot, d) + [x]) == multiset(Stored(slot, d)) + multiset{x};
      }
      forall e | e in Stored(slot, d) ensures x.scoreValue < e.scoreValue {
        assert e in multiset(all);
        var j :| 0 <= j < |all| && all[j] == e;
        assert j != k;
      }
    } else {
      assert all[0] in Stored(slot, d);
    }
  }

  /** Saving a record strictly better than all stored ones puts it first, ahead of
      the best four of the old list, and reports a new record. */
  lemma SaveBestIsFirst(slot: Slot, d: Difficulty, x: HighScore)
    requires !slot.Unreadable?
    requires forall e :: e in Stored(slot, d) ==> x.scoreValue < e.scoreValue
    ensures var out := Save(slot, d, x, false);
      && Stored(out.slot, d) == Top([x] + Read(slot, d))
      && out.isNewRecord
  {
    var sorted := Read(slot, d);
    ReadSpec(slot, d);
    SortAppend(Stored(slot, d), x);
    if sorted != [] {
      assert sorted[0] in multiset(sorted);
    }
  }

  /** The local storage behind the table, as an object the page updates. */
  class Store {
    var slot: Slot

    constructor (initial: Slot)
      ensures slot == initial
    {
      slot := initial;
    }

    /** `getHighScores`. */
    method GetHighScores(d: Difficulty) returns (scores: seq<HighScore>)
      ensures scores == Read(slot, d)
    {
      scores := Read(slot, d);
    }

    /** `saveHighScore`; `writeFails` stands for the write of the key throwing. */
    method SaveHighScore(d: Difficulty, x: HighScore, writeFails: bool) returns (isNewRecord: bool)
      modifies this
      ensures Save(old(slot), d, x, writeFails) == SaveOutcome(slot, isNewRecord)
    {
      if slot.Unreadable? {
        return false;
      }
      var table := if slot.Present? then slot.table else map[];
      var list := if d in table then table[d] else [];
      list := list + [x];
      list := Top(SortByValue(list));
      table := table[d := list];
      if writeFails {
        return false;
      }
      slot := Present(table);
      isNewRecord := list[0].date == x.date;
    }

    /** `clearHighScores`: the key is removed, so every difficulty reads as empty. */
    method ClearHighScores()
      modifies this
      ensures slot == Absent
      ensures forall d :: Read(slot, d) == []
    {
      slot := Absent;
    }
  }
}
