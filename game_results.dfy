/** The results screen: how a finished game's score value is computed, when the
    game is saved to the high-score table, and what the screen then shows. */
module GameResults {
  import opened Difficulties
  import opened HighScores

  /** The source's ranking value `turns + gameTime * 0.5`, as a real number. */
  function RankValue(turns: nat, time: nat): real
  {
    turns as real + time as real * 0.5
  }

  /** The ranking value in integer form: twice `RankValue`, which is
      `2 * turns + time`. */
  function ScoreValue(turns: nat, time: nat): (v: int)
    ensures v as real == 2.0 * RankValue(turns, time)
    ensures v >= 0
  {
    2 * turns + time
  }

  /** The integer value ranks games exactly as the real one does, in both
      directions and for ties as well. */
  lemma ScoreValueOrder(turns1: nat, time1: nat, turns2: nat, time2: nat)
    ensures ScoreValue(turns1, time1) < ScoreValue(turns2, time2) <==> RankValue(turns1, time1) < RankValue(turns2, time2)
    ensures ScoreValue(turns1, time1) == ScoreValue(turns2, time2) <==> RankValue(turns1, time1) == RankValue(turns2, time2)
  {
  }

  /** The record the effect saves: turns and time as given, the full pair count
      as score, the ranking value, and the completion timestamp `now`. */
  function Record(turns: nat, time: nat, maxPairs: nat, now: string): (r: HighScore)
    ensures r.turns == turns && r.time == time && r.score == maxPairs && r.date == now
    ensures r.scoreValue as real == 2.0 * RankValue(turns, time)
  {
    HighScore(turns, time, maxPairs, ScoreValue(turns, time), now)
  }

  /** What the effect leaves behind: the store, the list shown on screen, and
      whether this game was reported as a new high score. */
  datatype Outcome = Outcome(slot: Slot, shown: seq<HighScore>, newHighScore: bool)

  /** The effect of the results screen: the list shown is read first; the game is
      saved only when every pair was found. */
  function Finish(slot: Slot, d: Difficulty, score: nat, turns: nat, time: nat, maxPairs: nat,
                  now: string, writeFails: bool): Outcome
  {
    var shown := Read(slot, d);
    if score == maxPairs then
      var saved := Save(slot, d, Record(turns, time, maxPairs, now), writeFails);
      Outcome(saved.slot, shown, saved.isNewRecord)
    else
      Outcome(slot, shown, false)
  }

  /** The list on screen is the one from before the save, and an unfinished game
      leaves the store as it was and reports no new high score. */
  lemma FinishShowsOldList(slot: Slot, d: Difficulty, score: nat, turns: nat, time: nat, maxPairs: nat,
                           now: string, writeFails: bool)
    ensures Finish(slot, d, score, turns, time, maxPairs, now, writeFails).shown == Read(slot, d)
    ensures score != maxPairs ==>
      Finish(slot, d, score, turns, time, maxPairs, now, writeFails) == Outcome(slot, Read(slot, d), false)
  {
  }

  /** A finished game, saved successfully, is stored for its difficulty as
      `Kept` of its record, and no other difficulty changes. */
  lemma FinishSaves(slot: Slot, d: Difficulty, turns: nat, time: nat, maxPairs: nat, now: string, other: Difficulty)
    requires !slot.Unreadable?
    requires other != d
    ensures var out := Finish(slot, d, maxPairs, turns, time, maxPairs, now, false);
      && Stored(out.slot, d) == Kept(slot, d, Record(turns, time, maxPairs, now))
      && Stored(out.slot, other) == Stored(slot, other)
  {
    SaveKeepsBest(slot, d, Record(turns, time, maxPairs, now));
    SaveFrame(slot, d, Record(turns, time, maxPairs, now), false, other);
  }

  /** True when no record stored for `d` carries the timestamp `now`. */
  ghost predicate FreshDate(slot: Slot, d: Difficulty, now: string)
  {
    forall e :: e in Stored(slot, d) ==> e.date != now
  }

  /** With a fresh timestamp, the game is reported as a new high score exactly
      when it is finished, the store can be read and written, and it beats every
      stored game of its difficulty; the table then starts with this game. */
  lemma NewHighScoreIff(slot: Slot, d: Difficulty, score: nat, turns: nat, time: nat, maxPairs: nat,
                        now: string, writeFails: bool)
    requires FreshDate(slot, d, now)
    ensures var out := Finish(slot, d, score, turns, time, maxPairs, now, writeFails);
      out.newHighScore <==>
        && score == maxPairs && !writeFails && !slot.Unreadable?
        && forall e :: e in Stored(slot, d) ==> ScoreValue(turns, time) < e.scoreValue
  {
    if score == maxPairs && !writeFails && !slot.Unreadable? {
      NewRecordIff(slot, d, Record(turns, time, maxPairs, now));
    }
  }

  /** When the game is reported as a new high score under a fresh timestamp, the
      first stored record of its difficulty is exactly this game's record. */
  lemma NewHighScoreIsFirst(slot: Slot, d: Difficulty, score: nat, turns: nat, time: nat, maxPairs: nat,
                            now: string, writeFails: bool)
    requires FreshDate(slot, d, now)
    requires Finish(slot, d, score, turns, time, maxPairs, now, writeFails).newHighScore
    ensures var out := Finish(slot, d, score, turns, time, maxPairs, now, writeFails);
      |Stored(out.slot, d)| > 0 && Stored(out.slot, d)[0] == Record(turns, time, maxPairs, now)
  {
    var x := Record(turns, time, maxPairs, now);
    SaveKeepsBest(slot, d, x);
    KeptIsBest(Stored(slot, d), x);
    var kept := Kept(slot, d, x);
    assert kept[0] in multiset(kept);
    assert kept[0] in multiset(Stored(slot, d)) + multiset{x};
  }

  /** The results screen's own state. */
  class Results {
    var highScores: seq<HighScore>
    var isNewHighScore: bool

    /** Both start empty and false. */
    constructor ()
      ensures highScores == [] && !isNewHighScore
    {
      highScores := [];
      isNewHighScore := false;
    }

    /** One run of the effect: show the stored list, then save a finished game;
        the flag is raised when the save reports a new record and is never lowered. */
    method RunEffect(store: Store, d: Difficulty, score: nat, turns: nat, gameTime: nat, maxPairs: nat,
                     now: string, writeFails: bool)
      modifies this, store
      ensures var out := Finish(old(store.slot), d, score, turns, gameTime, maxPairs, now, writeFails);
        && store.slot == out.slot
        && highScores == out.shown
        && isNewHighScore == (old(isNewHighScore) || out.newHighScore)
    {
      var scores := store.GetHighScores(d);
      highScores := scores;
      var scoreValue := ScoreValue(turns, gameTime);
      if score == maxPairs {
        var isNewRecord := store.SaveHighScore(d, HighScore(turns, gameTime, maxPairs, scoreValue, now), writeFails);
        if isNewRecord {
          isNewHighScore := true;
        }
      }
    }
  }
}
