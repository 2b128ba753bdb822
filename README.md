# Cards memory game — a Dafny model

This project models the core of a React card-matching memory game and of the
mail pages that ship with it:

- **the game board** (`GameBoard`): how many pairs are dealt for each difficulty,
  how the deck is created and shuffled, the click handler, the match check that
  follows each second pick, the reset of a turn, and the "all matched" check.
  The board state is a class whose fields are the component's state variables,
  and each step is also a function on a `BoardState` value. An invariant `Inv`
  holds in every reachable state. It says a dealt deck is a shuffle of the pair
  deck, at most the two chosen cards are face up and unmatched, both cards of a
  type are matched together, and the score equals the number of matched pairs.
- **the timer** (`Timer`): the `mm:ss` format, with a parser that reads it back,
  and the ticking counter as a class;
- **the high-score table** (`HighScores`): what is read from local storage and
  what is written back. Sorting is stable (as JavaScript's `sort` is), the list
  is cut to the best five, and the "new record" test compares dates;
- **the results screen** (`GameResults`): the ranking value, the rule that saves
  only finished games, and the "new high score" flag;
- **the game page** (`Session`): the page's own state, and how the board's
  callbacks and the timer's reports keep it equal to the mounted components;
- **the mail hook** (`Gmail`) and **the email list page** (`EmailList`): mark
  read, toggle important, archive and delete; the unread and important views; the
  tab kept in the URL's `filter` parameter; the case-insensitive search; the
  selection; and the batch actions, which apply one operation per selected id.

`Seqs` holds a generic filter and a subsequence relation with their lemmas.
`Wrappers` holds `Option` and `Difficulties` holds `Difficulty`.

Modelling choices:

- A click and the match-check effect it triggers form one step
  (`GameBoard.Select`, `Board.HandleChoice`). React runs passive effects before
  it handles the next click. The delayed actions are separate steps: the deal
  after 100 ms (`Board.DealCards`) and the turn reset after a mismatch
  (`Board.Reset`, at the page level `Session.TurnTimeout`).
- The match effect also depends on the page's `incrementScore` and
  `incrementTurns`, which the page creates anew on every render. A page render
  is therefore a step of its own (`Session.Rerender`) that runs the effect again
  on the current state (`GameBoard.Reruns`). During a mismatch wait each such
  re-run counts one more turn and queues one more reset; see "## Findings".
  A queued reset may fire at any later time, which `Board.Reset` allows.
- The source shuffles with a random comparator. The model accepts any
  permutation of the created deck (`IsShuffleOf`).
- The source's ranking value `turns + gameTime * 0.5` is a floating-point number.
  The model stores it doubled, as the integer `2 * turns + gameTime`.
  `GameResults.ScoreValueOrder` proves that this orders and ties games exactly as
  the real value does.
- Local storage is a `Slot`: the key may be absent, unreadable, or present
  with a table of lists. Unreadable means reading it throws: storage is
  unavailable, the JSON is malformed, or it parses to `null`. A failing write is
  the parameter `writeFails`. Other kinds of content are listed under
  "## Left out".
- `formatTime` appears twice in the source, in `Timer.tsx` and in
  `GameResults.tsx`, with the same body. It is defined once, as
  `Timer.FormatTime`.
- `GameBoard.tsx` declares an `onGameComplete` callback, but the game page never
  passes it. When every card is matched, the board still calls it a second later,
  after the toast, and that call throws a `TypeError`. The call can come more
  than once: the completion effect has no cleanup and runs again whenever
  `cards` is rebuilt, for instance by a reset queued during an earlier mismatch
  wait that fires after the last match. Nothing ends the game and the timer
  keeps running. The completion condition is modelled as a result
  (`Board.GameComplete`); the failing call is not modelled.
- The results screen is not mounted by the game page. It is modelled as the
  component it is, with the store and the finished game's figures as inputs.

## Model

| member | source | states |
|---|---|---|
| GameBoard.IconsDistinct | src/components/game/GameBoard.tsx:47-58 | the ten icon types are pairwise different |
| GameBoard.PairCount | src/components/game/GameBoard.tsx:37-44 | a difficulty deals between 6 and 10 pairs, never more than there are icon types |
| GameBoard.PairCountMatchesPanel | src/components/game/ScorePanel.tsx:14 | the board's pair count is the panel's `maxPairs` (6, 8, 10), and easy < medium < hard |
| GameBoard.PairedKindsCount | src/components/game/GameBoard.tsx:65-70 | the first N icon types taken twice hold each of those types exactly twice |
| GameBoard.NewDeck | src/components/game/GameBoard.tsx:62-76 | `createCards` gives 2N cards, each id equal to its position, all face down and unmatched, each of the first N types exactly twice |
| GameBoard.KindsOfShuffle | src/components/game/GameBoard.tsx:79 | a permutation of the cards permutes their types |
| GameBoard.ShuffledDeck | src/components/game/GameBoard.tsx:79 | any shuffle of the deck still has 2N face-down cards with distinct ids below 2N and the same multiset of types |
| GameBoard.DealInv | src/components/game/GameBoard.tsx:83-88 | dealing a shuffled deck with both choices cleared reaches a state of the invariant |
| GameBoard.ResetTurnInv | src/components/game/GameBoard.tsx:144-158 | `resetTurn` preserves the invariant |
| GameBoard.FirstPickInv | src/components/game/GameBoard.tsx:129-141 | a first pick preserves the invariant |
| GameBoard.MismatchInv | src/components/game/GameBoard.tsx:102-124 | a second pick of a different type preserves the invariant (board locked, two cards up) |
| GameBoard.MatchCards | src/components/game/GameBoard.tsx:109-117 | marking the type of two face-up cards matches exactly the two cards of that type |
| GameBoard.PairedCount | src/components/game/GameBoard.tsx:109-117 | a matched pair adds exactly two matched positions |
| GameBoard.PairedAlike | src/components/game/GameBoard.tsx:109-117 | after marking a pair, two cards of one type are still both matched or both unmatched |
| GameBoard.PairedStateInv | src/components/game/GameBoard.tsx:107-119 | the state after a match, its score raised and the turn reset, satisfies the invariant |
| GameBoard.MatchInv | src/components/game/GameBoard.tsx:102-126 | a second pick of the same type preserves the invariant |
| GameBoard.SelectInv | src/components/game/GameBoard.tsx:102-141 | every click, together with its match check, preserves the invariant |
| GameBoard.SelectIgnored | src/components/game/GameBoard.tsx:130 | a click on a locked board or on a face-up card changes nothing |
| GameBoard.FirstPick | src/components/game/GameBoard.tsx:129-141 | a first pick turns up that card only, records it as first choice and counts no turn |
| GameBoard.SecondPick | src/components/game/GameBoard.tsx:102-126 | a second pick counts a turn; equal types: both cards matched and up, score +1, board free; different types: both up, score kept, board locked until the reset |
| GameBoard.ResetTurnFlipsBackChoices | src/components/game/GameBoard.tsx:144-158 | the reset clears both choices, unlocks the board and turns back exactly the chosen unmatched cards |
| GameBoard.ScoreBounded | src/components/game/GameBoard.tsx:92-126 | the score never exceeds the pair count and at most two cards are face up and unmatched |
| GameBoard.CompleteIffAllPairs | src/components/game/GameBoard.tsx:92-99 | every card is matched exactly when the deck is dealt and the score equals the pair count |
| GameBoard.CreateCards | src/components/game/GameBoard.tsx:62-76 | `createCards` before the shuffle; its properties are in `NewDeck` |
| GameBoard.Deal | src/components/game/GameBoard.tsx:83-88 | the deal; `DealInv` proves it reaches the invariant |
| GameBoard.ResetTurn | src/components/game/GameBoard.tsx:144-158 | `resetTurn`; see `ResetTurnFlipsBackChoices` and `ResetTurnInv` |
| GameBoard.Choose | src/components/game/GameBoard.tsx:129-141 | `handleChoice` alone; see `FirstPick`, `SecondPick` and `SelectIgnored` |
| GameBoard.CheckMatch | src/components/game/GameBoard.tsx:102-126 | one run of the match effect; see `SecondPick`, `RerunInv` and `MismatchReruns` |
| GameBoard.Select | src/components/game/GameBoard.tsx:102-141 | a click with the effect run it triggers; see `SelectInv`, `FirstPick`, `SecondPick` and `CheckNewPairStable` |
| GameBoard.Reruns | src/components/game/GameBoard.tsx:102-126 | the effect run again once per page render; it keeps the choices in range and the number of cards |
| GameBoard.RerunInv | src/components/game/GameBoard.tsx:102-126 | a re-run keeps the invariant; it does nothing without a second choice and adds exactly one turn during a mismatch wait |
| GameBoard.MismatchReruns | src/components/game/GameBoard.tsx:102-126 | during a mismatch wait, k re-runs add k turns and change nothing else |
| GameBoard.MismatchTurns | src/components/game/GameBoard.tsx:102-126 | a second pick of another type followed by k renders counts 1 + k turns for one pair, with cards and score as the click left them |
| GameBoard.CheckNewPair | src/components/game/GameBoard.tsx:102-126 | the match check as intended: it acts only on a pair that has not yet locked the board |
| GameBoard.CheckNewPairStable | src/components/game/GameBoard.tsx:102-141 | every state of the invariant is left alone by the intended check, and a click followed by it is `Select` |
| GameBoard.Board.constructor | src/components/game/GameBoard.tsx:30-34 | a new board is loading, empty, with no choices and zero counts |
| GameBoard.Board.DealCards | src/components/game/GameBoard.tsx:83-88 | the deal step on the board's fields; the invariant is kept |
| GameBoard.Board.Reset | src/components/game/GameBoard.tsx:144-158 | the reset step on the board's fields; the invariant is kept |
| GameBoard.Board.MatchCheck | src/components/game/GameBoard.tsx:102-126 | the match effect on the fields, after a click or on a re-run; `turnTaken` and `matchFound` are exactly the calls made to `incrementTurns` and `incrementScore`; the invariant is kept |
| GameBoard.Board.HandleChoice | src/components/game/GameBoard.tsx:129-141 | the click step on the fields, the invariant kept, callbacks reported as by the match effect |
| GameBoard.Board.GameComplete | src/components/game/GameBoard.tsx:92-99 | the completion check holds exactly when the deck is dealt and all pairs are found |
| Timer.DigitChar | src/components/game/Timer.tsx:36 | a digit value gives a digit character |
| Timer.Decimal | src/components/game/Timer.tsx:36 | `toString` of a natural number is all digits, one digit exactly below 10 and at most two exactly below 100 |
| Timer.PadStart | src/components/game/Timer.tsx:36 | `padStart` yields the longer of the string and the width |
| Timer.PadStartParts | src/components/game/Timer.tsx:36 | `padStart` is fill characters followed by the original string |
| Timer.DecimalRoundTrip | src/components/game/Timer.tsx:36 | the decimal digits read back to the number |
| Timer.PaddedValue | src/components/game/Timer.tsx:36 | zero padding keeps the digits' value |
| Timer.FormatTime | src/components/game/Timer.tsx:33-37 | `formatTime`; see `FormatTimeRoundTrip` and `FormatTimeShape` |
| Timer.FormatTimeRoundTrip | src/components/game/Timer.tsx:33-37 | parsing `formatTime(t)` gives back t |
| Timer.FormatTimeShape | src/components/game/Timer.tsx:33-37 | `formatTime(t)` is at least two digits of t div 60, ':', two digits of t mod 60; exactly `mm:ss` below 100 minutes |
| Timer.Ticker.constructor | src/components/game/Timer.tsx:10-22 | the counter starts at 0 and runs exactly when `isRunning` |
| Timer.Ticker.SetRunning | src/components/game/Timer.tsx:12-30 | the effect re-run starts or stops the interval and keeps the count |
| Timer.Ticker.Tick | src/components/game/Timer.tsx:16-21 | a running tick raises the count by one and reports the new value; a stopped timer does nothing |
| HighScores.InsertByValue | src/utils/highScores.ts:44-45 | inserting a record adds exactly one entry |
| HighScores.InsertKeepsSorted | src/utils/highScores.ts:44-45 | inserting into a list sorted by value keeps it sorted |
| HighScores.InsertMultiset | src/utils/highScores.ts:44-45 | inserting adds exactly that record to the multiset |
| HighScores.SortIsSorted | src/utils/highScores.ts:19 | the sort orders by `scoreValue`, lowest first |
| HighScores.SortPermutes | src/utils/highScores.ts:19 | the sort is a permutation |
| HighScores.SortSpec | src/utils/highScores.ts:19 | the sort is sorted and a permutation |
| HighScores.SortAppend | src/utils/highScores.ts:41-45 | sorting after a push is inserting into the sorted list |
| HighScores.SortSorted | src/utils/highScores.ts:19 | sorting a sorted list leaves it unchanged |
| HighScores.SortStable | src/utils/highScores.ts:19 | the records of each value keep their original relative order |
| HighScores.SortByValue | src/utils/highScores.ts:19 | the stable sort by `scoreValue`; see `SortSpec`, `SortStable` and `SortSorted` |
| HighScores.Top | src/utils/highScores.ts:46 | `slice(0, 5)`; see `TopOfSorted` and `KeptIsBest` |
| HighScores.Read | src/utils/highScores.ts:12-24 | `getHighScores`; see `ReadSpec` |
| HighScores.Kept | src/utils/highScores.ts:41-46 | the list written back for a difficulty; see `KeptIsBest` and `SavePlacesAfterTies` |
| HighScores.Save | src/utils/highScores.ts:27-57 | `saveHighScore`; see `SaveKeepsBest`, `SaveFrame`, `SaveFailure` and `NewRecordIff` |
| HighScores.ReadSpec | src/utils/highScores.ts:12-24 | `getHighScores` returns the stored records sorted and permuted, and `[]` for a missing or unreadable key or a missing difficulty |
| HighScores.KeptIsBest | src/utils/highScores.ts:41-46 | the list written back is sorted, holds min(n+1, 5) of the offered records, and every record dropped ranks no better than every record kept |
| HighScores.SaveKeepsBest | src/utils/highScores.ts:27-52 | a successful save stores exactly `Kept` for the difficulty, which is also what reading it gives |
| HighScores.SaveFrame | src/utils/highScores.ts:36-49 | a save leaves every other difficulty's list alone |
| HighScores.SaveFailure | src/utils/highScores.ts:53-56 | an unreadable key or a failing write changes nothing and reports no record |
| HighScores.SavePlacesAfterTies | src/utils/highScores.ts:44-45 | the new record is placed after every stored record of equal or lower value and before every higher one |
| HighScores.SaveIntoEmptyIsNew | src/utils/highScores.ts:36-52 | the first record of a difficulty is a new record |
| HighScores.NewRecordIff | src/utils/highScores.ts:52 | with no stored record sharing its date, the save reports a new record exactly when it beats every stored record |
| HighScores.SaveBestIsFirst | src/utils/highScores.ts:41-52 | a record better than all stored ones heads the kept list, which is its top five with the sorted old list behind it |
| HighScores.Store.constructor | src/utils/highScores.ts:9 | the store starts at the given storage slot |
| HighScores.Store.GetHighScores | src/utils/highScores.ts:12-24 | the method returns `Read` of the slot |
| HighScores.Store.SaveHighScore | src/utils/highScores.ts:27-57 | the method's new slot and flag are those of `Save` |
| HighScores.Store.ClearHighScores | src/utils/highScores.ts:60-62 | clearing removes the key, and every difficulty then reads as empty |
| GameResults.ScoreValue | src/components/game/GameResults.tsx:44-46 | the stored value is twice `turns + gameTime * 0.5` and never negative |
| GameResults.ScoreValueOrder | src/components/game/GameResults.tsx:44-46 | the doubled integer value ranks games exactly as the real `turns + gameTime * 0.5` does: the same strict order and the same ties |
| GameResults.Record | src/components/game/GameResults.tsx:49-55 | the saved record has the game's turns and time, the full pair count as score, the now timestamp and the ranking value |
| GameResults.Finish | src/components/game/GameResults.tsx:39-62 | the results effect; see `FinishShowsOldList`, `FinishSaves` and `NewHighScoreIff` |
| GameResults.FinishShowsOldList | src/components/game/GameResults.tsx:41-48 | the list shown is the one from before the save; an unfinished game leaves the store alone and reports nothing |
| GameResults.FinishSaves | src/components/game/GameResults.tsx:48-55 | a finished game is kept for its difficulty as `Kept` of its record, and every other difficulty stays as it was |
| GameResults.NewHighScoreIff | src/components/game/GameResults.tsx:48-60 | with a fresh timestamp the flag is raised exactly when the game is finished, readable and written, and beats every stored game |
| GameResults.NewHighScoreIsFirst | src/components/game/GameResults.tsx:57-60 | when the flag is raised, the first stored record is this game's |
| GameResults.Results.constructor | src/components/game/GameResults.tsx:29-30 | the list starts empty and the flag false |
| GameResults.Results.RunEffect | src/components/game/GameResults.tsx:39-62 | the effect's store, list and flag are those of `Finish`; the flag is never lowered |
| Session.Game.constructor | src/pages/Index.tsx:10-15 | not started, counters zero, easy |
| Session.Game.StartGame | src/pages/Index.tsx:17-22 | starts and zeroes score, turns and time, keeping the difficulty |
| Session.Game.EndGame | src/pages/Index.tsx:24-26 | stops and keeps everything else |
| Session.Game.HandleTimeUpdate | src/pages/Index.tsx:28-30 | takes over the reported time only |
| Session.Game.IncrementScore | src/pages/Index.tsx:71 | score +1, nothing else |
| Session.Game.IncrementTurns | src/pages/Index.tsx:72 | turns +1, nothing else |
| Session.Game.SetDifficulty | src/pages/Index.tsx:42-52 | sets the difficulty, offered only before a game is started |
| Session.Start | src/pages/Index.tsx:17-22 | starting mounts a fresh board and a fresh running timer that agree with the page; score, turns, the page's time and the timer's count all start at 0 |
| Session.Click | src/pages/Index.tsx:69-74 | a click keeps the page's score and turns equal to the board's, and the score within the pair count |
| Session.Rerender | src/pages/Index.tsx:71-72 | a page render re-runs the match effect and its reports land on the page: agreement kept, score kept, one more turn exactly when a second choice is pending |
| Session.TurnTimeout | src/components/game/GameBoard.tsx:123 | a queued reset firing keeps the page and the board in agreement |
| Session.Second | src/pages/Index.tsx:62-68 | each second of the timer advances the page's time by one and keeps the agreement |
| Gmail.MarkRead | src/hooks/useGmail.tsx:66-72 | `markAsRead`'s update; see `MarkReadFrame`, `MarkReadIdempotent` and `MarkReadUnread` |
| Gmail.ToggleImportant | src/hooks/useGmail.tsx:74-80 | `markAsImportant`'s update; see `ToggleImportantFrame` and `ToggleImportantTwice` |
| Gmail.Without | src/hooks/useGmail.tsx:82-96 | the update of `archiveEmail` and `deleteEmail`; see `WithoutSpec` and `WithoutIdempotent` |
| Gmail.Unread | src/hooks/useGmail.tsx:98 | `unreadEmails`; see `ViewsExact` |
| Gmail.Important | src/hooks/useGmail.tsx:99 | `importantEmails`; see `ViewsExact` |
| Gmail.MarkReadFrame | src/hooks/useGmail.tsx:66-72 | marking read keeps order and ids and changes only the read flag, only of emails with that id |
| Gmail.MarkReadIdempotent | src/hooks/useGmail.tsx:66-72 | marking read twice is marking read once |
| Gmail.MarkReadUnread | src/hooks/useGmail.tsx:66-72 | the unread view after marking read is the old unread view without that id |
| Gmail.ToggleImportantFrame | src/hooks/useGmail.tsx:74-80 | toggling keeps order and ids and flips only the important flag, only of emails with that id |
| Gmail.ToggleImportantTwice | src/hooks/useGmail.tsx:74-80 | toggling twice is the identity |
| Gmail.WithoutSpec | src/hooks/useGmail.tsx:82-96 | archive and delete keep, in order, exactly the emails with another id, every copy of each |
| Gmail.WithoutIdempotent | src/hooks/useGmail.tsx:82-96 | removing twice is removing once |
| Gmail.AbsentIdUnchanged | src/hooks/useGmail.tsx:66-96 | none of the operations changes a list in which the id does not occur |
| Gmail.ViewsExact | src/hooks/useGmail.tsx:98-99 | the unread and important views hold exactly those emails, in order, every copy |
| Gmail.Mailbox.constructor | src/hooks/useGmail.tsx:29-30 | no emails, loading |
| Gmail.Mailbox.FetchEmails | src/hooks/useGmail.tsx:41-46 | the fetch sets loading and keeps the list |
| Gmail.Mailbox.EmailsArrived | src/hooks/useGmail.tsx:47-50 | the fetched list replaces the old one and loading ends |
| Gmail.Mailbox.AuthChanged | src/hooks/useGmail.tsx:33-39 | signed in: fetch; signed out: the list is emptied |
| Gmail.Mailbox.MarkAsRead | src/hooks/useGmail.tsx:66-72 | the list becomes `MarkRead` of the old one |
| Gmail.Mailbox.MarkAsImportant | src/hooks/useGmail.tsx:74-80 | the list becomes `ToggleImportant` of the old one |
| Gmail.Mailbox.ArchiveEmail | src/hooks/useGmail.tsx:82-88 | the list becomes `Without` of the old one |
| Gmail.Mailbox.DeleteEmail | src/hooks/useGmail.tsx:90-96 | the list becomes `Without` of the old one |
| EmailList.TabOfFilter | src/components/emails/EmailList.tsx:40-45 | `unread` and `important` pick their tabs, and every other value or none picks all |
| EmailList.WithTab | src/components/emails/EmailList.tsx:47-57 | the parameters `handleTabChange` writes; see `TabRoundTrip` |
| EmailList.Matches | src/components/emails/EmailList.tsx:65-71 | the search predicate over subject, snippet, sender name and sender address; see `MatchesIgnoresCase` |
| EmailList.FilteredEmails | src/components/emails/EmailList.tsx:59-75 | `filteredEmails`; see `FilteredExact` and `EmptyQueryShowsTab` |
| EmailList.Toggle | src/components/emails/EmailList.tsx:77-83 | `toggleEmailSelection`'s update; see `ToggleMembership` and `ToggleTwice` |
| EmailList.SelectAll | src/components/emails/EmailList.tsx:85-91 | `handleSelectAll`'s update; see `SelectAllSpec` |
| EmailList.ApplyAll | src/components/emails/EmailList.tsx:96-111 | the `forEach` over the selection; see `BatchMarkRead`, `BatchToggleImportant` and `BatchRemove` |
| EmailList.TabRoundTrip | src/components/emails/EmailList.tsx:47-57 | the tab written to the URL reads back as that tab; `filter` is present exactly for the narrower tabs; other parameters are kept |
| EmailList.LowerStr | src/components/emails/EmailList.tsx:67-70 | lower-casing keeps the length |
| EmailList.ContainsIff | src/components/emails/EmailList.tsx:67-70 | `includes` holds exactly when the needle occurs at some position |
| EmailList.LowerStrIdempotent | src/components/emails/EmailList.tsx:67-70 | lower-casing twice is lower-casing once |
| EmailList.MatchesIgnoresCase | src/components/emails/EmailList.tsx:65-71 | the search ignores the case of the query |
| EmailList.EmptyQueryShowsTab | src/components/emails/EmailList.tsx:65-74 | with an empty query the tab's list is shown as it is |
| EmailList.FilteredExact | src/components/emails/EmailList.tsx:59-75 | the emails shown are, in order, exactly those of the tab that match the query, each with all its copies |
| EmailList.ToggleMembership | src/components/emails/EmailList.tsx:77-83 | toggling flips the membership of that id and no other |
| EmailList.ToggleTwice | src/components/emails/EmailList.tsx:77-83 | toggling twice restores every membership, and the selection itself when the id was not selected |
| EmailList.SelectAllSpec | src/components/emails/EmailList.tsx:85-91 | select-all clears exactly when the selection's size equals the number shown or nothing is shown, and otherwise selects the shown ids in order |
| EmailList.BatchMarkRead | src/components/emails/EmailList.tsx:96-100 | batch marking read marks exactly the emails whose id is selected |
| EmailList.BatchToggleImportant | src/components/emails/EmailList.tsx:96-103 | batch toggling flips an email's flag once per selection of its id |
| EmailList.BatchRemove | src/components/emails/EmailList.tsx:96-111 | batch archive or delete keeps, in order, exactly the emails whose id is not selected |
| EmailList.EmailListView.constructor | src/components/emails/EmailList.tsx:34-37 | all emails, no query, nothing selected |
| EmailList.EmailListView.SyncTabFromUrl | src/components/emails/EmailList.tsx:40-45 | the active tab becomes the one named by `filter` |
| EmailList.EmailListView.HandleTabChange | src/components/emails/EmailList.tsx:47-57 | sets the tab and the URL, which reads back as the same tab |
| EmailList.EmailListView.SetSearchQuery | src/components/emails/EmailList.tsx:136-142 | typing in or clearing the box sets the query only |
| EmailList.EmailListView.ToggleEmailSelection | src/components/emails/EmailList.tsx:77-83 | the selection becomes `Toggle` of the old one |
| EmailList.EmailListView.HandleSelectAll | src/components/emails/EmailList.tsx:85-91 | the selection becomes `SelectAll` of the old one and the emails shown |
| EmailList.EmailListView.ClearSelection | src/components/emails/EmailList.tsx:303 | the menu's clear empties the selection |
| EmailList.EmailListView.HandleBatchAction | src/components/emails/EmailList.tsx:93-114 | an empty selection changes nothing; otherwise the action runs for each selected id in order, then the selection is emptied |

## Findings

| source | as written | input that shows it | evidently intended | confidence | as-written member | corrected member |
|---|---|---|---|---|---|---|
| src/components/game/GameBoard.tsx:102-126 | the match effect depends on `incrementScore` and `incrementTurns`, which the page creates anew on every render (src/pages/Index.tsx:71-72), so the effect runs again on every page render and calls `incrementTurns` each time both choices are set | pick a card, then a card of another type: every render during the 1000 ms wait, including the one caused by the effect's own `incrementTurns`, adds a turn and queues another `resetTurn`, so one pair of picks counts 1 + k turns | one turn per pair of picks | not executed | GameBoard.MismatchTurns | GameBoard.CheckNewPairStable |

## Left out

- Rendering, layout, animations, toasts, icons' React elements and the grid class choice: presentation only.
- Timers (the 100 ms deal delay, the 1000 ms mismatch delay, the 1 s interval, the 1500 ms fetch delay, the 1000 ms completion toast): each delayed action is a separate step, and its timing is not modelled.
- The game page creates a new `handleTimeUpdate` on every render, so the timer's interval is re-created on each render. While re-runs keep the page rendering during a mismatch wait, the interval may not fire at all. Ticks are not tied to wall-clock time in the model, so this is not modelled.
- Session.Rerender: how many renders happen during a mismatch wait depends on React's scheduling, so the model allows any number; the source keeps rendering until the first queued reset fires.
- Session.Click: the click step alone keeps the page's turns equal to the board's single count; the extra turns of the source come from the `Session.Rerender` steps that follow it.
- Stored content that parses to a JSON array (such as `[]`): `getHighScores` returns `[]`, and `saveHighScore` returns `true` without storing the record, because the property it adds to the array is dropped when the array is written back. The model has no slot for such content.
- Stored content that parses to another non-object (a number, a string, `true` or `false`): `getHighScores` returns `[]`, and `saveHighScore` returns `false` and changes nothing, because assigning a property to a primitive throws in module code. The model has no slot for such content either. It behaves like `Unreadable`, but the model does not identify the two.
- A stored table whose entry for one difficulty is falsy (`null`, `0`, `false`, `""`) behaves exactly like a missing entry: it reads as `[]`, and a save re-initialises it and stores the record. The model expresses such an entry as a table without that difficulty and does not represent the falsy value itself.
- A stored table whose entry for one difficulty is truthy but not a list (an object, a number, a non-empty string): reads of that difficulty give `[]`, and saves to it return `false` and change nothing, while the other difficulties work normally. The model's `Unreadable` covers only the whole key, so such entries are not modelled.
- `Math.random`: the shuffle is any permutation of the deck.
- Floating point: the ranking value is kept doubled as an integer, and the order is proved equal.
- JSON encoding, the `localStorage` API and its exceptions: storage is a `Slot`, and a failing write is a parameter.
- `new Date().toISOString()`: the timestamp is an input string.
- `toLowerCase` is modelled on ASCII letters only. Unicode case mapping is not modelled.
- `URLSearchParams` with repeated keys: the parameters are a map with one value per key.
- The tab trigger values are arbitrary strings in the source. The model has the three tabs the page offers.
- The mock email list: the fetched list is a parameter. The fetch's error path is unreachable in the source (the timeout callback does not throw into it), so it is not modelled. `refreshEmails` is `fetchEmails` plus a toast.
- `getCardCount`'s default branch cannot be taken with the three difficulties.
- The rules dialog, the difficulty controls' rendering, and the results screen's buttons: presentation only.
- Google authentication, the calendar, the dashboard and the other pages: not part of the game or the mail core.
