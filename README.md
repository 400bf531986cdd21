# English vocabulary quiz: a Dafny model of its three state machines

The application is a browser flashcard quiz. The user picks sets of English
words on a selection screen. The quiz screen then shows one English word at
a time. For each word the user answers "know" or "don't know":

- "know" moves on to the next word after a short delay;
- "don't know" adds the word to a wrong list and shows its Japanese meaning
  until "OK" moves on.

At the end of a round the page either returns to the selection screen,
when nothing was missed, or starts a retry round over exactly the missed
words.

All of this logic lives in the state cells and event handlers of three
React components. Each component becomes one Dafny module with one class.
The class fields are the component's state cells. The class methods are its
handlers.

- `Words` (`words.dfy`): the `Word` record (English text, Japanese
  meaning). It also holds the reference definition `FirstByEnglish` of a
  wrong list with no English text twice, which is "the first occurrence of
  each English text among the missed words, in order".
- `QuizSession` (`quiz.dfy`), for `components/Quiz.tsx`: class `Session`
  with `currentIndex`, `wrongWords`, `showAnswer` and `answered`.
  - The delayed callback that "know" schedules is an explicit field
    `timer`. It records, at scheduling time, the branch the callback will
    take, and for a completion the wrong list its closure captured.
    `TimerFires` runs the callback.
  - A ghost field `missed` records every word answered "don't know". The
    invariant `Valid()` ties `wrongWords` to `FirstByEnglish(missed)` and
    keeps `currentIndex` within the list.
  - Completion is an output value, `Completed(wrongWords)`: the list handed
    to `onComplete`.
- `SetSelection` (`set_selection.dfy`), for `components/SetSelection.tsx`:
  - pure functions for the new selection: `Toggle`, which uses `Without`
    (the `filter`) and `Sort` (the numeric `sort`), and `SelectAll`;
  - class `Selection`, whose handlers assign those values, gate "start" on
    a non-empty selection and compute the footer's word count.
- `Home` (`home.dfy`), for `app/page.tsx`: class `App` with the mode, the
  chosen sets, the current word list, the wrong list and the retry flag.
  - `CollectWords` is the loop that builds a round's list. It is proved
    equal to `Concat`, the joined word sets.
  - The invariant `Valid()` says three things. The `Completed` mode is
    never entered. A first round runs over the joined chosen sets. A retry
    round runs over the previous round's non-empty wrong list.

The word sets are static data that are not part of this model. They are a
parameter (`wordSets: seq<seq<Word>>`).

Points of the code's behaviour the model keeps:

- The quiz is "answer first, then reveal": the meaning is shown only after
  "don't know".
- With an empty word list the code reads `words[0]` without a guard. So a
  session requires a non-empty list (`Quiz.tsx:20`, `:99`).
- "OK" is guarded by `showAnswer` alone, not by `answered`. On the last
  word it reports completion and changes no state, so every further "OK"
  reports it again.
- A round's list joins the sets in the order they are passed. That order
  is ascending only because the selection screen keeps its list sorted.
- After a round with no misses, the page returns to selection without
  clearing the retry flag (`page.tsx:32-36`). `RetryThenReturn` shows this.

## Model

| member | source | states |
|---|---|---|
| `Words.FirstByEnglish` | components/Quiz.tsx:46-48 | The deduplicated wrong list has pairwise distinct English texts. Its elements come from the missed words. It holds a word with a given English text exactly when some missed word has that text. |
| `Words.FirstByEnglishSnoc` | components/Quiz.tsx:46-47 | One more missed word extends the deduplicated list by appending that word only when no listed word has the same English text, which is exactly the don't-know handler's test. |
| `QuizSession.Session.Valid` | components/Quiz.tsx:15-18 | A valid session keeps `currentIndex` within the round's list, has a wrong list with distinct English texts, and every wrong word drawn from the round's words. |
| `QuizSession.Session.CurrentWord` | components/Quiz.tsx:20 | The card shown is a word of the round's list. |
| `QuizSession.Session.constructor` | components/Quiz.tsx:15-18 | A session starts on the first word of a non-empty list, with no wrong words, both flags clear and no pending callback. |
| `QuizSession.Session.HandleKnow` | components/Quiz.tsx:23-40 | The wrong list, the index and `showAnswer` never change. When already answered, it is a no-op. Otherwise it latches `answered` and schedules the advance, or on the last word the completion that carries the current wrong list. |
| `QuizSession.Session.HandleDontKnow` | components/Quiz.tsx:42-51 | When already answered, it is a no-op. Otherwise it latches `answered` and shows the meaning. It appends the current word only if no listed word has its English text. The invariant, including duplicate-free English texts, is preserved. |
| `QuizSession.Session.HandleOk` | components/Quiz.tsx:53-64 | Without `showAnswer` it changes nothing. Before the last word it moves the index up by exactly one and clears both flags. On the last word it keeps the index and reports completion with the accumulated wrong list. |
| `QuizSession.Session.TimerFires` | components/Quiz.tsx:28-37 | A scheduled advance moves the index up by exactly one and clears both flags. A scheduled completion reports the wrong list unchanged, on the last word. The wrong list is untouched either way. |
| `QuizSession.KnowEveryWord` | components/Quiz.tsx:16-40 | Answering "know" to every word of a fresh session, with each delayed callback run, ends in completion with an empty wrong list. |
| `QuizSession.KnowTwice` | components/Quiz.tsx:23-32 | A second "know" before the callback runs schedules nothing more: the index moves exactly one step. |
| `QuizSession.CatDogRound` | components/Quiz.tsx:23-64 | Over [cat, dog], with "don't know" then "OK" on cat and "know" on dog, the round completes with exactly [cat]. |
| `SetSelection.Without` | components/SetSelection.tsx:17 | Filtering removes every occurrence of the index. Every other index keeps its multiplicity. |
| `SetSelection.WithoutSorted` | components/SetSelection.tsx:17 | Filtering keeps a sorted selection sorted. |
| `SetSelection.WithoutStrict` | components/SetSelection.tsx:17 | Filtering keeps a strictly ascending selection strictly ascending. |
| `SetSelection.Sort` | components/SetSelection.tsx:19 | The numeric sort returns an ascending permutation of its input. |
| `SetSelection.Toggle` | components/SetSelection.tsx:14-22 | For a present index: every occurrence is removed and the other indices are kept. For an absent index: the result is the old list plus that index, sorted ascending. |
| `SetSelection.ToggleKeepsSorted` | components/SetSelection.tsx:14-22 | Toggling keeps a sorted selection sorted. |
| `SetSelection.ToggleKeepsAscending` | components/SetSelection.tsx:14-22 | Toggling keeps a selection sorted and free of duplicates. |
| `SetSelection.ToggleTwice` | components/SetSelection.tsx:14-22 | Toggling the same index twice returns the original selection, given a sorted, duplicate-free start. |
| `SetSelection.AllSets` | components/SetSelection.tsx:28 | "All sets" is the list `0, 1, ..., totalSets - 1`. |
| `SetSelection.SelectAll` | components/SetSelection.tsx:25-29 | The switch's new selection is either nothing or every set, and it is strictly ascending. |
| `SetSelection.SelectAllResult` | components/SetSelection.tsx:24-30 | "Select all" leaves nothing exactly when the selection's length equals the number of sets, or there are no sets. |
| `SetSelection.SelectAllTwiceFromNone` | components/SetSelection.tsx:24-30 | From nothing selected, one switch selects every set and a second switch returns to nothing. |
| `SetSelection.FullLengthIsAllSets` | components/SetSelection.tsx:25 | For a duplicate-free selection of existing sets, its length is at most the number of sets. It equals that number exactly when every set is selected. |
| `SetSelection.Selection.constructor` | components/SetSelection.tsx:12 | The screen starts with nothing selected. |
| `SetSelection.Selection.HandleToggleSet` | components/SetSelection.tsx:14-22 | The new selection is `Toggle` of the old one, so it stays sorted and duplicate-free from the initial empty list on. |
| `SetSelection.Selection.HandleSelectAll` | components/SetSelection.tsx:24-30 | The new selection is the switch's result, an invariant-keeping value. |
| `SetSelection.Selection.HandleStart` | components/SetSelection.tsx:32-36 | "Start" fires exactly when the selection is non-empty, and it passes the selection on unchanged. |
| `SetSelection.Selection.Valid` | components/SetSelection.tsx:12-22 | The selection the screen keeps is sorted ascending and holds no index twice. |
| `SetSelection.Selection.TotalWords` | components/SetSelection.tsx:38 | The footer shows fifty words per selected set; `Home.FooterCountIsRoundLength` relates this count to the round actually built. |
| `SetSelection.SelectAllOfThree` | components/SetSelection.tsx:24-30 | With three sets, "select all" gives [0, 1, 2] and a second switch gives []. |
| `Home.Concat` | app/page.tsx:19-22 | The built list holds a word exactly when some chosen set holds it. |
| `Home.ConcatAppend` | app/page.tsx:19-22 | Joining the sets of two runs of chosen indices equals joining each run and then the two results. |
| `Home.ConcatLength` | app/page.tsx:19-22 | The built list is as long as the chosen sets together. |
| `Home.ConcatBlock` | app/page.tsx:19-22 | The words of the k-th chosen set appear as one block, in their own order, right after those of the sets chosen before it. |
| `Home.SumLengthsUniform` | app/page.tsx:19-22 | When every set has the same size, the chosen sets hold that size times the number of chosen sets. |
| `Home.FooterCountIsRoundLength` | components/SetSelection.tsx:38 | With fifty words in every set, the footer's count equals the length of the list the page builds from the same selection. |
| `Home.App.Valid` | app/page.tsx:9-16 | The page is only ever in selection or quiz mode (`Completed` is never entered), and a retry round runs over exactly the non-empty wrong list. |
| `Home.App.constructor` | app/page.tsx:12-16 | The page starts on selection with all lists empty and the retry flag clear. |
| `Home.App.CollectWords` | app/page.tsx:19-22 | The append loop builds exactly the chosen sets joined in the order given. |
| `Home.App.HandleStart` | app/page.tsx:18-28 | The current list becomes the chosen sets joined in order, with the sets' total length. The wrong list is cleared, the retry flag is cleared, and the mode is quiz. |
| `Home.App.HandleQuizComplete` | app/page.tsx:30-43 | Both branches store the reported list as the wrong list. An empty report returns to selection with the chosen sets and the current list cleared. A non-empty report starts a retry round over exactly that list, in the same order, with the retry flag set. `Completed` is never entered. |
| `Home.App.HandleBackToSelection` | app/page.tsx:45-51 | Restores the initial state: selection mode, every list empty, retry flag clear. |
| `Home.RetryThenReturn` | app/page.tsx:18-43 | A round with one missed word leads to a retry round over just that word. A clean retry returns to selection, and the retry flag is still set. |

## Left out

- `app/layout.tsx` is not part of this model: it holds page metadata and the HTML shell, with no logic.
- Rendering, styling and the progress bar's percentage (`Quiz.tsx:21`) are left out. That value is floating-point and only displayed. The `isRetryMode` prop of the quiz screen only selects a badge, so it is left out too.
- The 500 ms delay and React's scheduling are left out. The delayed callback is the explicit step `TimerFires`, which can run only while a callback is pending.
- React batching is left out. Each handler reads the values of the last render. The model runs events one at a time, each after the previous event's state updates, so the `answered` latch is always seen.
- `handleBack` (`Quiz.tsx:66-70`) only asks a browser `confirm` dialog before calling `onBack`. The effect of `onBack` is `Home.App.HandleBackToSelection`; the dialog is not modelled.
- Composing the page with the quiz screen is left out. The page renders the quiz without a `key` (`page.tsx:61-67`), so under React a retry round may keep the previous round's session state. The model keeps `Session` and `App` separate and claims nothing about fresh session state on a retry.
- The contents of the word-sets module are not part of this model. `wordSets` is a parameter. `Home.App.HandleStart` requires that every chosen index names an existing set, because the source's append would fail on a missing one.
- The selection handlers accept any integer index, as the source does. The fact that the checkboxes only produce indices below `totalSets` appears only as a requires of `SetSelection.FullLengthIsAllSets`.
- JavaScript numbers are modelled as unbounded integers. Index values and the word count stay far below the range where this differs.
