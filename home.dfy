/** The page that switches between set selection and the quiz: it builds a
    round's word list from the chosen sets, decides after each round whether
    to go back to selection or to retry the missed words, and resets on
    "back". The word sets themselves are a parameter. */
module Home {
  import opened Words
  import SetSelection

  /** The page's mode. `Completed` is declared by the page but no handler
      ever enters it. */
  datatype Mode = Selection | Quiz | Completed

  /** Every chosen index denotes an existing word set. */
  predicate IndicesInRange(wordSets: seq<seq<Word>>, sets: seq<int>)
  {
    forall k :: 0 <= k < |sets| ==> 0 <= sets[k] < |wordSets|
  }

  /** The words of the chosen sets, set after set in the order chosen, each
      set's words in their own order. */
  function Concat(wordSets: seq<seq<Word>>, sets: seq<int>): (r: seq<Word>)
    requires IndicesInRange(wordSets, sets)
    ensures forall w :: w in r <==> exists k :: 0 <= k < |sets| && w in wordSets[sets[k]]
  {
    if sets == [] then []
    else Concat(wordSets, sets[..|sets| - 1]) + wordSets[sets[|sets| - 1]]
  }

  /** The number of words in the chosen sets, added up from the first. */
  function SumLengths(wordSets: seq<seq<Word>>, sets: seq<int>): (n: nat)
    requires IndicesInRange(wordSets, sets)
  {
    if sets == [] then 0
    else |wordSets[sets[0]]| + SumLengths(wordSets, sets[1..])
  }

  /** Building the list for two runs of chosen sets one after the other is
      building each and joining them. */
  lemma {:induction false} ConcatAppend(wordSets: seq<seq<Word>>, a: seq<int>, b: seq<int>)
    requires IndicesInRange(wordSets, a) && IndicesInRange(wordSets, b)
    ensures IndicesInRange(wordSets, a + b)
    ensures Concat(wordSets, a + b) == Concat(wordSets, a) + Concat(wordSets, b)
  {
    assert IndicesInRange(wordSets, a + b) by {
      forall k | 0 <= k < |a + b| ensures 0 <= (a + b)[k] < |wordSets| {
        if k >= |a| { assert (a + b)[k] == b[k - |a|]; }
      }
    }
    if b != [] {
      var init := b[..|b| - 1];
      assert (a + b)[..|a + b| - 1] == a + init;
      ConcatAppend(wordSets, a, init);
    } else {
      assert a + b == a;
    }
  }

  /** The built list is as long as the chosen sets together. */
  lemma {:induction false} ConcatLength(wordSets: seq<seq<Word>>, sets: seq<int>)
    requires IndicesInRange(wordSets, sets)
    ensures |Concat(wordSets, sets)| == SumLengths(wordSets, sets)
  {
    if sets != [] {
      assert sets == [sets[0]] + sets[1..];
      ConcatAppend(wordSets, [sets[0]], sets[1..]);
      assert Concat(wordSets, [sets[0]]) == wordSets[sets[0]] by {
        assert [sets[0]][..0] == [];
      }
      ConcatLength(wordSets, sets[1..]);
    }
  }

  /** When every set has the same number of words, the chosen sets hold
      that number times the number of chosen sets. */
  lemma {:induction false} SumLengthsUniform(wordSets: seq<seq<Word>>, sets: seq<int>, size: nat)
    requires IndicesInRange(wordSets, sets)
    requires forall i :: 0 <= i < |wordSets| ==> |wordSets[i]| == size
    ensures SumLengths(wordSets, sets) == size * |sets|
  {
    if sets != [] {
      SumLengthsUniform(wordSets, sets[1..], size);
    }
  }

  /** With fifty words in every set, the count in the selection screen's
      footer is the length of the round the page builds from that
      selection. */
  lemma FooterCountIsRoundLength(wordSets: seq<seq<Word>>, screen: SetSelection.Selection)
    requires IndicesInRange(wordSets, screen.selectedSets)
    requires forall i :: 0 <= i < |wordSets| ==> |wordSets[i]| == SetSelection.WordsPerSet
    ensures screen.TotalWords() == |Concat(wordSets, screen.selectedSets)|
  {
    ConcatLength(wordSets, screen.selectedSets);
    SumLengthsUniform(wordSets, screen.selectedSets, SetSelection.WordsPerSet);
  }

  /** In the built list, the words of the `k`-th chosen set come as one
      block, right after the words of the sets chosen before it. */
  lemma ConcatBlock(wordSets: seq<seq<Word>>, sets: seq<int>, k: nat)
    requires IndicesInRange(wordSets, sets) && k < |sets|
    ensures var before := |Concat(wordSets, sets[..k])|;
      before + |wordSets[sets[k]]| <= |Concat(wordSets, sets)| &&
      Concat(wordSets, sets)[before .. before + |wordSets[sets[k]]|] == wordSets[sets[k]]
  {
    assert sets == sets[..k + 1] + sets[k + 1..];
    assert sets[..k + 1][..k] == sets[..k];
    ConcatAppend(wordSets, sets[..k + 1], sets[k + 1..]);
  }

  /** The page's state. */
  class App {
    /** The bundled word sets (static data). */
    const wordSets: seq<seq<Word>>
    var state: Mode
    var selectedSets: seq<int>
    var currentWords: seq<Word>
    var wrongWords: seq<Word>
    var isRetryMode: bool

    /** What every handler keeps: the unused mode is never entered, the
        selection screen has no leftover round, a first round runs over the
        chosen sets and a retry round over the previous round's non-empty
        wrong list. */
    ghost predicate Valid()
      reads this
      ensures Valid() ==> state == Selection || state == Quiz
      ensures Valid() && state == Quiz && isRetryMode ==> currentWords == wrongWords && |currentWords| > 0
    {
      && state != Completed
      && (state == Selection ==> selectedSets == [] && currentWords == [])
      && (state == Quiz && !isRetryMode ==>
            wrongWords == [] && IndicesInRange(wordSets, selectedSets) &&
            currentWords == Concat(wordSets, selectedSets))
      && (state == Quiz && isRetryMode ==> currentWords == wrongWords != [])
    }

    constructor (wordSets: seq<seq<Word>>)
      ensures Valid()
      ensures this.wordSets == wordSets
      ensures state == Selection && selectedSets == [] && currentWords == []
      ensures wrongWords == [] && !isRetryMode
    {
      this.wordSets := wordSets;
      state := Selection;
      selectedSets := [];
      currentWords := [];
      wrongWords := [];
      isRetryMode := false;
    }

    /** The list a round over the chosen sets runs on, built by appending
        each chosen set in turn. */
    method CollectWords(sets: seq<int>) returns (words: seq<Word>)
      requires IndicesInRange(wordSets, sets)
      ensures words == Concat(wordSets, sets)
    {
      words := [];
      for k := 0 to |sets|
        invariant words == Concat(wordSets, sets[..k])
      {
        assert sets[..k + 1][..k] == sets[..k];
        words := words + wordSets[sets[k]];
      }
      assert sets[..|sets|] == sets;
    }

    /** Starting from the selection screen: a first round over the chosen
        sets, with no wrong words and not in retry mode. */
    method HandleStart(sets: seq<int>)
      requires Valid()
      requires IndicesInRange(wordSets, sets)
      modifies this
      ensures Valid()
      ensures state == Quiz && selectedSets == sets
      ensures currentWords == Concat(wordSets, sets)
      ensures |currentWords| == SumLengths(wordSets, sets)
      ensures wrongWords == [] && !isRetryMode
    {
      var words := CollectWords(sets);
      ConcatLength(wordSets, sets);
      selectedSets := sets;
      currentWords := words;
      wrongWords := [];
      isRetryMode := false;
      state := Quiz;
    }

    /** A round reported its wrong words: with none, back to selection with
        the round cleared (the retry flag is left as it was); otherwise a
        retry round over exactly those words, in the same order. */
    method HandleQuizComplete(wrong: seq<Word>)
      requires Valid()
      modifies this
      ensures Valid()
      ensures wrongWords == wrong
      ensures wrong == [] ==>
        state == Selection && selectedSets == [] && currentWords == [] &&
        isRetryMode == old(isRetryMode)
      ensures wrong != [] ==>
        state == Quiz && currentWords == wrong && isRetryMode &&
        selectedSets == old(selectedSets)
    {
      wrongWords := wrong;
      if |wrong| == 0 {
        state := Selection;
        selectedSets := [];
        currentWords := [];
      } else {
        currentWords := wrong;
        isRetryMode := true;
        state := Quiz;
      }
    }

    /** "Back" from the quiz: everything as when the page was first shown. */
    method HandleBackToSelection()
      requires Valid()
      modifies this
      ensures Valid()
      ensures state == Selection && selectedSets == [] && currentWords == []
      ensures wrongWords == [] && !isRetryMode
    {
      state := Selection;
      selectedSets := [];
      currentWords := [];
      wrongWords := [];
      isRetryMode := false;
    }
  }

  /** After one round over two sets ends with one missed word, the page
      starts a retry round over just that word; when that round ends with
      nothing missed the page is back on the selection screen, with the
      retry flag still set until the next start or "back". */
  method RetryThenReturn(first: seq<Word>, second: seq<Word>, missed: Word)
    returns (retryWords: seq<Word>, retrying: bool, finalMode: Mode, finalRetryFlag: bool)
    ensures retryWords == [missed] && retrying
    ensures finalMode == Selection && finalRetryFlag
  {
    var app := new App([first, second]);
    app.HandleStart([0, 1]);
    app.HandleQuizComplete([missed]);
    retryWords, retrying := app.currentWords, app.isRetryMode;
    app.HandleQuizComplete([]);
    finalMode, finalRetryFlag := app.state, app.isRetryMode;
  }
}
