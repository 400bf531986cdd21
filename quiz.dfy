/** The quiz screen's session: one pass over a list of words in the
    "answer first, then reveal" interaction. For each word the user answers
    "know" (the word is left out of the wrong list and, after a short delay,
    the session advances) or "don't know" (the word is added to the wrong
    list and its meaning is shown until "OK" advances). Finishing the last
    word reports the accumulated wrong list to the caller. */
module QuizSession {
  import opened Words

  /** The callback a "know" answer leaves behind on the browser's timer. It
      fixes at scheduling time which branch it will take, and a completion
      carries the wrong list its closure captured. */
  datatype Timer = NoTimer | AdvanceAfterDelay | CompleteAfterDelay(captured: seq<Word>)

  /** What a step reports to the parent: nothing, or completion of the round
      with the wrong words handed to `onComplete`. */
  datatype Outcome = Running | Completed(wrongWords: seq<Word>)

  class Session {
    /** The round's working list (a prop, not state). */
    const words: seq<Word>
    var currentIndex: nat
    var wrongWords: seq<Word>
    var showAnswer: bool
    var answered: bool
    /** The pending timer callback, if any. */
    var timer: Timer
    /** Every word answered "don't know" so far, in order, repeats included. */
    ghost var missed: seq<Word>

    /** The session invariant. Besides the index bound and the flag
        discipline, it ties the wrong list to the reference definition over
        the missed words, from which its two promised properties follow. */
    ghost predicate Valid()
      reads this
      ensures Valid() ==> 0 <= currentIndex < |words|
      ensures Valid() ==> DistinctEnglish(wrongWords)
      ensures Valid() ==> forall w :: w in wrongWords ==> w in words
    {
      && |words| > 0
      && currentIndex < |words|
      && (forall w :: w in missed ==> w in words)
      && wrongWords == FirstByEnglish(missed)
      && (showAnswer ==> answered)
      && (timer != NoTimer ==> answered && !showAnswer)
      && (timer == AdvanceAfterDelay ==> currentIndex < |words| - 1)
      && (timer.CompleteAfterDelay? ==>
            currentIndex == |words| - 1 && timer.captured == wrongWords)
    }

    /** The card on screen. The source indexes the list without a guard, so
        a session exists only over a non-empty list. */
    function CurrentWord(): (w: Word)
      reads this
      requires Valid()
      ensures w in words
    {
      words[currentIndex]
    }

    /** Mounting the quiz screen over `words`. */
    constructor (words: seq<Word>)
      requires |words| > 0
      ensures Valid()
      ensures this.words == words
      ensures currentIndex == 0 && wrongWords == [] && missed == []
      ensures !showAnswer && !answered && timer == NoTimer
    {
      this.words := words;
      currentIndex := 0;
      wrongWords := [];
      showAnswer := false;
      answered := false;
      timer := NoTimer;
      missed := [];
    }

    /** "Know": unless this word was already answered, latch the answer and
        schedule either the advance or, on the last word, the completion.
        The wrong list is never touched. */
    method HandleKnow()
      requires Valid()
      modifies this
      ensures Valid()
      ensures wrongWords == old(wrongWords) && missed == old(missed)
      ensures currentIndex == old(currentIndex) && showAnswer == old(showAnswer)
      ensures old(answered) ==> answered && timer == old(timer)
      ensures !old(answered) ==>
        answered &&
        timer == (if old(currentIndex) < |words| - 1 then AdvanceAfterDelay
                  else CompleteAfterDelay(old(wrongWords)))
    {
      if !answered {
        answered := true;
        if currentIndex < |words| - 1 {
          timer := AdvanceAfterDelay;
        } else {
          timer := CompleteAfterDelay(wrongWords);
        }
      }
    }

    /** "Don't know": unless this word was already answered, latch the
        answer, add the word to the wrong list when no word with the same
        English text is there yet, and show the meaning. */
    method HandleDontKnow()
      requires Valid()
      modifies this
      ensures Valid()
      ensures currentIndex == old(currentIndex) && timer == old(timer)
      ensures old(answered) ==>
        wrongWords == old(wrongWords) && missed == old(missed) &&
        answered && showAnswer == old(showAnswer)
      ensures !old(answered) ==>
        answered && showAnswer &&
        missed == old(missed) + [old(CurrentWord())] &&
        wrongWords == (if HasEnglish(old(wrongWords), old(CurrentWord()).english)
                       then old(wrongWords)
                       else old(wrongWords) + [old(CurrentWord())])
      ensures !old(answered) ==> HasEnglish(wrongWords, old(CurrentWord()).english)
    {
      if !answered {
        answered := true;
        var current := words[currentIndex];
        FirstByEnglishSnoc(missed, current);
        if !HasEnglish(wrongWords, current.english) {
          wrongWords := wrongWords + [current];
        }
        missed := missed + [current];
        showAnswer := true;
        assert HasEnglish(missed, current.english) by {
          assert missed[|missed| - 1] == current;
        }
      }
    }

    /** "OK": only while the meaning is shown; moves to the next word and
        clears both flags, or on the last word reports completion and
        leaves the state as it is. */
    method HandleOk() returns (out: Outcome)
      requires Valid()
      modifies this
      ensures Valid()
      ensures wrongWords == old(wrongWords) && missed == old(missed) && timer == old(timer)
      ensures !old(showAnswer) ==>
        out == Running && currentIndex == old(currentIndex) &&
        showAnswer == old(showAnswer) && answered == old(answered)
      ensures old(showAnswer) && old(currentIndex) < |words| - 1 ==>
        out == Running && currentIndex == old(currentIndex) + 1 &&
        !showAnswer && !answered
      ensures old(showAnswer) && old(currentIndex) == |words| - 1 ==>
        out == Completed(old(wrongWords)) && currentIndex == old(currentIndex) &&
        showAnswer && answered
    {
      out := Running;
      if showAnswer {
        if currentIndex < |words| - 1 {
          currentIndex := currentIndex + 1;
          showAnswer := false;
          answered := false;
        } else {
          out := Completed(wrongWords);
        }
      }
    }

    /** The delayed callback scheduled by "know" runs: either the advance
        (next word, both flags cleared) or the completion with the list its
        closure captured, which is the current wrong list. */
    method TimerFires() returns (out: Outcome)
      requires Valid()
      requires timer != NoTimer
      modifies this
      ensures Valid()
      ensures timer == NoTimer
      ensures wrongWords == old(wrongWords) && missed == old(missed)
      ensures old(timer) == AdvanceAfterDelay ==>
        out == Running && currentIndex == old(currentIndex) + 1 &&
        !showAnswer && !answered
      ensures old(timer).CompleteAfterDelay? ==>
        out == Completed(old(wrongWords)) && currentIndex == |words| - 1 &&
        currentIndex == old(currentIndex) && answered && !showAnswer
    {
      match timer {
        case AdvanceAfterDelay =>
          currentIndex := currentIndex + 1;
          showAnswer := false;
          answered := false;
          out := Running;
        case CompleteAfterDelay(captured) =>
          out := Completed(captured);
      }
      timer := NoTimer;
    }
  }

  /** Answering "know" to every word of a fresh session, letting each
      delayed callback run, ends in completion with an empty wrong list. */
  method KnowEveryWord(words: seq<Word>) returns (out: Outcome)
    requires |words| > 0
    ensures out == Completed([])
  {
    var session := new Session(words);
    for k := 0 to |words| - 1
      invariant session.Valid() && session.words == words
      invariant session.currentIndex == k
      invariant session.wrongWords == [] && session.missed == []
      invariant !session.answered && !session.showAnswer && session.timer == NoTimer
    {
      session.HandleKnow();
      var step := session.TimerFires();
    }
    session.HandleKnow();
    out := session.TimerFires();
  }

  /** Answering "know" a second time before the delayed callback runs
      schedules nothing more: one advance per word. */
  method KnowTwice(words: seq<Word>) returns (out: Outcome, index: nat)
    requires |words| > 1
    ensures out == Running && index == 1
  {
    var session := new Session(words);
    session.HandleKnow();
    session.HandleKnow();
    out := session.TimerFires();
    index := session.currentIndex;
  }

  /** A round over ["cat", "dog"] with "cat" answered "don't know" then
      "OK", and "dog" answered "know", completes with exactly ["cat"]. */
  method CatDogRound() returns (out: Outcome)
    ensures out == Completed([Word("cat", "猫")])
  {
    var cat, dog := Word("cat", "猫"), Word("dog", "犬");
    var session := new Session([cat, dog]);
    session.HandleDontKnow();
    assert !HasEnglish([], cat.english);
    out := session.HandleOk();
    session.HandleKnow();
    out := session.TimerFires();
  }
}
