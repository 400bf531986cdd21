/** A vocabulary item and the notion of "the same word" used by the quiz:
    two words are the same when their English text is exactly equal. */
module Words {

  /** One flashcard: an English term and its Japanese meaning. */
  datatype Word = Word(english: string, japanese: string)

  /** Some element of `s` has English text `e`. */
  predicate HasEnglish(s: seq<Word>, e: string)
  {
    exists k :: 0 <= k < |s| && s[k].english == e
  }

  /** No two elements of `s` share their English text. */
  predicate DistinctEnglish(s: seq<Word>)
  {
    forall i, j :: 0 <= i < j < |s| ==> s[i].english != s[j].english
  }

  /** The reference definition of a deduplicated wrong-word list: the
      elements of `s` whose English text does not occur earlier in `s`,
      in the order they occur. */
  function FirstByEnglish(s: seq<Word>): (r: seq<Word>)
    ensures DistinctEnglish(r)
    ensures forall w :: w in r ==> w in s
    ensures forall e :: HasEnglish(r, e) <==> HasEnglish(s, e)
    ensures |r| <= |s|
  {
    if s == [] then []
    else
      var init, last := s[..|s| - 1], s[|s| - 1];
      assert s == init + [last];
      var d := FirstByEnglish(init);
      if HasEnglish(init, last.english) then
        assert forall e :: HasEnglish(s, e) ==> HasEnglish(init, e) by {
          forall e | HasEnglish(s, e) ensures HasEnglish(init, e) {
            var k :| 0 <= k < |s| && s[k].english == e;
            if k == |s| - 1 {
            } else {
              assert init[k].english == e;
            }
          }
        }
        d
      else
        var r := d + [last];
        assert !HasEnglish(d, last.english);
        assert forall e :: HasEnglish(r, e) <==> HasEnglish(d, e) || e == last.english by {
          forall e ensures HasEnglish(r, e) <==> HasEnglish(d, e) || e == last.english {
            if HasEnglish(d, e) {
              var k :| 0 <= k < |d| && d[k].english == e;
              assert r[k].english == e;
            }
            if e == last.english {
              assert r[|d|].english == e;
            }
            if HasEnglish(r, e) {
              var k :| 0 <= k < |r| && r[k].english == e;
              if k < |d| {
                assert d[k].english == e;
              }
            }
          }
        }
        assert forall e :: HasEnglish(s, e) <==> HasEnglish(init, e) || e == last.english by {
          forall e ensures HasEnglish(s, e) <==> HasEnglish(init, e) || e == last.english {
            if HasEnglish(init, e) {
              var k :| 0 <= k < |init| && init[k].english == e;
              assert s[k].english == e;
            }
            if e == last.english {
              assert s[|init|].english == e;
            }
            if HasEnglish(s, e) {
              var k :| 0 <= k < |s| && s[k].english == e;
              if k < |init| {
                assert init[k].english == e;
              }
            }
          }
        }
        assert forall i :: 0 <= i < |d| ==> d[i].english != last.english;
        r
  }

  /** Recording one more missed word extends the deduplicated list exactly
      the way the quiz's don't-know handler does: by appending the word
      unless a word with the same English text is already listed. */
  lemma FirstByEnglishSnoc(s: seq<Word>, w: Word)
    ensures FirstByEnglish(s + [w])
         == if HasEnglish(FirstByEnglish(s), w.english) then FirstByEnglish(s)
            else FirstByEnglish(s) + [w]
  {
  }
}
