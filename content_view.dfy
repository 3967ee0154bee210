/**
 * The game state of the WordWhirl screen and the operations that change it:
 * submitting the typed answer and starting a new round.
 */
module Game {
  import opened Wrappers
  import opened Letters
  import opened Text
  import opened Validation

  /** No word occurs twice. */
  predicate NoDuplicates(words: seq<string>) {
    forall i, j :: 0 <= i < j < |words| ==> words[i] != words[j]
  }

  /** Sum of the lengths of the words: the points they are worth. */
  function TotalLength(words: seq<string>): nat {
    if words == [] then 0 else |words[0]| + TotalLength(words[1..])
  }

  function Max(a: nat, b: nat): nat {
    if a >= b then a else b
  }

  /** Swift's `randomElement()`: some element, or none for an empty list. */
  method RandomElement<T>(xs: seq<T>) returns (r: Option<T>)
    ensures r.None? <==> xs == []
    ensures r.Some? ==> r.value in xs
  {
    if xs == [] {
      r := None;
    } else {
      var i :| 0 <= i < |xs|;
      r := Some(xs[i]);
    }
  }

  class ContentView {
    var usedWords: seq<string>
    var rootWord: string
    var newWord: string

    var errorTitle: string
    var errorMessage: string
    var showingError: bool
    var score: nat
    var highscore: nat

    /** The spell checker: true when it finds no misspelling in the word for the language. */
    const checker: (string, string) -> bool

    /**
     * Every accepted word is a distinct, non-empty, normalised answer that passed all
     * three checks against the current root word; the score is what they are worth
     * and never exceeds the high score.
     */
    ghost predicate Valid()
      reads this
    {
      && NoDuplicates(usedWords)
      && (forall w :: w in usedWords ==>
            w != "" && Normalize(w) == w && Spellable(w, rootWord) && checker(w, Language))
      && score == TotalLength(usedWords)
      && score <= highscore
    }

    /** The screen as it first appears, with the stored high score. */
    constructor (storedHighscore: nat, checker: (string, string) -> bool)
      ensures Valid()
      ensures usedWords == [] && rootWord == "" && newWord == ""
      ensures errorTitle == "" && errorMessage == "" && !showingError
      ensures score == 0 && highscore == storedHighscore
      ensures this.checker == checker
    {
      usedWords := [];
      rootWord := "";
      newWord := "";
      errorTitle := "";
      errorMessage := "";
      showingError := false;
      score := 0;
      highscore := storedHighscore;
      this.checker := checker;
    }

    /** `isOriginal`: the word has not been accepted yet. */
    function IsOriginal(word: string): (r: bool)
      reads this
      ensures r <==> forall k :: 0 <= k < |usedWords| ==> usedWords[k] != word
    {
      word !in usedWords
    }

    /**
     * `isPossible`: strikes each letter of the word out of a copy of the root word,
     * failing at the first letter the copy no longer has.
     */
    method IsPossible(word: string) returns (possible: bool)
      ensures possible <==> Spellable(word, rootWord)
    {
      var tempWord := rootWord;
      for i := 0 to |word|
        invariant multiset(word[..i]) <= multiset(rootWord)
        invariant multiset(tempWord) == multiset(rootWord) - multiset(word[..i])
      {
        var letter := word[i];
        assert word[..i + 1] == word[..i] + [letter];
        var pos := FirstIndex(tempWord, letter);
        if pos.Some? {
          StrikeOut(rootWord, tempWord, word[..i], letter, pos.value);
          tempWord := RemoveAt(tempWord, pos.value);
        } else {
          StrikeOutFails(rootWord, tempWord, word[..i], letter);
          SpellablePrefixContrapositive(word, i + 1, rootWord);
          return false;
        }
      }
      assert word[..|word|] == word;
      return true;
    }

    /**
     * `isReal`: the spell checker, asked in language "on", finds no misspelling in the
     * word; once the first two checks pass, this alone decides acceptance.
     */
    function IsReal(word: string): (r: bool)
      ensures r == checker(word, "on")
      ensures forall used, root :: word !in used && Spellable(word, root) ==>
                (r <==> Evaluate(word, used, root, checker) == Accepted)
    {
      checker(word, Language)
    }

    /** `wordError`: raises the alert with the given title and message. */
    method WordError(title: string, message: string)
      modifies this
      ensures errorTitle == title && errorMessage == message && showingError
      ensures usedWords == old(usedWords) && rootWord == old(rootWord) && newWord == old(newWord)
      ensures score == old(score) && highscore == old(highscore)
    {
      errorTitle := title;
      errorMessage := message;
      showingError := true;
    }

    /**
     * `addNewWord`: normalises the typed answer; ignores it when empty; otherwise runs
     * the checks in order and either raises the first failure's alert or accepts it.
     */
    method AddNewWord()
      requires Valid()
      modifies this
      ensures Valid()
      ensures rootWord == old(rootWord)
      ensures highscore >= old(highscore)
      // an answer that is empty once normalised changes nothing at all
      ensures Normalize(old(newWord)) == "" ==> unchanged(this)
      // a rejection raises the first failing check's alert and changes nothing else
      ensures var answer := Normalize(old(newWord));
              var verdict := Evaluate(answer, old(usedWords), rootWord, checker);
              answer != "" && verdict.Rejected? ==>
                && errorTitle == verdict.reason.Title()
                && errorMessage == verdict.reason.Message(rootWord)
                && showingError
                && usedWords == old(usedWords) && newWord == old(newWord)
                && score == old(score) && highscore == old(highscore)
      // an acceptance records the word, scores it and clears the text field
      ensures var answer := Normalize(old(newWord));
              answer != "" && Evaluate(answer, old(usedWords), rootWord, checker) == Accepted ==>
                && usedWords == [answer] + old(usedWords)
                && score == old(score) + |answer|
                && highscore == Max(old(highscore), score)
                && newWord == ""
                && errorTitle == old(errorTitle) && errorMessage == old(errorMessage)
                && showingError == old(showingError)
                && Evaluate(answer, usedWords, rootWord, checker) == Rejected(UsedAlready)
    {
      var answer := Normalize(newWord);

      if |answer| == 0 {
        return;
      }

      ghost var verdict := Evaluate(answer, usedWords, rootWord, checker);
      if !IsOriginal(answer) {
        assert verdict == Rejected(UsedAlready);
        WordError(UsedAlready.Title(), UsedAlready.Message(rootWord));
        return;
      }

      var possible := IsPossible(answer);
      if !possible {
        assert verdict == Rejected(NotPossible);
        WordError(NotPossible.Title(), NotPossible.Message(rootWord));
        return;
      }

      if !IsReal(answer) {
        assert verdict == Rejected(NotRecognized);
        WordError(NotRecognized.Title(), NotRecognized.Message(rootWord));
        return;
      }

      NormalizeIdempotent(newWord);
      Commit(answer);
    }

    /**
     * The acceptance half of `addNewWord`: records the answer in front, scores its
     * length, raises the high score if the score passed it and clears the text field.
     */
    method Commit(answer: string)
      requires Valid()
      requires answer != "" && Normalize(answer) == answer
      requires answer !in usedWords && Spellable(answer, rootWord) && checker(answer, Language)
      modifies this
      ensures Valid()
      ensures usedWords == [answer] + old(usedWords)
      ensures score == old(score) + |answer|
      ensures highscore == Max(old(highscore), score)
      ensures newWord == "" && rootWord == old(rootWord)
      ensures errorTitle == old(errorTitle) && errorMessage == old(errorMessage)
      ensures showingError == old(showingError)
    {
      NoDuplicatesPrepend(answer, usedWords);
      assert ([answer] + usedWords)[1..] == usedWords;
      usedWords := [answer] + usedWords;

      score := score + |answer|;
      if score > highscore {
        highscore := score;
      }

      newWord := "";
    }

    /**
     * `startGame`, given the text of the start-word file: picks one of its lines as the
     * root word (with "silkworm" should there be none) and starts an empty round;
     * the high score carries over.
     */
    method StartGame(startWords: string)
      modifies this
      ensures Valid()
      ensures rootWord in Lines(startWords)
      ensures usedWords == [] && score == 0
      ensures highscore == old(highscore) && newWord == old(newWord)
      ensures errorTitle == old(errorTitle) && errorMessage == old(errorMessage)
      ensures showingError == old(showingError)
    {
      var allWords := Lines(startWords);
      var chosen := RandomElement(allWords);
      rootWord := chosen.GetOr("silkworm");
      usedWords := [];
      score := 0;
    }
  }

  /** Putting a new word in front keeps a list free of duplicates. */
  lemma NoDuplicatesPrepend(w: string, words: seq<string>)
    requires NoDuplicates(words) && w !in words
    ensures NoDuplicates([w] + words)
  {
  }
}
