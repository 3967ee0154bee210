/**
 * What a client of the game can conclude from the contracts alone: the worked
 * "silkworm" examples and a word submitted twice.
 */
module Scenario {
  import opened Letters
  import opened Text
  import opened Validation
  import opened Game

  /** "silkworms" is one letter longer than "silkworm", so it is not possible. */
  lemma SilkwormsNotPossible()
    ensures !Spellable("silkworms", "silkworm")
  {
  }

  /** A start-word file holding just "silkworm" has that one line. */
  lemma SilkwormLines()
    ensures Lines("silkworm") == ["silkworm"]
  {
    LinesJoin(["silkworm"]);
  }

  /**
   * Typing the same text twice: the first submission is accepted and scored, the
   * second is turned down as a duplicate and leaves the round as the first left it.
   */
  method SubmitTwice(view: ContentView, typed: string)
    requires view.Valid()
    requires Normalize(typed) != ""
    requires Evaluate(Normalize(typed), view.usedWords, view.rootWord, view.checker) == Accepted
    modifies view
    ensures view.Valid()
    ensures view.usedWords == [Normalize(typed)] + old(view.usedWords)
    ensures view.score == old(view.score) + |Normalize(typed)|
    ensures view.showingError && view.errorTitle == UsedAlready.Title()
  {
    view.newWord := typed;
    view.AddNewWord();
    view.newWord := typed;
    view.AddNewWord();
  }
}
