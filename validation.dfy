/**
 * The three checks a normalised answer goes through, in the order `addNewWord`
 * runs them, and the alert each failure raises.
 */
module Validation {
  import opened Letters

  /** The language code passed to the spell checker. */
  const Language: string := "on"

  /** Why an answer was turned down; the first failing check wins. */
  datatype Reason = UsedAlready | NotPossible | NotRecognized {

    /** The alert title, which names the failing check. */
    function Title(): (r: string)
      ensures r == "Word used already" <==> UsedAlready?
      ensures r == "Word not possible" <==> NotPossible?
      ensures r == "Word not recognized" <==> NotRecognized?
    {
      match this
      case UsedAlready => "Word used already"
      case NotPossible => "Word not possible"
      case NotRecognized => "Word not recognized"
    }

    /** The alert message; only the "not possible" one quotes the root word. */
    function Message(rootWord: string): (r: string)
      ensures NotPossible? ==> r == "You can't spell that word from '" + rootWord + "'!"
      ensures UsedAlready? ==> r == "Be more original!"
      ensures NotRecognized? ==> r == "You can't just make them up, you know!"
    {
      match this
      case UsedAlready => "Be more original!"
      case NotPossible => "You can't spell that word from '" + rootWord + "'!"
      case NotRecognized => "You can't just make them up, you know!"
    }
  }

  datatype Verdict = Accepted | Rejected(reason: Reason)

  /**
   * The verdict on `answer`: a duplicate of an accepted word first, then a word the
   * root word's letters cannot spell, then a word the spell checker does not know.
   * `checker(word, language)` stands for the dictionary lookup.
   */
  function Evaluate(answer: string, usedWords: seq<string>, rootWord: string,
                    checker: (string, string) -> bool): (v: Verdict)
    ensures v == Rejected(UsedAlready) <==> answer in usedWords
    ensures v == Rejected(NotPossible) <==> answer !in usedWords && !Spellable(answer, rootWord)
    ensures v == Rejected(NotRecognized) <==>
              answer !in usedWords && Spellable(answer, rootWord) && !checker(answer, Language)
    ensures v == Accepted <==>
              answer !in usedWords && Spellable(answer, rootWord) && checker(answer, Language)
  {
    if answer in usedWords then Rejected(UsedAlready)
    else if !Spellable(answer, rootWord) then Rejected(NotPossible)
    else if !checker(answer, Language) then Rejected(NotRecognized)
    else Accepted
  }

  /** Corollary of `Reason.Title`'s contract: the three alert titles differ pairwise. */
  lemma TitlesDistinct(a: Reason, b: Reason)
    requires a != b
    ensures a.Title() != b.Title()
  {
  }
}
