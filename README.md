# WordWhirl game engine in Dafny

WordWhirl is a single-screen word game. A round has a root word. The player types
words made from the root word's letters. A typed answer is lowercased and trimmed,
then checked in a fixed order:

1. it must not have been accepted already (`isOriginal`);
2. it must be spellable from the root word, each letter occurrence used at most once (`isPossible`);
3. the spell checker must recognise it (`isReal`).

An accepted answer goes to the front of the list of used words and scores one point per
character. The high score rises with the score. A rejection raises an alert naming the
first check that failed. `startGame` picks a new root word from the start-word file,
clears the list and resets the score. The high score carries over.

The model has six modules:

- `Wrappers` (`wrappers.dfy`): `Option`, for `firstIndex(of:)`, `randomElement()` and `??`.
- `Letters` (`letters.dfy`): spellability as multiset inclusion (`Spellable`), a
  per-letter count characterisation, and the two string operations `isPossible` uses
  (`FirstIndex`, `RemoveAt`), with the lemmas for one strike-out step.
- `Text` (`text.dfy`): the whitespace-and-newline set, ASCII lowercasing, `Trim`,
  `Normalize` (lowercase, then trim), and `Lines`, the split of the start-word file on
  `"\n"`, with its inverse `Join`.
- `Validation` (`validation.dfy`): the verdict of the three checks (`Evaluate`), the
  alert title and message of each failure, and the spell checker's language code `"on"`.
- `Game` (`content_view.dfy`): class `ContentView` with the view's state fields
  (`usedWords`, `rootWord`, `newWord`, `errorTitle`, `errorMessage`, `showingError`,
  `score`, `highscore`) and the operations `IsOriginal`, `IsPossible`, `IsReal`,
  `WordError`, `AddNewWord` and `StartGame`. The spell checker is the constant field
  `checker(word, language)`. It stands for `UITextChecker`. The model assumes only
  that the lookup is a fixed, side-effect-free function of the word and the language:
  a word it recognised once it recognises in every later state, which `Valid()` relies
  on. `IsReal(word)` is `checker(word, "on")`.
- `Scenario` (`scenario.dfy`): the worked "silkworm" examples, and a client that submits
  the same text twice using only the contracts.

`ContentView.Valid()` is the invariant that `AddNewWord` preserves and `StartGame` establishes from any state:

- `usedWords` has no duplicates;
- every used word is non-empty, already normalised, spellable from the current root
  word and recognised by the checker;
- `score` is the total length of the used words;
- `score <= highscore`.

`IsPossible` is imperative, like the source. It copies the root word into `tempWord` and
walks the answer letter by letter. For each letter it removes the first occurrence from
the copy, and it returns false at the first letter the copy no longer has. The loop
invariant says the copy's multiset is the root word's minus the letters consumed so far.
The postcondition is `possible <==> multiset(word) <= multiset(rootWord)`. The method has
no `modifies` clause, so it cannot change `rootWord`.

Behaviour of the code that the model keeps:

- `components(separatedBy:)` never returns an empty list, and `Lines` proves this
  (`|Lines(s)| >= 1`). So the `"silkworm"` fallback in `StartGame` is never taken.
- The file text is split only on `"\n"`. A file that ends in a newline has an empty last
  line (`TrailingNewlineGivesEmptyLine`). An empty line can therefore be picked as the
  root word, and then no non-empty answer is possible.
- The fatal error is raised only when the file cannot be found or read. An empty file
  gives the single line `""`, not a fatal error.
- There is no minimum length. The root word itself is an acceptable answer.

## Model

| member | source | states |
|---|---|---|
| `Letters.FirstIndex` | WordWhirl/WordWhirl/WordWhirl/ContentView.swift:164 | `firstIndex(of:)`: no index exactly when the letter is absent; otherwise the index holds the letter and no earlier position does |
| `Letters.RemoveAt` | WordWhirl/WordWhirl/WordWhirl/ContentView.swift:165 | `remove(at:)`: one character shorter, the characters before and after the index kept in order, the multiset loses exactly the removed letter |
| `Letters.StrikeOut` | WordWhirl/WordWhirl/WordWhirl/ContentView.swift:163-166 | a letter still in the copy can be struck out: the consumed prefix stays spellable and the copy stays the root word minus the consumed letters |
| `Letters.StrikeOutFails` | WordWhirl/WordWhirl/WordWhirl/ContentView.swift:167-169 | a letter missing from the copy makes the consumed prefix unspellable, so returning false is right |
| `Letters.SpellableIffOccurrences` | WordWhirl/WordWhirl/WordWhirl/ContentView.swift:160-172 | spellable exactly when no letter occurs in the word more often than in the root word (both directions) |
| `Letters.SpellableNoLonger` | WordWhirl/WordWhirl/WordWhirl/ContentView.swift:160-172 | a word longer than the root word is never possible |
| `Letters.SpellableInfix` | WordWhirl/WordWhirl/WordWhirl/ContentView.swift:160-172 | any piece of the root word, the root word itself included, is possible |
| `Letters.SpellableOrderIndependent` | WordWhirl/WordWhirl/WordWhirl/ContentView.swift:160-172 | a permutation of the word gets the same verdict |
| `Text.IsSpace` | WordWhirl/WordWhirl/WordWhirl/ContentView.swift:112 | Foundation's `whitespacesAndNewlines`: the Unicode space separators (category Zs), U+2028, U+2029, tab, U+000A to U+000D and U+0085; space, tab, newline and carriage return are in it, and no ASCII letter is |
| `Text.ToLower` | WordWhirl/WordWhirl/WordWhirl/ContentView.swift:112 | 'A'..'Z' become the matching 'a'..'z', every other character is unchanged, so the result is never upper-case and whitespace stays whitespace |
| `Text.Lowercase` | WordWhirl/WordWhirl/WordWhirl/ContentView.swift:112 | same length, each character lowercased in place |
| `Text.Trim` | WordWhirl/WordWhirl/WordWhirl/ContentView.swift:112 | no whitespace at either end, only characters of the input, empty exactly when the input is all whitespace, an already trimmed input unchanged |
| `Text.Normalize` | WordWhirl/WordWhirl/WordWhirl/ContentView.swift:112-114 | trimmed and free of upper-case letters; empty exactly when the typed text is all whitespace, which is the case `addNewWord` ignores |
| `Text.NormalizeIgnoresCase` | WordWhirl/WordWhirl/WordWhirl/ContentView.swift:112 | an answer and its lowercased spelling normalise to the same word, so "WORM" and "worm" are one answer |
| `Text.NormalizeIdempotent` | WordWhirl/WordWhirl/WordWhirl/ContentView.swift:112 | normalising a normalised answer changes nothing, so the stored words are in the normal form answers are compared in |
| `Text.TrimDropsLeading` | WordWhirl/WordWhirl/WordWhirl/ContentView.swift:112 | whitespace in front of a non-space character is trimmed away |
| `Text.TrimDropsTrailing` | WordWhirl/WordWhirl/WordWhirl/ContentView.swift:112 | whitespace after a trimmed word is trimmed away |
| `Text.TrimPadding` | WordWhirl/WordWhirl/WordWhirl/ContentView.swift:112 | trimming a word padded with whitespace on both sides gives back the word |
| `Text.LowercaseAppend` | WordWhirl/WordWhirl/WordWhirl/ContentView.swift:112 | lowercasing distributes over concatenation |
| `Text.NormalizePadded` | WordWhirl/WordWhirl/WordWhirl/ContentView.swift:112 | typed text made of a word with whitespace around it normalises to the lowercased word |
| `Text.Lines` | WordWhirl/WordWhirl/WordWhirl/ContentView.swift:147 | `components(separatedBy: "\n")`: at least one line, none containing a newline |
| `Text.JoinLines` | WordWhirl/WordWhirl/WordWhirl/ContentView.swift:147 | joining the lines with newlines gives back the file text |
| `Text.LinesJoin` | WordWhirl/WordWhirl/WordWhirl/ContentView.swift:147 | splitting newline-free lines joined with newlines gives back the lines |
| `Text.TrailingNewlineGivesEmptyLine` | WordWhirl/WordWhirl/WordWhirl/ContentView.swift:147-148 | a file ending in a newline offers the empty line as a root word |
| `Validation.Evaluate` | WordWhirl/WordWhirl/WordWhirl/ContentView.swift:116-129 | the first failing check decides, in the order duplicate, not possible, not recognised; accepted exactly when all three pass (each case both ways) |
| `Validation.Reason.Title` | WordWhirl/WordWhirl/WordWhirl/ContentView.swift:117-127 | each check's alert title ("Word used already", "Word not possible", "Word not recognized"), and each title belongs to exactly one check |
| `Validation.Reason.Message` | WordWhirl/WordWhirl/WordWhirl/ContentView.swift:117-127 | each check's alert message as the source spells it; the "not possible" one is "You can't spell that word from '" + root word + "'!" |
| `Validation.TitlesDistinct` | WordWhirl/WordWhirl/WordWhirl/ContentView.swift:117-127 | the three alert titles differ, so the title names the failing check |
| `Wrappers.Option.GetOr` | WordWhirl/WordWhirl/WordWhirl/ContentView.swift:148 | `??`: the wrapped value when there is one, the default otherwise |
| `Letters.SpellablePrefixContrapositive` | WordWhirl/WordWhirl/WordWhirl/ContentView.swift:167-169 | a word with an unspellable prefix is unspellable, so stopping at the first missing letter is right |
| `Game.RandomElement` | WordWhirl/WordWhirl/WordWhirl/ContentView.swift:148 | `randomElement()`: none exactly for an empty list, otherwise some element of the list |
| `Game.NoDuplicatesPrepend` | WordWhirl/WordWhirl/WordWhirl/ContentView.swift:116-132 | inserting at the front a word that passed the originality check keeps the list free of duplicates |
| `Game.ContentView.constructor` | WordWhirl/WordWhirl/WordWhirl/ContentView.swift:11-19 | initial state: empty list and texts, no alert, score 0, high score as stored; the invariant holds |
| `Game.ContentView.IsOriginal` | WordWhirl/WordWhirl/WordWhirl/ContentView.swift:156-158 | true exactly when no used word equals the answer |
| `Game.ContentView.IsPossible` | WordWhirl/WordWhirl/WordWhirl/ContentView.swift:160-172 | true exactly when the word's multiset is included in the root word's; the root word is not modified |
| `Game.ContentView.IsReal` | WordWhirl/WordWhirl/WordWhirl/ContentView.swift:173-178 | the spell checker asked in language "on"; once the word is original and possible, it alone decides acceptance |
| `Game.ContentView.WordError` | WordWhirl/WordWhirl/WordWhirl/ContentView.swift:179-183 | sets the title and message, shows the alert, changes nothing else |
| `Game.ContentView.AddNewWord` | WordWhirl/WordWhirl/WordWhirl/ContentView.swift:111-142 | empty answer: nothing changes; rejection: only the alert fields change, with the first failing check's title and message; acceptance: answer prepended, score raised by its length, high score the maximum of the old one and the new score, text field cleared, and a resubmission would be a duplicate; the invariant is kept and the high score never drops |
| `Game.ContentView.Commit` | WordWhirl/WordWhirl/WordWhirl/ContentView.swift:131-141 | the acceptance step: answer prepended, score raised by its length, high score the maximum of the old one and the new score, text field cleared, alert fields and root word untouched; the invariant is kept |
| `Game.ContentView.StartGame` | WordWhirl/WordWhirl/WordWhirl/ContentView.swift:147-151 | from any state: root word is one of the file's lines, list empty, score 0, high score, text field and alert untouched; the invariant holds afterwards |
| `Scenario.SilkwormsNotPossible` | WordWhirl/WordWhirl/WordWhirl/ContentView.swift:160-172 | "silkworms" cannot be spelled from "silkworm": it is one letter longer |
| `Scenario.SilkwormLines` | WordWhirl/WordWhirl/WordWhirl/ContentView.swift:147 | a file holding just "silkworm" has that single line |
| `Scenario.SubmitTwice` | WordWhirl/WordWhirl/WordWhirl/ContentView.swift:111-142 | typing an accepted text again is rejected as "Word used already" and adds nothing to list or score |

## Left out

- The SwiftUI `body`, the list rendering, the hint toggle (`showHint`), the alert's dismissal and `FlowingGradient` (lines 23-109, 186-216). They are presentation only, and the animation works on floating-point offsets.
- The `UITextChecker` call inside `isReal` (lines 173-178). It is an external service, so it is the constant field `checker`. Only the language code `"on"` it is called with is kept. The model assumes the lookup is deterministic and has no side effects; a dictionary that changes while the app runs (for example, words the user teaches it) is not modelled.
- Loading `start.txt` from the bundle and the `fatalError` when that fails (lines 145-146, 154). `StartGame` receives the file's text.
- The randomness of `randomElement()` (line 148). `RandomElement` may return any element.
- `UserDefaults` (lines 19 and 138). The stored high score is a constructor parameter, and saving a new high score is not modelled. The source reads the key `"Highscore"` but writes `"HighScore"`, so a new high score is not read back on the next launch.
- Text.Lowercase: lowercases only the ASCII letters A-Z, whereas Swift's `lowercased()` uses the full Unicode case mapping. For the same reason `Text.ToLower` leaves every non-ASCII character unchanged, and `Text.Normalize` is free only of ASCII upper-case letters.
- Swift `Character` (a grapheme cluster) is a Dafny `char`, and `count` is the sequence length. String and character equality is exact code-point equality, not Unicode canonical equivalence, in `usedWords.contains` (line 157) and `firstIndex(of:)` (line 164). This also means a `"\r\n"` pair in the start-word file is treated as two characters.
- Game.ContentView.AddNewWord: does not model Swift's trap on `Int` overflow of `score`, because score and high score are unbounded naturals. A negative stored high score is outside the model for the same reason.
