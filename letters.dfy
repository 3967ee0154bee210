/**
 * Letter arithmetic behind the "can this word be spelled from the root word" check:
 * a word is spellable from a pool of letters when it uses each letter occurrence of
 * the pool at most once, that is, when its multiset of letters is included in the
 * pool's.
 */
module Letters {
  import opened Wrappers

  /** `word` can be spelled using each letter occurrence of `pool` at most once. */
  predicate Spellable(word: string, pool: string) {
    multiset(word) <= multiset(pool)
  }

  /** Number of occurrences of `c` in `s`, counted one position at a time. */
  function Occurrences(s: string, c: char): nat {
    if s == [] then 0
    else (if s[0] == c then 1 else 0) + Occurrences(s[1..], c)
  }

  lemma {:induction false} OccurrencesIsMultiplicity(s: string, c: char)
    ensures Occurrences(s, c) == multiset(s)[c]
  {
    if s != [] {
      assert s == [s[0]] + s[1..];
      OccurrencesIsMultiplicity(s[1..], c);
    }
  }

  /** Spellability, letter by letter: no letter occurs in `word` more often than in `pool`. */
  lemma {:induction false} SpellableIffOccurrences(word: string, pool: string)
    ensures Spellable(word, pool) <==> forall c :: Occurrences(word, c) <= Occurrences(pool, c)
  {
    forall c ensures Occurrences(word, c) == multiset(word)[c] && Occurrences(pool, c) == multiset(pool)[c] {
      OccurrencesIsMultiplicity(word, c);
      OccurrencesIsMultiplicity(pool, c);
    }
    if !Spellable(word, pool) {
      var c :| multiset(word)[c] > multiset(pool)[c];
      assert Occurrences(word, c) > Occurrences(pool, c);
    }
  }

  /** Spellability does not depend on the order of the letters of the word. */
  lemma SpellableOrderIndependent(word: string, other: string, pool: string)
    requires multiset(word) == multiset(other)
    ensures Spellable(word, pool) <==> Spellable(other, pool)
  {
  }

  /** A word longer than the pool can never be spelled from it. */
  lemma SpellableNoLonger(word: string, pool: string)
    requires Spellable(word, pool)
    ensures |word| <= |pool|
  {
    var extra := multiset(pool) - multiset(word);
    assert multiset(pool) == multiset(word) + extra;
    assert |multiset(pool)| == |multiset(word)| + |extra|;
  }

  /** Any piece cut out of the pool can be spelled from it. */
  lemma SpellableInfix(before: string, word: string, after: string)
    ensures Spellable(word, before + word + after)
  {
  }

  /** A word that is spellable from `pool` has every prefix spellable from it too. */
  lemma SpellablePrefix(word: string, i: nat, pool: string)
    requires i <= |word| && Spellable(word, pool)
    ensures Spellable(word[..i], pool)
  {
    assert word == word[..i] + word[i..];
  }

  /** A word with a prefix that the pool cannot spell cannot be spelled from the pool. */
  lemma SpellablePrefixContrapositive(word: string, i: nat, pool: string)
    requires i <= |word| && !Spellable(word[..i], pool)
    ensures !Spellable(word, pool)
  {
    if Spellable(word, pool) {
      SpellablePrefix(word, i, pool);
    }
  }

  /**
   * One step of striking letters out of a copy of the pool: when `rest` is the pool minus
   * the letters `done` already used and `c` is still in `rest` at `p`, striking it out
   * leaves the pool minus `done + [c]`.
   */
  lemma StrikeOut(pool: string, rest: string, done: string, c: char, p: nat)
    requires Spellable(done, pool) && multiset(rest) == multiset(pool) - multiset(done)
    requires p < |rest| && rest[p] == c
    ensures Spellable(done + [c], pool)
    ensures multiset(RemoveAt(rest, p)) == multiset(pool) - multiset(done + [c])
  {
  }

  /** When `c` is no longer left over, `done + [c]` needs one `c` more than the pool has. */
  lemma StrikeOutFails(pool: string, rest: string, done: string, c: char)
    requires Spellable(done, pool) && multiset(rest) == multiset(pool) - multiset(done)
    requires c !in rest
    ensures !Spellable(done + [c], pool)
  {
    assert multiset(done + [c])[c] == multiset(done)[c] + 1;
    assert multiset(rest)[c] == 0;
  }

  /** Swift's `firstIndex(of:)`: the position of the first occurrence of `c`, if any. */
  function FirstIndex(s: string, c: char): (r: Option<nat>)
    ensures r.None? <==> c !in s
    ensures r.Some? ==> r.value < |s| && s[r.value] == c && c !in s[..r.value]
  {
    if s == [] then None
    else if s[0] == c then Some(0)
    else
      match FirstIndex(s[1..], c)
      case None => None
      case Some(i) =>
        assert s[..i + 1] == [s[0]] + s[1..][..i];
        Some(i + 1)
  }

  /** Swift's `remove(at:)` on a string: drops the character at position `i`. */
  function RemoveAt(s: string, i: nat): (r: string)
    requires i < |s|
    ensures |r| == |s| - 1
    ensures r[..i] == s[..i] && r[i..] == s[i + 1..]
    ensures multiset(r) == multiset(s) - multiset{s[i]}
  {
    assert s == s[..i] + [s[i]] + s[i + 1..];
    s[..i] + s[i + 1..]
  }
}
