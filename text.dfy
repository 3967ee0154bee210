/**
 * The text handling the game relies on: normalising a typed answer
 * (`lowercased()` then `trimmingCharacters(in: .whitespacesAndNewlines)`) and
 * splitting the start-word file into lines (`components(separatedBy: "\n")`).
 */
module Text {

  /**
   * Foundation's `whitespacesAndNewlines`: the Unicode space separators (category Zs),
   * the line and paragraph separators, tab, U+000A to U+000D and U+0085.
   */
  predicate IsSpace(c: char): (r: bool)
    ensures c == ' ' || c == '\t' || c == '\n' || c == '\r' ==> r
    ensures r ==> !IsUpper(c) && !('a' <= c <= 'z')
  {
    || c == ' ' || c == '\t'
    || ('\n' <= c <= '\r')
    || c == '\U{0085}' || c == '\U{00A0}' || c == '\U{1680}'
    || ('\U{2000}' <= c <= '\U{200A}')
    || c == '\U{2028}' || c == '\U{2029}' || c == '\U{202F}' || c == '\U{205F}' || c == '\U{3000}'
  }

  predicate IsUpper(c: char) {
    'A' <= c <= 'Z'
  }

  function ToLower(c: char): (r: char)
    ensures !IsUpper(r)
    ensures IsUpper(c) ==> r as int - 'a' as int == c as int - 'A' as int
    ensures !IsUpper(c) ==> r == c
    ensures IsSpace(r) <==> IsSpace(c)
  {
    if IsUpper(c) then (c as int + 32) as char else c
  }

  /** `lowercased()`, restricted to the ASCII letters. */
  function Lowercase(s: string): (r: string)
    ensures |r| == |s|
    ensures forall k :: 0 <= k < |r| ==> r[k] == ToLower(s[k])
  {
    seq(|s|, k requires 0 <= k < |s| => ToLower(s[k]))
  }

  /** No leading or trailing whitespace. */
  predicate IsTrimmed(s: string) {
    s == [] || (!IsSpace(s[0]) && !IsSpace(s[|s| - 1]))
  }

  /** `trimmingCharacters(in: .whitespacesAndNewlines)`: peels whitespace off both ends. */
  function Trim(s: string): (r: string)
    ensures IsTrimmed(r)
    ensures |r| <= |s|
    ensures forall k :: 0 <= k < |r| ==> r[k] in s
    ensures r == [] <==> forall k :: 0 <= k < |s| ==> IsSpace(s[k])
    ensures IsTrimmed(s) ==> r == s
  {
    if s == [] then []
    else if IsSpace(s[0]) then Trim(s[1..])
    else if IsSpace(s[|s| - 1]) then Trim(s[..|s| - 1])
    else s
  }

  /** The answer as `addNewWord` compares it: lowercased, then trimmed. */
  function Normalize(s: string): (r: string)
    ensures IsTrimmed(r)
    ensures forall k :: 0 <= k < |r| ==> !IsUpper(r[k])
    ensures r == [] <==> forall k :: 0 <= k < |s| ==> IsSpace(s[k])
  {
    Trim(Lowercase(s))
  }

  /** Normalising twice is normalising once, so retyping an accepted answer gives the same word. */
  lemma NormalizeIdempotent(s: string)
    ensures Normalize(Normalize(s)) == Normalize(s)
  {
    var n := Normalize(s);
    assert Lowercase(n) == n;
  }

  predicate AllSpace(s: string) {
    forall k :: 0 <= k < |s| ==> IsSpace(s[k])
  }

  /** Leading whitespace in front of a non-space character is trimmed away. */
  lemma {:induction false} TrimDropsLeading(pre: string, rest: string)
    requires AllSpace(pre) && rest != [] && !IsSpace(rest[0])
    ensures Trim(pre + rest) == Trim(rest)
  {
    if pre == [] {
      assert pre + rest == rest;
    } else {
      var s := pre + rest;
      assert s[0] == pre[0];
      assert s[1..] == pre[1..] + rest;
      TrimDropsLeading(pre[1..], rest);
    }
  }

  /** Trailing whitespace after a trimmed word is trimmed away. */
  lemma {:induction false} TrimDropsTrailing(word: string, post: string)
    requires AllSpace(post) && word != [] && IsTrimmed(word)
    ensures Trim(word + post) == word
  {
    if post == [] {
      assert word + post == word;
    } else {
      var s := word + post;
      var shorter := post[..|post| - 1];
      assert !IsSpace(s[0]) by {
        assert s[0] == word[0];
      }
      assert IsSpace(s[|s| - 1]) by {
        assert s[|s| - 1] == post[|post| - 1];
      }
      assert Trim(s) == Trim(s[..|s| - 1]);
      assert s[..|s| - 1] == word + shorter;
      assert AllSpace(shorter) by {
        forall k | 0 <= k < |shorter| ensures IsSpace(shorter[k]) {
          assert shorter[k] == post[k];
        }
      }
      TrimDropsTrailing(word, shorter);
    }
  }

  /** Trimming a word padded with whitespace on both sides gives back the word. */
  lemma TrimPadding(pre: string, word: string, post: string)
    requires AllSpace(pre) && AllSpace(post)
    requires word != [] && IsTrimmed(word)
    ensures Trim(pre + word + post) == word
  {
    assert pre + word + post == pre + (word + post);
    assert (word + post)[0] == word[0];
    TrimDropsLeading(pre, word + post);
    TrimDropsTrailing(word, post);
  }

  /** Lowercasing works character by character, so it distributes over concatenation. */
  lemma LowercaseAppend(a: string, b: string)
    ensures Lowercase(a + b) == Lowercase(a) + Lowercase(b)
  {
  }

  /**
   * Typed text that is a word with whitespace around it normalises to the lowercased
   * word: the padding is dropped and the letters are lowercased.
   */
  lemma NormalizePadded(pre: string, word: string, post: string)
    requires AllSpace(pre) && AllSpace(post)
    requires word != [] && IsTrimmed(word)
    ensures Normalize(pre + word + post) == Lowercase(word)
  {
    LowercaseAppend(pre + word, post);
    LowercaseAppend(pre, word);
    assert Lowercase(pre) == pre && Lowercase(post) == post;
    TrimPadding(pre, Lowercase(word), post);
  }

  /** Upper and lower case spellings of an answer normalise to the same word. */
  lemma NormalizeIgnoresCase(s: string)
    ensures Normalize(Lowercase(s)) == Normalize(s)
  {
    assert Lowercase(Lowercase(s)) == Lowercase(s);
  }

  /** `components(separatedBy: "\n")`: the pieces between newlines, empty ones included. */
  function Lines(s: string): (r: seq<string>)
    ensures |r| >= 1
    ensures forall k :: 0 <= k < |r| ==> '\n' !in r[k]
  {
    if s == [] then [""]
    else
      var rest := Lines(s[1..]);
      if s[0] == '\n' then [""] + rest
      else [[s[0]] + rest[0]] + rest[1..]
  }

  /** The lines glued back together with newlines. */
  function Join(lines: seq<string>): string
    requires |lines| >= 1
  {
    if |lines| == 1 then lines[0] else lines[0] + "\n" + Join(lines[1..])
  }

  /** Splitting then joining gives back the text. */
  lemma {:induction false} JoinLines(s: string)
    ensures Join(Lines(s)) == s
  {
    if s != [] {
      var rest := Lines(s[1..]);
      JoinLines(s[1..]);
      assert s == [s[0]] + s[1..];
      if s[0] == '\n' {
        assert Lines(s) == [""] + rest;
        assert Join([""] + rest) == "" + "\n" + Join(rest) by {
          assert ([""] + rest)[1..] == rest;
        }
      } else {
        var first := [s[0]] + rest[0];
        assert Lines(s) == [first] + rest[1..];
        if |rest| == 1 {
          assert Join([first] + rest[1..]) == first;
        } else {
          assert Join([first] + rest[1..]) == first + "\n" + Join(rest[1..]) by {
            assert ([first] + rest[1..])[1..] == rest[1..];
          }
          assert Join(rest) == rest[0] + "\n" + Join(rest[1..]);
        }
      }
    }
  }

  /** A first piece without newlines is glued onto the first line of what follows it. */
  lemma {:induction false} LinesOfPrefix(a: string, t: string)
    requires '\n' !in a
    ensures Lines(a + t) == [a + Lines(t)[0]] + Lines(t)[1..]
  {
    var lt := Lines(t);
    if a == [] {
      assert a + t == t;
      assert a + lt[0] == lt[0];
      assert lt == [lt[0]] + lt[1..];
    } else {
      var s := a + t;
      assert s[0] == a[0] && a[0] != '\n';
      assert s[1..] == a[1..] + t;
      assert '\n' !in a[1..];
      LinesOfPrefix(a[1..], t);
      var rest := Lines(a[1..] + t);
      assert Lines(s) == [[a[0]] + rest[0]] + rest[1..];
      assert rest[0] == a[1..] + lt[0] && rest[1..] == lt[1..];
      assert [a[0]] + (a[1..] + lt[0]) == a + lt[0];
    }
  }

  /** Joining newline-free lines then splitting gives back the lines. */
  lemma {:induction false} LinesJoin(lines: seq<string>)
    requires |lines| >= 1
    requires forall k :: 0 <= k < |lines| ==> '\n' !in lines[k]
    ensures Lines(Join(lines)) == lines
  {
    if |lines| == 1 {
      LinesOfPrefix(lines[0], "");
      assert lines[0] + "" == lines[0] && Lines("") == [""];
      assert lines == [lines[0] + Lines("")[0]] + Lines("")[1..];
    } else {
      var tail := "\n" + Join(lines[1..]);
      LinesJoin(lines[1..]);
      assert Lines(tail) == [""] + lines[1..] by {
        assert tail[1..] == Join(lines[1..]);
      }
      assert Join(lines) == lines[0] + tail;
      LinesOfPrefix(lines[0], tail);
      assert Lines(tail)[0] == "" && Lines(tail)[1..] == lines[1..];
      assert lines[0] + "" == lines[0];
      assert lines == [lines[0]] + lines[1..];
    }
  }

  /** Text ending in a newline has an empty last line. */
  lemma {:induction false} TrailingNewlineGivesEmptyLine(s: string)
    ensures Lines(s + "\n")[|Lines(s + "\n")| - 1] == ""
  {
    if s == [] {
      assert Lines("\n") == [""] + Lines("");
    } else {
      assert (s + "\n")[1..] == s[1..] + "\n";
      TrailingNewlineGivesEmptyLine(s[1..]);
    }
  }
}
