/**
 * The AutoMod cog: the bad-word list and the enabled flag that its
 * commands change, and the decision of `on_message` to delete a message.
 * A bad word is matched as literal text between word boundaries (`\b`),
 * ignoring the case of ASCII letters.
 */
module AutoMod {
  import opened Text

  /** A word character of `\w`, restricted to ASCII. */
  predicate IsWordChar(c: char)
  {
    ('a' <= c <= 'z') || ('A' <= c <= 'Z') || ('0' <= c <= '9') || c == '_'
  }

  /** `\b` at position `i` of `s`: a word character on exactly one side. */
  predicate Boundary(s: string, i: int)
    requires 0 <= i <= |s|
  {
    var before := i > 0 && IsWordChar(s[i - 1]);
    var after := i < |s| && IsWordChar(s[i]);
    before != after
  }

  /** `\b{word}\b` matches at `i`, ignoring case. */
  predicate MatchAt(content: string, word: string, i: int)
  {
    0 <= i && i + |word| <= |content|
    && Lower(content[i..i + |word|]) == Lower(word)
    && Boundary(content, i) && Boundary(content, i + |word|)
  }

  /** `re.search(rf"\b{word}\b", content, re.IGNORECASE)` finds a match. */
  predicate Mentions(content: string, word: string)
  {
    exists i | 0 <= i <= |content| - |word| :: MatchAt(content, word, i)
  }

  /** Some word of the list is mentioned. */
  predicate AnyMentioned(content: string, words: seq<string>)
  {
    exists k | 0 <= k < |words| :: Mentions(content, words[k])
  }

  /** Lower-casing neither makes nor unmakes a word character. */
  lemma WordCharLower(c: char)
    ensures IsWordChar(LowerChar(c)) <==> IsWordChar(c)
  {
  }

  /**
   * A word that starts and ends with a word character is not matched where
   * the text around it continues the word: `"ass"` is not found inside `"class"`.
   */
  lemma InsideWordNoMatch(content: string, word: string, i: int)
    requires word != [] && IsWordChar(word[0]) && IsWordChar(Last(word))
    requires 0 <= i && i + |word| <= |content|
    requires (i > 0 && IsWordChar(content[i - 1])) || (i + |word| < |content| && IsWordChar(content[i + |word|]))
    ensures !MatchAt(content, word, i)
  {
    if Lower(content[i..i + |word|]) == Lower(word) {
      var n := |word|;
      assert LowerChar(content[i]) == Lower(content[i..i + n])[0] == Lower(word)[0] == LowerChar(word[0]);
      WordCharLower(content[i]);
      WordCharLower(word[0]);
      assert LowerChar(content[i + n - 1]) == Lower(content[i..i + n])[n - 1] == Lower(word)[n - 1] == LowerChar(word[n - 1]);
      WordCharLower(content[i + n - 1]);
      WordCharLower(word[n - 1]);
    }
  }

  /** A standalone word is matched whatever its case. */
  lemma StandaloneWordMatches(before: string, word: string, after: string)
    requires word != [] && IsWordChar(word[0]) && IsWordChar(Last(word))
    requires before == [] || !IsWordChar(Last(before))
    requires after == [] || !IsWordChar(after[0])
    ensures Mentions(before + word + after, word)
  {
    var content := before + word + after;
    var i := |before|;
    assert content[i..i + |word|] == word;
    assert content[i] == word[0];
    assert content[i + |word| - 1] == Last(word);
    if i > 0 {
      assert content[i - 1] == Last(before);
    }
    if after != [] {
      assert content[i + |word|] == after[0];
    }
    assert MatchAt(content, word, i);
  }

  /** `list.remove(x)`: the first occurrence of `x` is taken out. */
  function RemoveFirst(xs: seq<string>, x: string): (r: seq<string>)
    ensures x !in xs ==> r == xs
    ensures x in xs ==> |r| == |xs| - 1 && multiset(r) == multiset(xs) - multiset{x}
    decreases |xs|
  {
    if xs == [] then []
    else
      assert xs == [xs[0]] + xs[1..];
      if xs[0] == x then xs[1..]
      else [xs[0]] + RemoveFirst(xs[1..], x)
  }

  /** What comes before the first occurrence stays, and so does everything after it. */
  lemma {:induction false} RemoveFirstAt(xs: seq<string>, x: string, i: nat)
    requires i < |xs| && xs[i] == x && x !in xs[..i]
    ensures RemoveFirst(xs, x) == xs[..i] + xs[i + 1..]
    decreases i
  {
    if i == 0 {
      RemoveFirstHead(xs, x);
    } else {
      var t := xs[1..];
      assert xs[0] in xs[..i];
      assert t[..i - 1] == xs[1..i];
      RemoveFirstAt(t, x, i - 1);
      RemoveFirstCons(xs, x);
      ConsAround(xs, i);
    }
  }

  lemma RemoveFirstHead(xs: seq<string>, x: string)
    requires xs != [] && xs[0] == x
    ensures RemoveFirst(xs, x) == xs[..0] + xs[1..]
  {
    assert xs[..0] + xs[1..] == xs[1..];
  }

  lemma RemoveFirstCons(xs: seq<string>, x: string)
    requires xs != [] && xs[0] != x
    ensures RemoveFirst(xs, x) == [xs[0]] + RemoveFirst(xs[1..], x)
  {
  }

  lemma ConsAround(xs: seq<string>, i: nat)
    requires 0 < i < |xs|
    ensures [xs[0]] + (xs[1..][..i - 1] + xs[1..][i..]) == xs[..i] + xs[i + 1..]
  {
    assert xs[1..][i..] == xs[i + 1..];
    assert xs[..i] == [xs[0]] + xs[1..][..i - 1];
  }

  /** How a moderation command is invoked: the prefix command or its slash twin. */
  datatype Invocation = PrefixCommand | SlashCommand

  /**
   * Whether the command body runs. The prefix commands carry the
   * `administrator` check; the slash twins are `app_commands` commands, which
   * do not run the `commands.has_permissions` check stacked under them, so
   * anyone may invoke them.
   */
  predicate Admitted(via: Invocation, isAdministrator: bool)
  {
    via.SlashCommand? || isAdministrator
  }

  class AutoModCog {
    var badWords: seq<string>
    var autoModEnabled: bool

    /** The filter starts disabled, with no words. */
    constructor ()
      ensures badWords == [] && !autoModEnabled
    {
      badWords := [];
      autoModEnabled := false;
    }

    /**
     * `automod_setup`: enables the filter, whatever it was, when the caller
     * is admitted; a refused call changes nothing.
     */
    method Setup(via: Invocation, isAdministrator: bool) returns (admitted: bool)
      modifies this
      ensures admitted <==> Admitted(via, isAdministrator)
      ensures admitted ==> autoModEnabled
      ensures !admitted ==> autoModEnabled == old(autoModEnabled)
      ensures badWords == old(badWords)
    {
      admitted := Admitted(via, isAdministrator);
      if admitted {
        autoModEnabled := true;
      }
    }

    /** `add_bad_word`: appends the word, a duplicate included, when the caller is admitted. */
    method AddBadWord(via: Invocation, isAdministrator: bool, word: string) returns (admitted: bool)
      modifies this
      ensures admitted <==> Admitted(via, isAdministrator)
      ensures badWords == if admitted then old(badWords) + [word] else old(badWords)
      ensures autoModEnabled == old(autoModEnabled)
    {
      admitted := Admitted(via, isAdministrator);
      if admitted {
        badWords := badWords + [word];
      }
    }

    /**
     * `remove_bad_word`: when the caller is admitted, removes the first
     * occurrence if the word is listed; `removed` says which reply is sent.
     */
    method RemoveBadWord(via: Invocation, isAdministrator: bool, word: string) returns (admitted: bool, removed: bool)
      modifies this
      ensures admitted <==> Admitted(via, isAdministrator)
      ensures removed <==> admitted && word in old(badWords)
      ensures badWords == if admitted then RemoveFirst(old(badWords), word) else old(badWords)
      ensures autoModEnabled == old(autoModEnabled)
    {
      admitted := Admitted(via, isAdministrator);
      if !admitted {
        return false, false;
      }
      var i := 0;
      while i < |badWords| && badWords[i] != word
        invariant 0 <= i <= |badWords|
        invariant word !in badWords[..i]
      {
        assert badWords[..i + 1] == badWords[..i] + [badWords[i]];
        i := i + 1;
      }
      if i == |badWords| {
        assert badWords[..i] == badWords;
        return true, false;
      }
      RemoveFirstAt(badWords, word, i);
      badWords := badWords[..i] + badWords[i + 1..];
      removed := true;
    }

    /** The decision of `on_message`: delete exactly when the filter is on and a listed word is mentioned. */
    method ShouldDelete(authorIsBot: bool, content: string) returns (delete: bool)
      ensures delete <==> !authorIsBot && autoModEnabled && AnyMentioned(content, badWords)
    {
      if authorIsBot || !autoModEnabled {
        return false;
      }
      delete := false;
      var k := 0;
      while k < |badWords| && !delete
        invariant 0 <= k <= |badWords|
        invariant delete <==> exists j | 0 <= j < k :: Mentions(content, badWords[j])
      {
        delete := Mentions(content, badWords[k]);
        k := k + 1;
      }
    }
  }

  /** Removing a word just added, which was not listed before, gives back the earlier list. */
  lemma {:induction false} RemoveAfterAdd(xs: seq<string>, x: string)
    requires x !in xs
    ensures RemoveFirst(xs + [x], x) == xs
  {
    var ys := xs + [x];
    assert ys[..|xs|] == xs;
    RemoveFirstAt(ys, x, |xs|);
    assert ys[|xs| + 1..] == [];
  }
}
