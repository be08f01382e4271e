/** Reading a command line: the line is stripped of surrounding whitespace,
    as Python's `str.strip()` does, and then compared with the four menu
    choices. */
module Commands {

  /** The characters Python's `str.isspace()` accepts, which `str.strip()`
      with no argument removes. */
  predicate IsSpace(c: char)
    ensures c == ' ' || c == '\t' || c == '\n' || c == '\r' ==> IsSpace(c)
    ensures '0' <= c <= '9' ==> !IsSpace(c)
  {
    ('\t' <= c <= '\r') || ('\U{1C}' <= c <= '\U{1F}') || c == ' ' ||
    c == '\U{85}' || c == '\U{A0}' || c == '\U{1680}' ||
    ('\U{2000}' <= c <= '\U{200A}') || c == '\U{2028}' || c == '\U{2029}' ||
    c == '\U{202F}' || c == '\U{205F}' || c == '\U{3000}'
  }

  predicate AllSpace(s: string)
  {
    forall i :: 0 <= i < |s| ==> IsSpace(s[i])
  }

  /** Neither starts nor ends with whitespace. */
  predicate Trimmed(s: string)
  {
    s == [] || (!IsSpace(s[0]) && !IsSpace(s[|s| - 1]))
  }

  /** `s` without its leading whitespace: a suffix of `s` whose removed
      prefix is all whitespace and which does not itself start with any. */
  function TrimStart(s: string): (r: string)
    ensures |r| <= |s| && r == s[|s| - |r|..]
    ensures forall i :: 0 <= i < |s| - |r| ==> IsSpace(s[i])
    ensures r == [] || !IsSpace(r[0])
  {
    if s != [] && IsSpace(s[0]) then TrimStart(s[1..]) else s
  }

  /** `s` without its trailing whitespace: a prefix of `s` whose removed
      suffix is all whitespace and which does not itself end with any. */
  function TrimEnd(s: string): (r: string)
    ensures |r| <= |s| && r == s[..|r|]
    ensures forall i :: |r| <= i < |s| ==> IsSpace(s[i])
    ensures r == [] || !IsSpace(r[|r| - 1])
  {
    if s != [] && IsSpace(s[|s| - 1]) then TrimEnd(s[..|s| - 1]) else s
  }

  /** `s` without whitespace at either end. The ensures clauses only say
      what the result looks like; that it is exactly `s` with its padding
      removed is `StripPadded` below, together with the contracts of
      `TrimStart` and `TrimEnd`. */
  function Strip(s: string): (r: string)
    ensures Trimmed(r)
    ensures |r| <= |s|
  {
    TrimEnd(TrimStart(s))
  }

  lemma {:induction false} TrimStartPadded(pre: string, rest: string)
    requires AllSpace(pre)
    requires rest == [] || !IsSpace(rest[0])
    ensures TrimStart(pre + rest) == rest
    decreases |pre|
  {
    if pre != [] {
      assert (pre + rest)[1..] == pre[1..] + rest;
      TrimStartPadded(pre[1..], rest);
    } else {
      assert pre + rest == rest;
    }
  }

  lemma {:induction false} TrimEndPadded(rest: string, post: string)
    requires AllSpace(post)
    requires rest == [] || !IsSpace(rest[|rest| - 1])
    ensures TrimEnd(rest + post) == rest
    decreases |post|
  {
    if post != [] {
      var n := |post| - 1;
      assert (rest + post)[..|rest + post| - 1] == rest + post[..n];
      TrimEndPadded(rest, post[..n]);
    } else {
      assert rest + post == rest;
    }
  }

  /** A word with no whitespace at its ends is left as it is. */
  lemma StripTrimmed(word: string)
    requires Trimmed(word)
    ensures Strip(word) == word
  {
  }

  /** Stripping removes exactly the whitespace padding around a word that
      has none of its own at its ends. */
  lemma StripPadded(pre: string, word: string, post: string)
    requires AllSpace(pre) && AllSpace(post) && Trimmed(word)
    ensures Strip(pre + word + post) == word
  {
    if word == [] {
      var s := pre + word + post;
      assert AllSpace(s) && s + [] == s;
      TrimStartPadded(s, []);
    } else {
      assert pre + word + post == pre + (word + post);
      TrimStartPadded(pre, word + post);
      TrimEndPadded(word, post);
    }
  }

  /** Stripping a second time changes nothing. */
  lemma StripIdempotent(s: string)
    ensures Strip(Strip(s)) == Strip(s)
  {
    var r := Strip(s);
    assert [] + r + [] == r;
    StripPadded([], r, []);
  }

  /** What a stripped line asks for. */
  datatype Command = FeedCommand | PlayCommand | SmackCommand | QuitCommand | Unknown

  /** The command a line asks for, read from its stripped text. */
  function Parse(line: string): (c: Command)
    ensures c == FeedCommand <==> Strip(line) == "1"
    ensures c == PlayCommand <==> Strip(line) == "2"
    ensures c == SmackCommand <==> Strip(line) == "3"
    ensures c == QuitCommand <==> Strip(line) == "4"
  {
    Choose(Strip(line))
  }

  /** The menu: the exact texts "1" to "4"; anything else is unknown. */
  function Choose(choice: string): (c: Command)
    ensures c == FeedCommand <==> choice == "1"
    ensures c == PlayCommand <==> choice == "2"
    ensures c == SmackCommand <==> choice == "3"
    ensures c == QuitCommand <==> choice == "4"
    ensures c == Unknown <==> choice !in {"1", "2", "3", "4"}
  {
    if choice == "1" then FeedCommand
    else if choice == "2" then PlayCommand
    else if choice == "3" then SmackCommand
    else if choice == "4" then QuitCommand
    else Unknown
  }

  /** Whitespace around a choice does not change what it asks for. */
  lemma ParseIgnoresPadding(pre: string, word: string, post: string)
    requires AllSpace(pre) && AllSpace(post) && Trimmed(word)
    ensures Parse(pre + word + post) == Parse(word)
  {
    StripPadded(pre, word, post);
    StripTrimmed(word);
  }

  /** Two choices on one line are not a command. */
  lemma ParseRejectsTwoChoices()
    ensures Parse("1 2") == Unknown
  {
    assert Trimmed("1 2");
    StripTrimmed("1 2");
  }
}
