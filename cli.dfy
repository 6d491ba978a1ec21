/** The two string rules of getcellularstatus.py's entry point: the case-insensitive
    `--tprod` switch (lines 127-135) and the tenant name cleaned for the output file
    name (lines 175-177). */
module Cli {
  import opened Wrappers

  function LowerAscii(c: char): char
  {
    if 'A' <= c <= 'Z' then (c as int + 32) as char else c
  }

  function UpperAscii(c: char): char
  {
    if 'a' <= c <= 'z' then (c as int - 32) as char else c
  }

  /** `s.lower()`, for the characters whose lower-case form matters here. */
  function Lower(s: string): (r: string)
    ensures |r| == |s|
  {
    seq(|s|, i requires 0 <= i < |s| => LowerAscii(s[i]))
  }

  /** `s` spells the lower-case `word` in any mix of cases. */
  ghost predicate SpelledIgnoringCase(s: string, word: string)
  {
    |s| == |word| && forall i :: 0 <= i < |s| ==> s[i] == word[i] || s[i] == UpperAscii(word[i])
  }

  lemma {:induction false} LowerMatchesWord(s: string, word: string)
    requires forall i :: 0 <= i < |word| ==> 'a' <= word[i] <= 'z'
    ensures Lower(s) == word <==> SpelledIgnoringCase(s, word)
  {
    if Lower(s) == word {
      forall i | 0 <= i < |s|
        ensures s[i] == word[i] || s[i] == UpperAscii(word[i])
      {
        assert LowerAscii(s[i]) == word[i];
      }
    }
    if SpelledIgnoringCase(s, word) {
      assert forall i :: 0 <= i < |s| ==> Lower(s)[i] == word[i];
    }
  }

  /** The `--tprod` switch: "true" or "false" in any mix of cases; anything else is
      rejected and the run stops before logging in. */
  function ParseSwitch(s: string): (r: Option<bool>)
    ensures r == Some(true) <==> SpelledIgnoringCase(s, "true")
    ensures r == Some(false) <==> SpelledIgnoringCase(s, "false")
    ensures r.None? <==> !SpelledIgnoringCase(s, "true") && !SpelledIgnoringCase(s, "false")
  {
    LowerMatchesWord(s, "true");
    LowerMatchesWord(s, "false");
    var lowered := Lower(s);
    if lowered == "true" then Some(true)
    else if lowered == "false" then Some(false)
    else None
  }

  /** `s.replace(c, "")`: every occurrence of `c` removed, everything else kept in order. */
  function RemoveChar(s: string, c: char): (r: string)
    ensures c !in r
    ensures c !in s ==> r == s
  {
    if s == [] then []
    else
      assert s == [s[0]] + s[1..];
      (if s[0] == c then [] else [s[0]]) + RemoveChar(s[1..], c)
  }

  /** Every character other than `c` is kept as often as it occurs. */
  lemma {:induction false} RemoveCharCounts(s: string, c: char)
    ensures multiset(RemoveChar(s, c)) == multiset(s)[c := 0]
  {
    if s != [] {
      assert s == [s[0]] + s[1..];
      RemoveCharCounts(s[1..], c);
    }
  }

  /** Removing a character from a concatenation removes it from each part: together
      with the one-character cases this fixes the order of what is kept. */
  lemma {:induction false} RemoveCharAppend(s: string, t: string, c: char)
    ensures RemoveChar(s + t, c) == RemoveChar(s, c) + RemoveChar(t, c)
  {
    if s == [] {
      assert s + t == t;
    } else {
      var st := s + t;
      assert st[0] == s[0] && st[1..] == s[1..] + t;
      var head := if s[0] == c then [] else [s[0]];
      var rest, kept := RemoveChar(s[1..], c), RemoveChar(t, c);
      calc {
        RemoveChar(st, c);
        { RemoveCharHead(st, c); }
        head + RemoveChar(s[1..] + t, c);
        { RemoveCharAppend(s[1..], t, c); }
        head + (rest + kept);
        (head + rest) + kept;
        { RemoveCharHead(s, c); }
        RemoveChar(s, c) + kept;
      }
    }
  }

  /** One unfolding of `RemoveChar` for a non-empty string: a proof step for `RemoveCharAppend`. */
  lemma RemoveCharHead(s: string, c: char)
    requires s != []
    ensures RemoveChar(s, c) == (if s[0] == c then [] else [s[0]]) + RemoveChar(s[1..], c)
  {
  }

  /** A single character is dropped when it is `c` and kept otherwise. */
  lemma RemoveCharSingle(x: char, c: char)
    ensures RemoveChar([x], c) == if x == c then [] else [x]
  {
  }

  /** The tenant name as it appears in the output file name: spaces, then slashes,
      removed. */
  function SanitiseTenantName(name: string): (r: string)
    ensures ' ' !in r && '/' !in r
    ensures multiset(r) == multiset(name)[' ' := 0]['/' := 0]
    ensures ' ' !in name && '/' !in name ==> r == name
  {
    var spaceless := RemoveChar(name, ' ');
    var r := RemoveChar(spaceless, '/');
    RemoveCharCounts(name, ' ');
    RemoveCharCounts(spaceless, '/');
    assert multiset(r)[' '] == multiset(spaceless)[' '] == 0;
    r
  }

  /** Cleaning works character by character: a concatenation is cleaned part by part, so
      the kept characters stay in their order. */
  lemma SanitiseAppend(s: string, t: string)
    ensures SanitiseTenantName(s + t) == SanitiseTenantName(s) + SanitiseTenantName(t)
  {
    RemoveCharAppend(s, t, ' ');
    RemoveCharAppend(RemoveChar(s, ' '), RemoveChar(t, ' '), '/');
  }

  /** Cleaning an already clean name changes nothing. */
  lemma SanitiseIdempotent(name: string)
    ensures SanitiseTenantName(SanitiseTenantName(name)) == SanitiseTenantName(name)
  {
  }

  /** Concrete cases of the switch. */
  lemma SwitchExamples()
    ensures ParseSwitch("TrUe") == Some(true) && ParseSwitch("FALSE") == Some(false)
    ensures ParseSwitch("yes").None? && ParseSwitch("").None?
  {
  }
}
