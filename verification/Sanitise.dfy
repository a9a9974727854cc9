/** internal/sanitise/string.go and what the search controllers do with it. */
module Sanitise {
  import opened Users
  import opened Text

  predicate AlphaOrHyphen(c: char) {
    'a' <= c <= 'z' || 'A' <= c <= 'Z' || c == '-'
  }

  /** The letters of the alphabet, small and capital, and the hyphen. */
  predicate LetterOrHyphen(c: char) {
    c in "abcdefghijklmnopqrstuvwxyz" || c in "ABCDEFGHIJKLMNOPQRSTUVWXYZ" || c == '-'
  }

  lemma SmallLetter(c: char)
    ensures c in "abcdefghijklmnopqrstuvwxyz" <==> 'a' <= c <= 'z'
  {
    var letters := "abcdefghijklmnopqrstuvwxyz";
    assert forall i | 0 <= i < 26 :: letters[i] as int == 97 + i;
    if 'a' <= c <= 'z' {
      assert letters[c as int - 97] == c;
    }
  }

  lemma CapitalLetter(c: char)
    ensures c in "ABCDEFGHIJKLMNOPQRSTUVWXYZ" <==> 'A' <= c <= 'Z'
  {
    var letters := "ABCDEFGHIJKLMNOPQRSTUVWXYZ";
    assert forall i | 0 <= i < 26 :: letters[i] as int == 65 + i;
    if 'A' <= c <= 'Z' {
      assert letters[c as int - 65] == c;
    }
  }

  lemma AlphaOrHyphenExactly(c: char)
    ensures AlphaOrHyphen(c) <==> LetterOrHyphen(c)
  {
    SmallLetter(c);
    CapitalLetter(c);
  }

  /** The longest match of [^a-zA-Z-]+ at the start of s; 0 if there is none. */
  function MatchLength(s: string): (n: nat)
    ensures n <= |s|
    ensures forall i | 0 <= i < n :: !AlphaOrHyphen(s[i])
    ensures n < |s| ==> AlphaOrHyphen(s[n])
  {
    if s == "" || AlphaOrHyphen(s[0]) then 0 else 1 + MatchLength(s[1..])
  }

  /** ReplaceAllString with the empty string: leftmost, longest matches go. */
  function AlphaWithHyphen(s: string): string
    decreases |s|
  {
    if s == "" then ""
    else if MatchLength(s) > 0 then AlphaWithHyphen(s[MatchLength(s)..])
    else [s[0]] + AlphaWithHyphen(s[1..])
  }

  /** The characters that may stay, one by one. */
  function Filter(s: string): string {
    if s == "" then "" else (if AlphaOrHyphen(s[0]) then [s[0]] else "") + Filter(s[1..])
  }

  lemma {:induction false} FilterDropsRun(s: string, n: nat)
    requires n <= |s| && forall i | 0 <= i < n :: !AlphaOrHyphen(s[i])
    ensures Filter(s) == Filter(s[n..])
  {
    if n > 0 {
      FilterDropsRun(s[1..], n - 1);
      assert s[1..][n - 1..] == s[n..];
    }
  }

  /** Deleting maximal runs is filtering character by character. */
  lemma {:induction false} SanitiseIsFilter(s: string)
    ensures AlphaWithHyphen(s) == Filter(s)
    decreases |s|
  {
    if s != "" {
      var n := MatchLength(s);
      if n > 0 {
        FilterDropsRun(s, n);
        SanitiseIsFilter(s[n..]);
      } else {
        SanitiseIsFilter(s[1..]);
      }
    }
  }

  lemma FilterStep(s: string)
    requires s != ""
    ensures Filter(s) == (if AlphaOrHyphen(s[0]) then [s[0]] else "") + Filter(s[1..])
  {
  }

  lemma Associative(a: string, b: string, c: string)
    ensures a + (b + c) == a + b + c
  {
  }

  lemma {:induction false} FilterConcat(a: string, b: string)
    ensures Filter(a + b) == Filter(a) + Filter(b)
  {
    if a == "" {
      assert a + b == b;
    } else {
      hide Filter, AlphaOrHyphen;
      FilterConcat(a[1..], b);
      FilterStep(a);
      FilterStep(a + b);
      assert (a + b)[0] == a[0] && (a + b)[1..] == a[1..] + b;
      Associative(if AlphaOrHyphen(a[0]) then [a[0]] else "", Filter(a[1..]), Filter(b));
    }
  }

  lemma {:induction false} FilterOfClean(s: string)
    requires forall i | 0 <= i < |s| :: AlphaOrHyphen(s[i])
    ensures Filter(s) == s
  {
    if s != "" {
      FilterOfClean(s[1..]);
    }
  }

  lemma {:induction false} FilterIsClean(s: string)
    ensures forall i | 0 <= i < |Filter(s)| :: AlphaOrHyphen(Filter(s)[i])
  {
    if s != "" {
      FilterIsClean(s[1..]);
    }
  }

  /** at says where in s each character of t comes from. */
  ghost predicate SubsequenceBy(t: string, s: string, at: seq<nat>) {
    && |at| == |t|
    && (forall i | 0 <= i < |at| :: at[i] < |s| && t[i] == s[at[i]])
    && (forall i, j | 0 <= i < j < |at| :: at[i] < at[j])
  }

  lemma {:induction false} FilterIsSubsequence(s: string) returns (at: seq<nat>)
    ensures SubsequenceBy(Filter(s), s, at)
    ensures forall k | 0 <= k < |s| && AlphaOrHyphen(s[k]) :: k in at
  {
    if s == "" {
      at := [];
    } else {
      var n := |s| - 1;
      assert s == s[..n] + [s[n]];
      FilterConcat(s[..n], [s[n]]);
      at := FilterIsSubsequence(s[..n]);
      if AlphaOrHyphen(s[n]) {
        at := at + [n];
      }
    }
  }

  /** Sanitising: only letters and hyphens stay, all of them and in order; doing it
      twice changes nothing; and it can be done piece by piece. */
  lemma SanitiseMeaning(a: string, b: string)
    ensures forall i | 0 <= i < |AlphaWithHyphen(a)| ::
              LetterOrHyphen(AlphaWithHyphen(a)[i])
    ensures exists at :: SubsequenceBy(AlphaWithHyphen(a), a, at)
                         && forall k | 0 <= k < |a| && LetterOrHyphen(a[k]) :: k in at
    ensures AlphaWithHyphen(AlphaWithHyphen(a)) == AlphaWithHyphen(a)
    ensures AlphaWithHyphen(a + b) == AlphaWithHyphen(a) + AlphaWithHyphen(b)
  {
    hide LetterOrHyphen;
    SanitiseIsFilter(a);
    SanitiseIsFilter(b);
    SanitiseIsFilter(a + b);
    SanitiseIsFilter(Filter(a));
    FilterIsClean(a);
    FilterOfClean(Filter(a));
    FilterConcat(a, b);
    forall i | 0 <= i < |Filter(a)|
      ensures LetterOrHyphen(Filter(a)[i])
    {
      AlphaOrHyphenExactly(Filter(a)[i]);
    }
    var at := FilterIsSubsequence(a);
    forall k | 0 <= k < |a| && LetterOrHyphen(a[k])
      ensures k in at
    {
      AlphaOrHyphenExactly(a[k]);
    }
    assert SubsequenceBy(AlphaWithHyphen(a), a, at);
  }

  /** Text that was clean to begin with is what comes out, and nothing else is. */
  lemma SanitiseKeepsExactly(s: string)
    ensures AlphaWithHyphen(s) == s <==> forall i | 0 <= i < |s| :: AlphaOrHyphen(s[i])
  {
  }

  const SEARCH_TERM_MIN_LEN := 3

  /** The query the searcher sends for what a client typed, if it gets that far. */
  function QueryFor(typed: string): Option<string> {
    var term := AlphaWithHyphen(typed);
    if |term| < SEARCH_TERM_MIN_LEN then None else Some("*" + term + "*")
  }

  lemma {:induction false} CountNone(s: string, c: char)
    requires c !in s
    ensures Count(s, c) == 0
  {
    if s != "" {
      CountNone(s[1..], c);
    }
  }

  /** A search is refused exactly when fewer than three letters and hyphens were
      typed; otherwise its query has a star at each end and no other. */
  lemma SearchQueryIsSafe(typed: string)
    ensures QueryFor(typed).None? <==> |Filter(typed)| < 3
    ensures QueryFor(typed).Some? ==>
              var q := QueryFor(typed).value;
              && |q| >= 5 && q[0] == '*' && q[|q| - 1] == '*' && Count(q, '*') == 2
              && (forall i | 0 < i < |q| - 1 :: LetterOrHyphen(q[i]))
              && q[1..|q| - 1] == Filter(typed)
  {
    hide LetterOrHyphen;
    SanitiseIsFilter(typed);
    FilterIsClean(typed);
    var term := Filter(typed);
    CountNone(term, '*');
    CountConcat("*", term, '*');
    CountConcat("*" + term, "*", '*');
    forall i | 0 <= i < |term|
      ensures LetterOrHyphen(term[i])
    {
      AlphaOrHyphenExactly(term[i]);
    }
  }

  /** A mixed-case term is searched as typed; digits and quotes do not count. */
  lemma SearchExamples()
    ensures QueryFor("Lee") == Some("*Lee*")
    ensures QueryFor("L'3").None?
  {
    hide QueryFor;
    FilterOfClean("Lee");
    SearchFor("Lee");
    assert "*" + "Lee" + "*" == "*Lee*";
    FilterStep("L'3");
    FilterStep("'3");
    FilterStep("3");
    assert "L'3"[1..] == "'3" && "'3"[1..] == "3" && |Filter("")| == 0;
    SearchFor("L'3");
  }

  lemma SearchFor(typed: string)
    ensures QueryFor(typed) == if |Filter(typed)| < 3 then None else Some("*" + Filter(typed) + "*")
  {
    SanitiseIsFilter(typed);
  }
}
