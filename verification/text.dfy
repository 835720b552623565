/** String helpers shared by the render buffer: Python's `"".join` and
    `str.replace`, and a character count used to measure escaping. */
module Text {

  /** `"".join(parts)`: the fragments concatenated in order. */
  function Join(parts: seq<string>): (r: string)
    ensures parts == [] ==> r == ""
    ensures |parts| == 1 ==> r == parts[0]
  {
    if parts == [] then "" else parts[0] + Join(parts[1..])
  }

  /** Joining a concatenation is concatenating the joins. */
  lemma {:induction false} JoinAppend(a: seq<string>, b: seq<string>)
    ensures Join(a + b) == Join(a) + Join(b)
  {
    if a == [] {
      assert a + b == b;
    } else {
      assert (a + b)[1..] == a[1..] + b;
      JoinAppend(a[1..], b);
    }
  }

  /** The joined text is empty exactly when every fragment is empty. */
  lemma {:induction false} JoinEmpty(parts: seq<string>)
    ensures Join(parts) == "" <==> forall i :: 0 <= i < |parts| ==> parts[i] == ""
  {
    if parts != [] {
      JoinEmpty(parts[1..]);
      assert forall i :: 1 <= i < |parts| ==> parts[i] == parts[1..][i - 1];
    }
  }

  /** Python's `s.replace(pat, rep)` for a non-empty pattern: scanning from the
      left, every occurrence of `pat` that does not overlap an earlier
      replaced one becomes `rep`. */
  function Replace(s: string, pat: string, rep: string): string
    requires pat != ""
    decreases |s|
  {
    if |s| < |pat| then s
    else if s[..|pat|] == pat then rep + Replace(s[|pat|..], pat, rep)
    else [s[0]] + Replace(s[1..], pat, rep)
  }

  /** Number of occurrences of `c` in `s`. */
  function Count(s: string, c: char): (n: nat)
    ensures n <= |s|
    ensures n == 0 <==> c !in s
  {
    if s == [] then 0 else (if s[0] == c then 1 else 0) + Count(s[1..], c)
  }

  /** A replacement leaves text that does not contain the pattern's first
      character untouched, whatever follows it. */
  lemma {:induction false} ReplaceSkips(x: string, rest: string, pat: string, rep: string)
    requires pat != ""
    requires pat[0] !in x
    ensures Replace(x + rest, pat, rep) == x + Replace(rest, pat, rep)
    decreases |x|
  {
    if x == [] {
      assert x + rest == rest;
    } else {
      var s := x + rest;
      if |s| < |pat| {
        ReplaceShort(rest, pat, rep);
      } else {
        assert x[0] != pat[0];
        assert s[..|pat|] != pat by { assert s[..|pat|][0] == x[0]; }
        assert s[1..] == x[1..] + rest;
        assert Replace(s, pat, rep) == [x[0]] + Replace(x[1..] + rest, pat, rep);
        ReplaceSkips(x[1..], rest, pat, rep);
        assert x == [x[0]] + x[1..];
      }
    }
  }

  /** Text shorter than the pattern cannot contain it. */
  lemma ReplaceShort(s: string, pat: string, rep: string)
    requires pat != ""
    requires |s| < |pat|
    ensures Replace(s, pat, rep) == s
  {
  }

  /** `tok` is a token the scan of `Replace(_, pat, _)` passes over as a whole:
      it is the pattern itself, it does not contain the pattern's first
      character at all, or it holds that character only at its start and
      disagrees with the pattern before either ends. */
  predicate Separable(tok: string, pat: string)
    requires pat != ""
  {
    || tok == pat
    || pat[0] !in tok
    || (&& tok != ""
        && tok[0] == pat[0]
        && pat[0] !in tok[1..]
        && exists i :: 0 <= i < |tok| && i < |pat| && tok[i] != pat[i])
  }

  /** The scan of `Replace` crosses a separable token and rewrites it on its
      own: replacement distributes over such a token. */
  lemma ReplaceToken(tok: string, rest: string, pat: string, rep: string)
    requires pat != ""
    requires Separable(tok, pat)
    ensures Replace(tok + rest, pat, rep) == (if tok == pat then rep else tok) + Replace(rest, pat, rep)
  {
    if tok == pat {
      var s := tok + rest;
      assert s[..|pat|] == pat;
      assert s[|pat|..] == rest;
    } else if pat[0] !in tok {
      ReplaceSkips(tok, rest, pat, rep);
    } else {
      var i :| 0 <= i < |tok| && i < |pat| && tok[i] != pat[i];
      ReplaceMismatch(tok, rest, pat, rep, i);
    }
  }

  /** A token that starts like the pattern but departs from it at `i` is
      passed over: the scan moves one character and then finds no further
      start of the pattern inside the token. */
  lemma ReplaceMismatch(tok: string, rest: string, pat: string, rep: string, i: nat)
    requires pat != "" && tok != ""
    requires pat[0] !in tok[1..]
    requires i < |tok| && i < |pat| && tok[i] != pat[i]
    ensures Replace(tok + rest, pat, rep) == tok + Replace(rest, pat, rep)
  {
    var s := tok + rest;
    if |s| < |pat| {
      ReplaceShort(rest, pat, rep);
    } else {
      assert s[..|pat|] != pat by { assert s[..|pat|][i] == tok[i]; }
      assert s[1..] == tok[1..] + rest;
      assert Replace(s, pat, rep) == [tok[0]] + Replace(tok[1..] + rest, pat, rep);
      ReplaceSkips(tok[1..], rest, pat, rep);
      assert tok == [tok[0]] + tok[1..];
    }
  }
}
