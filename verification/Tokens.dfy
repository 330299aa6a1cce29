/**
Token counting and cutting (approxTokens and truncateToTokens in internal/contextcollector/collector.go
and internal/backend/backend.go).  A text is a sequence of runes; a token is a longest run without spaces.
*/
module Tokens {

  /** unicode.IsSpace. */
  predicate IsSpace(c: char) {
    || '\t' <= c <= '\r' || c == ' ' || c == '\U{85}' || c == '\U{A0}' || c == '\U{1680}'
    || '\U{2000}' <= c <= '\U{200A}' || c == '\U{2028}' || c == '\U{2029}' || c == '\U{202F}'
    || c == '\U{205F}' || c == '\U{3000}'
  }

  predicate Starts(s: string, i: nat)
    requires i < |s|
  {
    !IsSpace(s[i]) && (i == 0 || IsSpace(s[i - 1]))
  }

  /** How many tokens begin in s. */
  function Count(s: string): nat {
    if s == [] then 0
    else Count(s[..|s| - 1]) + if Starts(s, |s| - 1) then 1 else 0
  }

  lemma CountSnoc(s: string, n: nat)
    requires n < |s|
    ensures Count(s[..n + 1]) == Count(s[..n]) + if Starts(s, n) then 1 else 0
  {
    assert s[..n + 1][..n] == s[..n];
  }

  lemma {:induction false} CountOfPrefix(s: string, m: nat, n: nat)
    requires m <= n <= |s|
    ensures Count(s[..m]) <= Count(s[..n])
  {
    if m < n {
      CountOfPrefix(s, m, n - 1);
      CountSnoc(s, n - 1);
    }
  }

  /** Two texts put together share a token exactly when no space separates them. */
  lemma {:induction false} CountConcat(a: string, b: string)
    ensures Count(a + b) ==
            Count(a) + Count(b) - if a != [] && b != [] && !IsSpace(a[|a| - 1]) && !IsSpace(b[0]) then 1 else 0
  {
    if b == [] {
      assert a + b == a;
    } else {
      CountConcat(a, b[..|b| - 1]);
      assert (a + b)[..|a + b| - 1] == a + b[..|b| - 1];
      if a == [] { assert a + b == b; }
    }
  }

  lemma {:induction false} OnlySpaces(s: string)
    ensures Count(s) == 0 <==> forall i | 0 <= i < |s| :: IsSpace(s[i])
  {
    if s != [] {
      var n := |s| - 1;
      OnlySpaces(s[..n]);
      if Count(s) == 0 {
        forall i | 0 <= i < |s| ensures IsSpace(s[i]) {
          if i < n { assert IsSpace(s[..n][i]); } else if n > 0 { assert IsSpace(s[..n][n - 1]); }
        }
      } else if Starts(s, n) {
        assert !IsSpace(s[n]);
      } else {
        var i :| 0 <= i < n && !IsSpace(s[..n][i]);
        assert !IsSpace(s[i]);
      }
    }
  }

  // ----- strings.TrimSpace -----

  function TrimRight(s: string): string {
    if s == [] || !IsSpace(s[|s| - 1]) then s else TrimRight(s[..|s| - 1])
  }

  function TrimLeft(s: string): string {
    if s == [] || !IsSpace(s[0]) then s else TrimLeft(s[1..])
  }

  function Trim(s: string): string {
    TrimLeft(TrimRight(s))
  }

  lemma {:induction false} TrimRightMeans(s: string)
    ensures var r := TrimRight(s);
            r <= s && Count(r) == Count(s) && (r == [] || !IsSpace(r[|r| - 1]))
            && forall i | |r| <= i < |s| :: IsSpace(s[i])
  {
    if s != [] && IsSpace(s[|s| - 1]) { TrimRightMeans(s[..|s| - 1]); }
  }

  lemma {:induction false} TrimLeftMeans(s: string)
    ensures var r := TrimLeft(s);
            |r| <= |s| && r == s[|s| - |r|..] && (r == [] || !IsSpace(r[0]))
            && forall i | 0 <= i < |s| - |r| :: IsSpace(s[i])
  {
    if s != [] && IsSpace(s[0]) {
      TrimLeftMeans(s[1..]);
      var n := |s[1..]| - |TrimLeft(s)|;
      assert s[1..][n..] == s[n + 1..];
      assert forall i | 1 <= i < n + 1 :: s[i] == s[1..][i - 1];
    }
  }

  lemma SpacesInFront(spaces: string, s: string)
    requires forall i | 0 <= i < |spaces| :: IsSpace(spaces[i])
    ensures Count(spaces + s) == Count(s)
  {
    OnlySpaces(spaces);
    CountConcat(spaces, s);
  }

  lemma TrimLeftKeepsTokens(s: string)
    ensures Count(TrimLeft(s)) == Count(s)
    ensures TrimLeft(s) == "" <==> Count(s) == 0
  {
    TrimLeftMeans(s);
    var left := TrimLeft(s);
    var spaces := s[..|s| - |left|];
    assert s == spaces + left;
    SpacesInFront(spaces, left);
    OnlySpaces(left);
  }

  lemma TrimKeepsTokens(s: string)
    ensures Count(Trim(s)) == Count(s)
    ensures Trim(s) == "" <==> Count(s) == 0
  {
    TrimRightMeans(s);
    TrimLeftKeepsTokens(TrimRight(s));
  }

  /** What is left of a text when the spaces around it are taken away. */
  ghost predicate IsTrimmed(shown: string, whole: string) {
    && shown != "" && !IsSpace(shown[0]) && !IsSpace(shown[|shown| - 1])
    && exists i, j | 0 <= i <= j <= |whole| ::
         && shown == whole[i..j]
         && (forall k | 0 <= k < i :: IsSpace(whole[k])) && (forall k | j <= k < |whole| :: IsSpace(whole[k]))
  }

  lemma TrimMeans(s: string)
    requires Count(s) > 0
    ensures IsTrimmed(Trim(s), s)
  {
    TrimRightMeans(s);
    TrimLeftMeans(TrimRight(s));
    TrimKeepsTokens(s);
    var right, t := TrimRight(s), Trim(s);
    assert t == s[|right| - |t|..|right|];
    assert t[|t| - 1] == right[|right| - 1];
  }

  lemma TrimOfTrimmed(shown: string, whole: string)
    requires IsTrimmed(shown, whole)
    ensures Trim(shown) == shown
  {
  }

  /** The spaces of Unicode, one by one. */
  lemma SpacesAre()
    ensures forall c :: IsSpace(c) <==>
      c in "\t\n\U{B}\U{C}\r \U{85}\U{A0}\U{1680}\U{2000}\U{2001}\U{2002}\U{2003}\U{2004}\U{2005}\U{2006}"
           + "\U{2007}\U{2008}\U{2009}\U{200A}\U{2028}\U{2029}\U{202F}\U{205F}\U{3000}"
  {
  }

  // ----- Cutting -----

  function Limit(allowed: int): nat {
    if allowed < 1 then 1 else allowed
  }

  /** r is s when s fits, and otherwise the first `allowed` tokens of s, whole and with the spaces between them. */
  ghost predicate IsCut(s: string, allowed: int, r: string) {
    if Count(s) <= Limit(allowed) then r == s
    else
      && r < s && r != [] && !IsSpace(r[|r| - 1]) && IsSpace(s[|r|])
      && Count(r) == Limit(allowed)
  }

  lemma CutIsUnique(s: string, allowed: int, r: string, q: string)
    requires IsCut(s, allowed, r) && IsCut(s, allowed, q)
    ensures r == q
  {
    if |r| < |q| { CutsInOrder(s, r, q); } else if |q| < |r| { CutsInOrder(s, q, r); }
  }

  lemma CutsInOrder(s: string, r: string, q: string)
    requires r < q <= s && q != [] && !IsSpace(q[|q| - 1]) && IsSpace(s[|r|])
    ensures Count(r) < Count(q)
  {
    var rest := q[|r|..];
    assert q == r + rest && rest[0] == s[|r|] && rest[|rest| - 1] == q[|q| - 1];
    CountConcat(r, rest);
    OnlySpaces(rest);
  }

  /** Cutting just before the first token that does not fit. */
  lemma CutBefore(s: string, allowed: int, i: nat)
    requires i < |s| && Starts(s, i) && Count(s[..i]) == Limit(allowed) < Count(s)
    ensures IsCut(s, allowed, TrimRight(s[..i])) && TrimRight(s[..i]) != s
  {
    var before := s[..i];
    var kept := TrimRight(before);
    TrimRightMeans(before);
    assert i > 0 && before[i - 1] == s[i - 1];
    assert kept != [] by { assert Count("") == 0; }
    assert s[|kept|] == before[|kept|];
  }

  method ApproxTokens(input: string) returns (count: nat)
    ensures count == Count(input)
  {
    count := 0;
    var inToken := false;
    for i := 0 to |input|
      invariant count == Count(input[..i])
      invariant inToken <==> i > 0 && !IsSpace(input[i - 1])
    {
      CountSnoc(input, i);
      if IsSpace(input[i]) {
        inToken := false;
      } else if !inToken {
        count := count + 1;
        inToken := true;
      }
    }
    assert input[..|input|] == input;
  }

  method TruncateToTokens(input: string, allowedTokens: int) returns (kept: string, changed: bool)
    ensures IsCut(input, allowedTokens, kept)
    ensures changed <==> kept != input
    ensures changed <==> Count(input) > Limit(allowedTokens)
  {
    var allowed := if allowedTokens < 1 then 1 else allowedTokens;
    var total := ApproxTokens(input);
    if total <= allowed {
      return input, false;
    }
    assert input[..|input|] == input;
    var count: nat, inToken, keepEnd: nat := 0, false, 0;
    for i := 0 to |input|
      invariant count == Count(input[..i]) <= allowed
      invariant inToken <==> i > 0 && !IsSpace(input[i - 1])
      invariant keepEnd == i
    {
      CountSnoc(input, i);
      if IsSpace(input[i]) {
        if count <= allowed {
          keepEnd := i + 1;
        }
        inToken := false;
      } else {
        if !inToken {
          count := count + 1;
          inToken := true;
          if count > allowed {
            CutBefore(input, allowedTokens, i);
            return TrimRight(input[..keepEnd]), true;
          }
        }
        if count <= allowed {
          keepEnd := i + 1;
        }
      }
    }
    return input, false;
  }
}
