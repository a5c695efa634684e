/** The Python string operations the core applies to message text, names
    and e-mail addresses: `str.replace`, `str.strip`, `str.lower`,
    `str.startswith`, `in` and the first-occurrence search behind
    `str.split(sep, 1)`. */
module Text {
  import opened JsonValue


  /** `pat` occurs in `s` starting at index `i`. */
  predicate OccursAt(s: string, pat: string, i: int)
  {
    0 <= i && i + |pat| <= |s| && s[i..i + |pat|] == pat
  }

  /** `pat in s` for strings. */
  predicate Contains(s: string, pat: string)
  {
    exists i | 0 <= i <= |s| :: OccursAt(s, pat, i)
  }

  /** `s.replace(pat, rep)`: scan left to right and replace every
      non-overlapping occurrence of `pat`. */
  function Replace(s: string, pat: string, rep: string): string
    requires pat != []
    decreases |s|
  {
    if |s| < |pat| then s
    else if s[..|pat|] == pat then rep + Replace(s[|pat|..], pat, rep)
    else [s[0]] + Replace(s[1..], pat, rep)
  }

  /** Replacing one character by another keeps the length and changes
      exactly the positions holding that character. */
  lemma {:induction false} ReplaceChar(s: string, a: char, b: char)
    ensures |Replace(s, [a], [b])| == |s|
    ensures forall k | 0 <= k < |s| :: Replace(s, [a], [b])[k] == if s[k] == a then b else s[k]
    decreases |s|
  {
    if |s| >= 1 {
      var tail := Replace(s[1..], [a], [b]);
      ReplaceChar(s[1..], a, b);
      var head := if s[..1] == [a] then [b] else [s[0]];
      assert Replace(s, [a], [b]) == head + tail;
      assert forall k | 1 <= k < |s| :: s[k] == s[1..][k - 1];
    }
  }

  /** No character of `a` appears in `b`. */
  predicate Disjoint(a: string, b: string)
  {
    forall k | 0 <= k < |a| :: a[k] !in b
  }

  /** If the replaced text starts with `p`, and no character of `p` can come
      from the replacement, then the original text starts with `p` too. */
  lemma {:induction false} ReplacedPrefix(t: string, pat: string, rep: string, p: string)
    requires pat != [] && rep != []
    requires Disjoint(p, rep)
    requires |p| <= |Replace(t, pat, rep)| && Replace(t, pat, rep)[..|p|] == p
    ensures |p| <= |t| && t[..|p|] == p
    decreases |t|
  {
    if p != [] && |pat| <= |t| {
      assert Replace(t, pat, rep)[0] == p[0];
      assert t[..|pat|] != pat;
      var r := Replace(t[1..], pat, rep);
      assert Replace(t, pat, rep) == [t[0]] + r;
      assert r[..|p| - 1] == p[1..];
      ReplacedPrefix(t[1..], pat, rep, p[1..]);
    }
  }

  /** An occurrence past a prefix `a` is an occurrence in what follows it. */
  lemma OccursPast(a: string, t: string, pat: string, i: int)
    requires |a| <= i
    ensures OccursAt(a + t, pat, i) <==> OccursAt(t, pat, i - |a|)
  {
    if i + |pat| <= |a + t| {
      var x, y := (a + t)[i..i + |pat|], t[i - |a|..i - |a| + |pat|];
      assert forall k | 0 <= k < |pat| :: x[k] == y[k];
      assert x == y;
    }
  }

  /** After `s.replace(pat, rep)` no occurrence of `pat` is left, provided the
      replacement is non-empty and shares no character with `pat`
      (`'<br>'` by `'\n'` or `' '`, `'\n'` by `'<br>'`). */
  lemma {:induction false} ReplaceLeavesNoOccurrence(s: string, pat: string, rep: string)
    requires pat != [] && rep != []
    requires Disjoint(pat, rep)
    ensures !Contains(Replace(s, pat, rep), pat)
    decreases |s|
  {
    var r := Replace(s, pat, rep);
    if |s| < |pat| {
      assert r == s;
    } else if s[..|pat|] == pat {
      var tail := Replace(s[|pat|..], pat, rep);
      assert r == rep + tail;
      ReplaceLeavesNoOccurrence(s[|pat|..], pat, rep);
      forall i | 0 <= i <= |r|
        ensures !OccursAt(r, pat, i)
      {
        if i < |rep| {
          if i + |pat| <= |r| {
            assert r[i..i + |pat|][0] == rep[i];
            assert pat[0] !in rep;
          }
        } else {
          OccursPast(rep, tail, pat, i);
        }
      }
    } else {
      var tail := Replace(s[1..], pat, rep);
      assert r == [s[0]] + tail;
      ReplaceLeavesNoOccurrence(s[1..], pat, rep);
      forall i | 0 <= i <= |r|
        ensures !OccursAt(r, pat, i)
      {
        if i == 0 {
          if OccursAt(r, pat, 0) {
            assert tail[..|pat| - 1] == pat[1..];
            ReplacedPrefix(s[1..], pat, rep, pat[1..]);
            assert false;
          }
        } else {
          OccursPast([s[0]], tail, pat, i);
        }
      }
    }
  }

  /** Replacing a pattern that does not occur leaves the text unchanged. */
  lemma {:induction false} ReplaceAbsent(s: string, pat: string, rep: string)
    requires pat != []
    requires !Contains(s, pat)
    ensures Replace(s, pat, rep) == s
    decreases |s|
  {
    if |s| < |pat| {
    } else {
      assert !OccursAt(s, pat, 0);
      forall i | 0 <= i <= |s[1..]|
        ensures !OccursAt(s[1..], pat, i)
      {
        if OccursAt(s[1..], pat, i) {
          assert s[1..][i..i + |pat|] == s[i + 1..i + 1 + |pat|];
          assert OccursAt(s, pat, i + 1);
        }
      }
      ReplaceAbsent(s[1..], pat, rep);
    }
  }

  /** A text without an occurrence of `pat` has none in any slice either. */
  lemma SliceKeepsAbsence(s: string, pat: string, i: int, j: int)
    requires 0 <= i <= j <= |s| && !Contains(s, pat)
    ensures !Contains(s[i..j], pat)
  {
    forall k | 0 <= k <= j - i ensures !OccursAt(s[i..j], pat, k) {
      if k + |pat| <= j - i {
        var a, b := s[i..j][k..k + |pat|], s[i + k..i + k + |pat|];
        assert forall t | 0 <= t < |pat| :: a[t] == b[t];
        assert a == b;
        assert !OccursAt(s, pat, i + k);
      }
    }
  }

  /** The whitespace `str.strip()` removes: the characters Python classes as whitespace. */
  predicate IsSpace(c: char)
  {
    var n := c as int;
    || n == 32 || 9 <= n <= 13 || 28 <= n <= 31 || n == 0x85 || n == 0xA0 || n == 0x1680
    || 0x2000 <= n <= 0x200A || n == 0x2028 || n == 0x2029 || n == 0x202F || n == 0x205F || n == 0x3000
  }

  /** Stripping keeps a pattern absent. */
  lemma StripKeepsAbsence(s: string, pat: string)
    requires !Contains(s, pat)
    ensures !Contains(Strip(s), pat)
  {
    var t := Strip(s);
    var i :| StripsTo(s, t, i);
    SliceKeepsAbsence(s, pat, i, i + |t|);
  }

  /** `s.lstrip()`: the longest suffix of `s` that does not start with whitespace. */
  function TrimStart(s: string): (r: string)
    ensures |r| <= |s| && r == s[|s| - |r|..]
    ensures r == [] || !IsSpace(r[0])
    ensures forall k | 0 <= k < |s| - |r| :: IsSpace(s[k])
  {
    if s != [] && IsSpace(s[0]) then TrimStart(s[1..]) else s
  }

  /** `s.rstrip()`: the longest prefix of `s` that does not end with whitespace. */
  function TrimEnd(s: string): (r: string)
    ensures |r| <= |s| && r == s[..|r|]
    ensures r == [] || !IsSpace(r[|r| - 1])
    ensures forall k | |r| <= k < |s| :: IsSpace(s[k])
  {
    if s != [] && IsSpace(s[|s| - 1]) then TrimEnd(s[..|s| - 1]) else s
  }

  /** `r` is `s[i..]` cut to `|r|` characters, with only whitespace cut
      away on either side. */
  predicate StripsTo(s: string, r: string, i: int)
  {
    && 0 <= i && i + |r| <= |s| && r == s[i..i + |r|]
    && (forall k | 0 <= k < i :: IsSpace(s[k]))
    && (forall k | i + |r| <= k < |s| :: IsSpace(s[k]))
  }

  /** Cutting whitespace off the front of `s`, giving `t`, and then off the
      back of `t`, giving `r`, keeps a slice of `s` and cuts only whitespace. */
  lemma TrimmedStripsTo(s: string, t: string, r: string)
    requires |t| <= |s| && t == s[|s| - |t|..] && forall k | 0 <= k < |s| - |t| :: IsSpace(s[k])
    requires |r| <= |t| && r == t[..|r|] && forall k | |r| <= k < |t| :: IsSpace(t[k])
    ensures StripsTo(s, r, |s| - |t|)
  {
    var a := |s| - |t|;
    forall k | 0 <= k < |t|
      ensures t[k] == s[a + k]
    {
      assert t[k] == s[a..][k];
    }
    assert r == s[a..a + |r|] by {
      assert forall k | 0 <= k < |r| :: r[k] == t[k];
    }
    forall k | a + |r| <= k < |s|
      ensures IsSpace(s[k])
    {
      assert IsSpace(t[k - a]);
    }
  }

  /** `s.strip()`. */
  function Strip(s: string): (r: string)
    ensures exists i :: StripsTo(s, r, i)
    ensures r == [] || (!IsSpace(r[0]) && !IsSpace(r[|r| - 1]))
  {
    TrimmedStripsTo(s, TrimStart(s), TrimEnd(TrimStart(s)));
    TrimEnd(TrimStart(s))
  }

  /** `str.lower()` on ASCII letters; other characters are kept. */
  function LowerChar(c: char): char
  {
    if 'A' <= c <= 'Z' then (c as int + 32) as char else c
  }

  function Lower(s: string): (r: string)
    ensures |r| == |s|
    ensures forall k | 0 <= k < |s| :: r[k] == LowerChar(s[k])
  {
    seq(|s|, k requires 0 <= k < |s| => LowerChar(s[k]))
  }

  /** `s.startswith(p)`. */
  predicate StartsWith(s: string, p: string)
  {
    |p| <= |s| && s[..|p|] == p
  }

  /** The index of the first occurrence of `c` in `s`, or `|s|` when `c` does
      not occur. */
  function IndexOf(s: string, c: char): (i: nat)
    ensures i <= |s|
  {
    if s == [] then 0
    else if s[0] == c then 0
    else 1 + IndexOf(s[1..], c)
  }

  /** `IndexOf` finds the first occurrence, and `|s|` means there is none. */
  lemma {:induction false} IndexOfFirst(s: string, c: char)
    ensures var i := IndexOf(s, c);
      && (forall k | 0 <= k < i :: s[k] != c)
      && (i < |s| <==> c in s)
      && (i < |s| ==> s[i] == c)
  {
    if s != [] && s[0] != c {
      IndexOfFirst(s[1..], c);
      var j := IndexOf(s[1..], c);
      assert forall k | 1 <= k < 1 + j :: s[k] == s[1..][k - 1];
      assert c in s <==> c in s[1..] by {
        assert s == [s[0]] + s[1..];
      }
    }
  }

  /** `IndexOf` stops at the first occurrence. */
  lemma IndexOfAt(s: string, c: char, i: int)
    requires 0 <= i < |s| && s[i] == c
    requires forall k | 0 <= k < i :: s[k] != c
    ensures IndexOf(s, c) == i
  {
    IndexOfFirst(s, c);
    if IndexOf(s, c) < i {
      assert s[IndexOf(s, c)] == c;
    }
  }

  /** `s` without the suffix `d`, when `s` ends with `d`. */
  function WithoutSuffix(s: string, d: string): Option<string>
  {
    if |d| <= |s| && s[|s| - |d|..] == d then Some(s[..|s| - |d|]) else None
  }

  lemma WithoutSuffixAppend(s: string, d: string)
    ensures WithoutSuffix(s + d, d) == Some(s)
  {
    assert (s + d)[|s|..] == d && (s + d)[..|s|] == s;
  }
}
