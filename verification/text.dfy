/**
 * The few .NET string operations the codec relies on, written over `seq<char>`:
 * `char.IsWhiteSpace`, `Trim`/`TrimStart`/`TrimEnd`, `Split(char)`, `Contains(string)`,
 * and the ASCII part of `ToLower`.
 */
module Text {

  /** `char.IsWhiteSpace`: the Unicode space separators, line and paragraph separators,
      and the control characters U+0009..U+000D and U+0085. */
  predicate IsWhiteSpace(c: char) {
    || ('\U{0009}' <= c <= '\U{000D}')
    || c == ' '
    || c == '\U{0085}'
    || c == '\U{00A0}'
    || c == '\U{1680}'
    || ('\U{2000}' <= c <= '\U{200A}')
    || c == '\U{2028}'
    || c == '\U{2029}'
    || c == '\U{202F}'
    || c == '\U{205F}'
    || c == '\U{3000}'
  }

  predicate AllWhiteSpace(s: string) {
    forall i :: 0 <= i < |s| ==> IsWhiteSpace(s[i])
  }

  /** The last character of a non-empty string (`s[s.Length - 1]`). */
  function Last(s: string): char
    requires |s| > 0
  {
    s[|s| - 1]
  }

  /** `s.Remove(s.Length - 1, 1)` on a non-empty string. */
  function DropLast(s: string): (r: string)
    requires |s| > 0
    ensures |r| == |s| - 1 && r + [Last(s)] == s
  {
    s[..|s| - 1]
  }

  /** `TrimStart()`: the longest suffix of `s` that does not start with white space. */
  function TrimStart(s: string): (r: string)
    ensures |r| <= |s| && r == s[|s| - |r|..]
    ensures AllWhiteSpace(s[..|s| - |r|])
    ensures r == [] || !IsWhiteSpace(r[0])
    decreases |s|
  {
    if |s| > 0 && IsWhiteSpace(s[0]) then
      var r := TrimStart(s[1..]);
      assert s[1..][..|s| - 1 - |r|] == s[1..|s| - |r|];
      r
    else s
  }

  /** `TrimEnd()`: the longest prefix of `s` that does not end with white space. */
  function TrimEnd(s: string): (r: string)
    ensures |r| <= |s| && r == s[..|r|]
    ensures AllWhiteSpace(s[|r|..])
    ensures r == [] || !IsWhiteSpace(Last(r))
    decreases |s|
  {
    if |s| > 0 && IsWhiteSpace(Last(s)) then
      var r := TrimEnd(DropLast(s));
      assert DropLast(s)[|r|..] + [Last(s)] == s[|r|..];
      r
    else s
  }

  /** `Trim()`: `s` without its leading and trailing white space. */
  function Trim(s: string): (r: string)
    ensures |r| <= |s|
    ensures r == [] <==> AllWhiteSpace(s)
    ensures r != [] ==> !IsWhiteSpace(r[0]) && !IsWhiteSpace(Last(r))
    decreases |s|
  {
    if |s| > 0 && IsWhiteSpace(s[0]) then
      var r := Trim(s[1..]);
      assert AllWhiteSpace(s) <==> AllWhiteSpace(s[1..]) by {
        BlankParts(s, 1, |s|);
        assert s[1..|s|] == s[1..];
      }
      r
    else if |s| > 0 && IsWhiteSpace(Last(s)) then
      var r := Trim(DropLast(s));
      assert AllWhiteSpace(s) <==> AllWhiteSpace(DropLast(s)) by {
        BlankParts(s, 0, |s| - 1);
        assert s[0..|s| - 1] == DropLast(s);
      }
      r
    else s
  }

  /** `Trim()` is `TrimStart()` followed by `TrimEnd()`. */
  lemma {:induction false} TrimBothEnds(s: string)
    ensures Trim(s) == TrimEnd(TrimStart(s))
    decreases |s|
  {
    if |s| > 0 && IsWhiteSpace(s[0]) {
      TrimBothEnds(s[1..]);
    } else if |s| > 0 && IsWhiteSpace(Last(s)) {
      TrimBothEnds(DropLast(s));
      assert TrimStart(DropLast(s)) == DropLast(s) by {
        assert |s| >= 2 && DropLast(s)[0] == s[0];
      }
    }
  }

  /** A string is blank iff its two ends around a window are blank and the window is. */
  lemma BlankParts(s: string, a: nat, b: nat)
    requires a <= b <= |s|
    requires AllWhiteSpace(s[..a]) && AllWhiteSpace(s[b..])
    ensures AllWhiteSpace(s) <==> AllWhiteSpace(s[a..b])
  {
    if AllWhiteSpace(s[a..b]) {
      forall i | 0 <= i < |s| ensures IsWhiteSpace(s[i]) {
        if i < a {
          assert s[..a][i] == s[i];
        } else if i < b {
          assert s[a..b][i - a] == s[i];
        } else {
          assert s[b..][i - b] == s[i];
        }
      }
    }
  }

  /** Number of occurrences of `c` in `s`. */
  function Count(s: string, c: char): nat {
    if |s| == 0 then 0 else (if s[0] == c then 1 else 0) + Count(s[1..], c)
  }

  /** Occurrences add up over a concatenation. */
  lemma {:induction false} CountAppend(a: string, b: string, c: char)
    ensures Count(a + b, c) == Count(a, c) + Count(b, c)
    decreases |a|
  {
    if |a| > 0 {
      assert (a + b)[1..] == a[1..] + b;
      CountAppend(a[1..], b, c);
    } else {
      assert a + b == b;
    }
  }

  /** A string without `c` has no occurrence of it. */
  lemma {:induction false} CountAbsent(s: string, c: char)
    requires c !in s
    ensures Count(s, c) == 0
    decreases |s|
  {
    if |s| > 0 {
      assert s[0] != c;
      CountAbsent(s[1..], c);
    }
  }

  /** `String.Join(c, parts)`: the parts with one `c` between neighbours. */
  function Join(parts: seq<string>, c: char): string
    decreases |parts|
  {
    if |parts| == 0 then ""
    else if |parts| == 1 then parts[0]
    else parts[0] + [c] + Join(parts[1..], c)
  }

  /** `String.Split(c)`: every maximal `c`-free piece of `s`, empty pieces included. */
  function Split(s: string, c: char): (parts: seq<string>)
    ensures |parts| == Count(s, c) + 1
    ensures forall i :: 0 <= i < |parts| ==> c !in parts[i]
    ensures Join(parts, c) == s
    decreases |s|
  {
    if |s| == 0 then [""]
    else
      var rest := Split(s[1..], c);
      if s[0] == c then
        assert Join([""] + rest, c) == [c] + Join(rest, c) by {
          assert ([""] + rest)[1..] == rest;
        }
        [""] + rest
      else
        var parts := [[s[0]] + rest[0]] + rest[1..];
        assert Join(parts, c) == [s[0]] + Join(rest, c) by {
          if |rest| > 1 {
            assert parts[1..] == rest[1..];
          }
        }
        parts
  }

  /** A piece without the separator splits into itself. */
  lemma {:induction false} SplitNoSeparator(s: string, c: char)
    requires c !in s
    ensures Split(s, c) == [s]
    decreases |s|
  {
    if |s| > 0 {
      assert s == [s[0]] + s[1..];
      SplitNoSeparator(s[1..], c);
      assert [s[0]] + s[1..] == s;
    }
  }

  /** Splitting distributes over a separator occurrence. */
  lemma {:induction false} SplitAround(a: string, b: string, c: char)
    ensures Split(a + [c] + b, c) == Split(a, c) + Split(b, c)
    decreases |a|
  {
    if |a| == 0 {
      assert a + [c] + b == [c] + b;
      assert ([c] + b)[1..] == b;
    } else {
      assert (a + [c] + b)[1..] == a[1..] + [c] + b;
      SplitAround(a[1..], b, c);
    }
  }

  /** Split undoes Join when no part contains the separator. */
  lemma {:induction false} SplitJoin(parts: seq<string>, c: char)
    requires |parts| >= 1
    requires forall i :: 0 <= i < |parts| ==> c !in parts[i]
    ensures Split(Join(parts, c), c) == parts
    decreases |parts|
  {
    if |parts| == 1 {
      SplitNoSeparator(parts[0], c);
    } else {
      SplitNoSeparator(parts[0], c);
      SplitJoin(parts[1..], c);
      SplitAround(parts[0], Join(parts[1..], c), c);
      assert [parts[0]] + parts[1..] == parts;
    }
  }

  /** A string that splits into exactly two pieces is those pieces around its one separator. */
  lemma TwoParts(s: string, c: char)
    requires |Split(s, c)| == 2
    ensures s == Split(s, c)[0] + [c] + Split(s, c)[1]
  {
    var p := Split(s, c);
    assert Join(p, c) == p[0] + [c] + Join(p[1..], c);
    assert p[1..] == [p[1]];
  }

  /** `s.StartsWith(t)` under ordinal comparison. */
  predicate StartsWith(s: string, t: string) {
    |t| <= |s| && s[..|t|] == t
  }

  /** `s.Contains(t)` under ordinal comparison. */
  predicate Contains(s: string, t: string)
    decreases |s|
  {
    StartsWith(s, t) || (|s| > 0 && Contains(s[1..], t))
  }

  /** `t` occurs in `s` starting at position `k`. */
  predicate OccursAt(s: string, t: string, k: int) {
    0 <= k <= |s| - |t| && s[k..k + |t|] == t
  }

  /** Contains means: `t` occurs at some position of `s`. */
  lemma {:induction false} ContainsOccurs(s: string, t: string)
    ensures Contains(s, t) <==> exists k :: OccursAt(s, t, k)
    decreases |s|
  {
    if StartsWith(s, t) {
      assert OccursAt(s, t, 0);
    }
    if |s| > 0 {
      ContainsOccurs(s[1..], t);
      if exists k :: OccursAt(s, t, k) {
        var k :| OccursAt(s, t, k);
        if k > 0 {
          assert OccursAt(s[1..], t, k - 1) by {
            assert s[1..][k - 1..k - 1 + |t|] == s[k..k + |t|];
          }
        }
      }
      if Contains(s[1..], t) {
        var k :| OccursAt(s[1..], t, k);
        assert OccursAt(s, t, k + 1) by {
          assert s[1..][k..k + |t|] == s[k + 1..k + 1 + |t|];
        }
      }
    } else {
      if exists k :: OccursAt(s, t, k) {
        var k :| OccursAt(s, t, k);
        assert StartsWith(s, t);
      }
    }
  }

  /** `char.ToLower` on ASCII letters; every other character is left unchanged. */
  function LowerChar(c: char): char {
    if 'A' <= c <= 'Z' then (c as int - 'A' as int + 'a' as int) as char else c
  }

  function Lower(s: string): (r: string)
    ensures |r| == |s|
  {
    seq(|s|, i requires 0 <= i < |s| => LowerChar(s[i]))
  }

  /** Number of non-empty lines: the measure that shrinks from a block to any block nested in it. */
  function Weight(lines: seq<string>): nat {
    if |lines| == 0 then 0 else (if lines[0] == "" then 0 else 1) + Weight(lines[1..])
  }

  lemma {:induction false} WeightAppend(a: seq<string>, b: seq<string>)
    ensures Weight(a + b) == Weight(a) + Weight(b)
    decreases |a|
  {
    if |a| > 0 {
      assert (a + b)[1..] == a[1..] + b;
      assert (a + b)[0] == a[0];
      WeightAppend(a[1..], b);
      assert Weight(a + b) == (if a[0] == "" then 0 else 1) + Weight(a[1..] + b);
    } else {
      assert a + b == b;
    }
  }

  lemma WeightSplitAt(lines: seq<string>, k: nat)
    requires k <= |lines|
    ensures Weight(lines) == Weight(lines[..k]) + Weight(lines[k..])
  {
    assert lines == lines[..k] + lines[k..];
    WeightAppend(lines[..k], lines[k..]);
  }

  /** A non-empty line anywhere gives a run positive weight. */
  lemma {:induction false} WeightOfLine(lines: seq<string>, k: nat)
    requires k < |lines| && lines[k] != ""
    ensures Weight(lines) >= 1
    decreases k
  {
    if k > 0 {
      WeightOfLine(lines[1..], k - 1);
    }
  }
}
