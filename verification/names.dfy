/** The two name patterns of the format, written as character-class predicates. */
module Names {
  import opened Numbers

  /** `[a-zA-Z0-9_/]` */
  predicate IsNameChar(c: char) {
    ('a' <= c <= 'z') || ('A' <= c <= 'Z') || ('0' <= c <= '9') || c == '_' || c == '/'
  }

  /** `^[a-zA-Z0-9_/]+$` */
  predicate IsValidEntityDefName(s: string) {
    |s| > 0 && forall i {:trigger IsNameChar(s[i])} :: 0 <= i < |s| ==> IsNameChar(s[i])
  }

  /** Number of leading decimal digits of `s`. */
  function LeadingDigits(s: string): (n: nat)
    ensures n <= |s| && AllDigits(s[..n])
    ensures n < |s| ==> !IsDigit(s[n])
  {
    if |s| > 0 && IsDigit(s[0]) then
      var n := 1 + LeadingDigits(s[1..]);
      assert s[..n] == [s[0]] + s[1..][..n - 1];
      n
    else 0
  }

  predicate AllClosing(s: string) {
    forall i :: 0 <= i < |s| ==> s[i] == ']'
  }

  /** Number of leading name characters of `s`. */
  function LeadingNameChars(s: string): (n: nat)
    ensures n <= |s| && forall i {:trigger IsNameChar(s[i])} :: 0 <= i < n ==> IsNameChar(s[i])
    ensures n < |s| ==> !IsNameChar(s[n])
  {
    if |s| > 0 && IsNameChar(s[0]) then 1 + LeadingNameChars(s[1..]) else 0
  }

  /** `^[a-zA-Z0-9_\/]+\[[0-9]+\]+$`, scanned left to right. */
  predicate IsIndexedName(s: string) {
    var k := LeadingNameChars(s);
    && 0 < k < |s|
    && s[k] == '['
    && var d := LeadingDigits(s[k + 1..]);
    && d > 0
    && k + 1 + d < |s|
    && AllClosing(s[k + 1 + d..])
  }

  /** The property-name test: a plain name or a plain name with a bracketed index. */
  predicate IsValidPropertyName(s: string) {
    IsValidEntityDefName(s) || IsIndexedName(s)
  }

  /** The indexed-name pattern matched with the base ending at `k` and the digits ending at `m`. */
  predicate IndexedAt(s: string, k: int, m: int) {
    && 0 < k < m < |s|
    && IsValidEntityDefName(s[..k])
    && s[k] == '['
    && k + 1 < m
    && AllDigits(s[k + 1..m])
    && AllClosing(s[m..])
  }

  /** The scanner accepts exactly the strings the indexed pattern matches at some split. */
  lemma IndexedNameMatches(s: string)
    ensures IsIndexedName(s) <==> exists k, m :: IndexedAt(s, k, m)
  {
    if IsIndexedName(s) {
      var k := LeadingNameChars(s);
      ScannedSplit(s, k, k + 1 + LeadingDigits(s[k + 1..]));
    }
    if exists k, m :: IndexedAt(s, k, m) {
      var k, m :| IndexedAt(s, k, m);
      SplitScanned(s, k, m);
    }
  }

  /** The split the scanner finds is a match of the pattern. */
  lemma ScannedSplit(s: string, k: nat, m: nat)
    requires IsIndexedName(s) && k == LeadingNameChars(s) && m == k + 1 + LeadingDigits(s[k + 1..])
    ensures IndexedAt(s, k, m)
  {
    var d := LeadingDigits(s[k + 1..]);
    assert s[k + 1..][..d] == s[k + 1..k + 1 + d];
    forall i | 0 <= i < k ensures IsNameChar(s[..k][i]) {
      assert s[..k][i] == s[i] && IsNameChar(s[i]);
    }
  }

  /** Any match of the pattern is found by the scanner. */
  lemma SplitScanned(s: string, k: int, m: int)
    requires IndexedAt(s, k, m)
    ensures IsIndexedName(s)
  {
    assert s[..k][k - 1] == s[k - 1];
    assert LeadingNameChars(s) == k by {
      var n := LeadingNameChars(s);
      forall i | 0 <= i < k ensures IsNameChar(s[i]) {
        assert s[..k][i] == s[i];
        assert IsNameChar(s[..k][i]);
      }
      assert !IsNameChar('[');
    }
    var t := s[k + 1..];
    assert LeadingDigits(t) == m - k - 1 by {
      var n := LeadingDigits(t);
      forall i | 0 <= i < m - k - 1 ensures IsDigit(t[i]) {
        assert t[i] == s[k + 1..m][i];
      }
      assert t[m - k - 1] == s[m] == ']';
    }
  }

  /** A valid entityDef name holds no character outside the name class. */
  lemma NameLacks(s: string, c: char)
    requires IsValidEntityDefName(s) && !IsNameChar(c)
    ensures c !in s
  {
    forall i | 0 <= i < |s| ensures s[i] != c {
      assert IsNameChar(s[i]);
    }
  }

  /** Every valid entityDef name is also a valid property name. */
  lemma EntityDefNameIsPropertyName(s: string)
    requires IsValidEntityDefName(s)
    ensures IsValidPropertyName(s)
  {
  }

  /** A valid property name never holds white space, `=`, `;`, a quote or a brace. */
  lemma PropertyNameCharacters(s: string)
    requires IsValidPropertyName(s)
    ensures |s| > 0
    ensures forall i :: 0 <= i < |s| ==> IsNameChar(s[i]) || s[i] == '[' || s[i] == ']'
  {
    if !IsValidEntityDefName(s) {
      var k := LeadingNameChars(s);
      var d := LeadingDigits(s[k + 1..]);
      forall i | 0 <= i < |s| ensures IsNameChar(s[i]) || s[i] == '[' || s[i] == ']' {
        if k + 1 <= i < k + 1 + d {
          assert s[k + 1..][..d][i - k - 1] == s[i];
        } else if i >= k + 1 + d {
          assert s[k + 1 + d..][i - k - 1 - d] == s[i];
        }
      }
    }
  }
}
