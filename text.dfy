/**
 * The string steps `titleCase` is built from, on an ASCII alphabet:
 * `toLowerCase()`, the global regex replace of `/(?:^|[\s-_/])\w/g` with the
 * upper-cased match, and the global removal of `/[\s-_]/g`.
 *
 * In a regex without the `u` flag, `[\s-_/]` is a class escape followed by a
 * literal `-` (section B.1.2 of ECMA-262 makes a range whose end is a class
 * escape a plain `-`), so the class is whitespace, `-`, `_` and `/`.
 */
module Text {

  /** `\s` restricted to ASCII: space, tab, line feed, vertical tab, form feed, carriage return. */
  predicate IsWhitespace(c: char)
  {
    c == ' ' || c == '\t' || c == '\n' || c == '\U{0B}' || c == '\U{0C}' || c == '\r'
  }

  predicate IsUpper(c: char) { 'A' <= c <= 'Z' }

  predicate IsLower(c: char) { 'a' <= c <= 'z' }

  predicate IsLetter(c: char) { IsUpper(c) || IsLower(c) }

  /** `\w`: `[A-Za-z0-9_]`. */
  predicate IsWordChar(c: char)
  {
    IsLetter(c) || ('0' <= c <= '9') || c == '_'
  }

  /** The class `[\s-_/]`: the characters that may precede a capitalised word character. */
  predicate IsDelimiter(c: char)
  {
    IsWhitespace(c) || c == '-' || c == '_' || c == '/'
  }

  /** The class `[\s-_]`: the characters the last step deletes (`/` is not among them). */
  predicate IsStripped(c: char)
  {
    IsWhitespace(c) || c == '-' || c == '_'
  }

  /** A delimiter that is not itself a word character: whitespace, `-` or `/`. */
  predicate IsCapTrigger(c: char)
  {
    IsWhitespace(c) || c == '-' || c == '/'
  }

  function ToLower(c: char): (r: char)
    ensures IsUpper(c) ==> IsLower(r) && r as int == c as int + 32
    ensures !IsUpper(c) ==> r == c
  {
    if IsUpper(c) then (c as int + 32) as char else c
  }

  function ToUpper(c: char): (r: char)
    ensures IsLower(c) ==> IsUpper(r) && r as int == c as int - 32
    ensures !IsLower(c) ==> r == c
  {
    if IsLower(c) then (c as int - 32) as char else c
  }

  /** `String.prototype.toLowerCase` on ASCII. */
  function LowerAll(s: string): (r: string)
    ensures SameUpToCase(r, s)
    ensures forall i :: 0 <= i < |r| ==> !IsUpper(r[i])
  {
    seq(|s|, i requires 0 <= i < |s| => ToLower(s[i]))
  }

  /**
   * `s.replace(/(?:^|[\s-_/])\w/g, m => m.toUpperCase())`. At index 0 the `^`
   * alternative is tried first and matches one word character; everywhere
   * else only the two-character alternative (delimiter, word character) can match.
   */
  function Capitalise(s: string): (r: string)
    ensures |r| == |s|
  {
    if |s| > 0 && IsWordChar(s[0]) then [ToUpper(s[0])] + ScanFrom(s[1..]) else ScanFrom(s)
  }

  /**
   * The rest of the global left-to-right scan, at a position where `^` cannot
   * match: a match consumes both its characters, otherwise the scan moves on by one.
   */
  function ScanFrom(t: string): (r: string)
    ensures |r| == |t|
    decreases |t|
  {
    if |t| >= 2 && IsDelimiter(t[0]) && IsWordChar(t[1]) then
      [ToUpper(t[0]), ToUpper(t[1])] + ScanFrom(t[2..])
    else if |t| == 0 then
      []
    else
      [t[0]] + ScanFrom(t[1..])
  }

  /** `s.replace(/[\s-_]/g, '')`: keeps the other characters, in order. */
  function Strip(s: string): (r: string)
    ensures |r| == |s| - CountStripped(s)
    ensures forall i :: 0 <= i < |r| ==> !IsStripped(r[i])
  {
    if s == [] then []
    else (if IsStripped(s[0]) then [] else [s[0]]) + Strip(s[1..])
  }

  /** How many characters of `s` the last step deletes. */
  function CountStripped(s: string): (n: nat)
    ensures n <= |s|
  {
    if s == [] then 0 else (if IsStripped(s[0]) then 1 else 0) + CountStripped(s[1..])
  }

  /** `a` and `b` differ at most in the case of their letters. */
  ghost predicate SameUpToCase(a: string, b: string)
  {
    |a| == |b| && forall i :: 0 <= i < |a| ==> ToLower(a[i]) == ToLower(b[i])
  }

  // ---------------------------------------------------------------------------
  // Character facts

  lemma CaseFacts(c: char)
    ensures ToLower(ToLower(c)) == ToLower(c)
    ensures ToLower(ToUpper(c)) == ToLower(c)
    ensures ToUpper(ToLower(c)) == ToUpper(c)
    ensures IsStripped(ToLower(c)) == IsStripped(c)
    ensures IsDelimiter(ToLower(c)) == IsDelimiter(c)
    ensures IsCapTrigger(ToLower(c)) == IsCapTrigger(c)
    ensures IsWordChar(ToLower(c)) == IsWordChar(c)
    ensures IsLetter(ToLower(c)) == IsLetter(c)
  {
  }

  // ---------------------------------------------------------------------------
  // The scan changes only the case of letters, and exactly where it should

  lemma CapitaliseSameUpToCase(s: string)
    ensures SameUpToCase(Capitalise(s), s)
  {
    if |s| > 0 && IsWordChar(s[0]) {
      var r := Capitalise(s);
      var tail := ScanFrom(s[1..]);
      ScanFromSameUpToCase(s[1..]);
      assert r == [ToUpper(s[0])] + tail;
      forall i | 0 <= i < |s| ensures ToLower(r[i]) == ToLower(s[i]) {
        if i == 0 {
          CaseFacts(s[0]);
        } else {
          assert r[i] == tail[i - 1];
        }
      }
    } else {
      ScanFromSameUpToCase(s);
    }
  }

  lemma {:induction false} ScanFromSameUpToCase(t: string)
    ensures SameUpToCase(ScanFrom(t), t)
    decreases |t|
  {
    if |t| >= 2 && IsDelimiter(t[0]) && IsWordChar(t[1]) {
      ScanFromSameUpToCase(t[2..]);
      var r := ScanFrom(t);
      forall i | 0 <= i < |t| ensures ToLower(r[i]) == ToLower(t[i]) {
        if i < 2 {
          CaseFacts(t[i]);
        } else {
          assert r[i] == ScanFrom(t[2..])[i - 2];
        }
      }
    } else if |t| > 0 {
      ScanFromSameUpToCase(t[1..]);
      var r := ScanFrom(t);
      forall i | 0 <= i < |t| ensures ToLower(r[i]) == ToLower(t[i]) {
        if i > 0 {
          assert r[i] == ScanFrom(t[1..])[i - 1];
        }
      }
    }
  }

  /** Whatever the scan does at the start of a segment, the first character keeps its value. */
  lemma ScanFromHead(t: string)
    requires |t| > 0
    ensures ScanFrom(t)[0] == t[0]
  {
  }

  /**
   * A word character right after whitespace, `-` or `/` is upper-cased: that
   * delimiter is never consumed as the second character of a match, so the scan
   * reaches it as the start of a two-character match.
   */
  lemma {:induction false} ScanFromUpper(t: string, j: nat)
    requires 0 < j < |t| && IsWordChar(t[j]) && IsCapTrigger(t[j - 1])
    ensures ScanFrom(t)[j] == ToUpper(t[j])
    decreases |t|
  {
    if |t| >= 2 && IsDelimiter(t[0]) && IsWordChar(t[1]) {
      if j >= 2 {
        assert j != 2;
        ScanFromUpper(t[2..], j - 2);
      }
    } else {
      assert j != 1;
      ScanFromUpper(t[1..], j - 1);
    }
  }

  /** A character whose predecessor is not a delimiter is never part of a match's second place. */
  lemma {:induction false} ScanFromKeeps(t: string, j: nat)
    requires 0 < j < |t| && !IsDelimiter(t[j - 1])
    ensures ScanFrom(t)[j] == t[j]
    decreases |t|
  {
    if |t| >= 2 && IsDelimiter(t[0]) && IsWordChar(t[1]) {
      assert j >= 2;
      if j == 2 {
        ScanFromHead(t[2..]);
      } else {
        ScanFromKeeps(t[2..], j - 2);
      }
    } else if j == 1 {
      ScanFromHead(t[1..]);
    } else {
      ScanFromKeeps(t[1..], j - 1);
    }
  }

  /**
   * A word character right after a `_` that is not itself preceded by a
   * delimiter is upper-cased: that `_` cannot have been consumed as the second
   * character of a match, so it starts one.
   */
  lemma {:induction false} ScanFromAfterLoneUnderscore(t: string, j: nat)
    requires 0 < j < |t| && t[j - 1] == '_' && IsWordChar(t[j])
    requires j == 1 || !IsDelimiter(t[j - 2])
    ensures ScanFrom(t)[j] == ToUpper(t[j])
    decreases |t|
  {
    if |t| >= 2 && IsDelimiter(t[0]) && IsWordChar(t[1]) {
      if j >= 2 {
        assert j != 2;
        ScanFromAfterLoneUnderscore(t[2..], j - 2);
      }
    } else {
      assert j != 1;
      ScanFromAfterLoneUnderscore(t[1..], j - 1);
    }
  }

  lemma CapitaliseUpper(s: string, j: nat)
    requires j < |s| && IsWordChar(s[j])
    requires j == 0 || IsCapTrigger(s[j - 1])
    ensures Capitalise(s)[j] == ToUpper(s[j])
  {
    if j > 0 {
      if IsWordChar(s[0]) {
        assert j != 1;
        ScanFromUpper(s[1..], j - 1);
      } else {
        ScanFromUpper(s, j);
      }
    }
  }

  /**
   * After a lone `_` (one not preceded by a delimiter) a word character is
   * upper-cased too. Index 1 is excluded: there the `^` match takes the `_`.
   */
  lemma CapitaliseAfterLoneUnderscore(s: string, j: nat)
    requires 2 <= j < |s| && s[j - 1] == '_' && !IsDelimiter(s[j - 2]) && IsWordChar(s[j])
    ensures Capitalise(s)[j] == ToUpper(s[j])
  {
    if IsWordChar(s[0]) {
      ScanFromAfterLoneUnderscore(s[1..], j - 1);
    } else {
      ScanFromAfterLoneUnderscore(s, j);
    }
  }

  lemma CapitaliseKeeps(s: string, j: nat)
    requires 0 < j < |s| && !IsDelimiter(s[j - 1])
    ensures Capitalise(s)[j] == s[j]
  {
    if IsWordChar(s[0]) {
      if j == 1 {
        ScanFromHead(s[1..]);
      } else {
        ScanFromKeeps(s[1..], j - 1);
      }
    } else {
      ScanFromKeeps(s, j);
    }
  }

  // ---------------------------------------------------------------------------
  // Lower-casing

  lemma {:induction false} LowerAllIdempotent(s: string)
    ensures LowerAll(LowerAll(s)) == LowerAll(s)
  {
    forall i | 0 <= i < |s| ensures LowerAll(LowerAll(s))[i] == LowerAll(s)[i] {
      CaseFacts(s[i]);
    }
  }

  /** The lower-case form is the only string with no upper-case letter that agrees with `s` up to case. */
  lemma {:induction false} LowerAllUnique(s: string, r: string)
    requires SameUpToCase(r, s)
    requires forall i :: 0 <= i < |r| ==> !IsUpper(r[i])
    ensures r == LowerAll(s)
  {
    forall i | 0 <= i < |r| ensures r[i] == LowerAll(s)[i] {
      assert ToLower(r[i]) == ToLower(s[i]);
    }
  }

  /** Strings that agree up to case have the same lower-case form. */
  lemma SameUpToCaseLower(a: string, b: string)
    requires SameUpToCase(a, b)
    ensures LowerAll(a) == LowerAll(b)
  {
  }

  // ---------------------------------------------------------------------------
  // Stripping

  lemma {:induction false} StripAppend(a: string, b: string)
    ensures Strip(a + b) == Strip(a) + Strip(b)
    ensures CountStripped(a + b) == CountStripped(a) + CountStripped(b)
    decreases |a|
  {
    if a != [] {
      assert (a + b)[0] == a[0];
      assert (a + b)[1..] == a[1..] + b;
      StripAppend(a[1..], b);
    } else {
      assert a + b == b;
    }
  }

  /** A kept character at input index `j` lands at output index `j - CountStripped(s[..j])`. */
  lemma StripAt(s: string, j: nat)
    requires j < |s| && !IsStripped(s[j])
    ensures j - CountStripped(s[..j]) < |Strip(s)|
    ensures Strip(s)[j - CountStripped(s[..j])] == s[j]
  {
    assert s == s[..j] + s[j..];
    StripAppend(s[..j], s[j..]);
    assert s[j..] == [s[j]] + s[j + 1..];
    assert Strip(s[j..]) == [s[j]] + Strip(s[j + 1..]);
  }

  lemma {:induction false} CountStrippedUpToCase(a: string, b: string)
    requires SameUpToCase(a, b)
    ensures CountStripped(a) == CountStripped(b)
    decreases |a|
  {
    if a != [] {
      CaseFacts(a[0]);
      CaseFacts(b[0]);
      assert SameUpToCase(a[1..], b[1..]) by {
        forall i | 0 <= i < |a| - 1 ensures ToLower(a[1..][i]) == ToLower(b[1..][i]) {
          assert a[1..][i] == a[i + 1];
        }
      }
      CountStrippedUpToCase(a[1..], b[1..]);
    }
  }

  /** Deleting `[\s-_]` commutes with lower-casing. */
  lemma {:induction false} StripLowerAll(s: string)
    ensures LowerAll(Strip(s)) == Strip(LowerAll(s))
    decreases |s|
  {
    if s != [] {
      CaseFacts(s[0]);
      assert LowerAll(s)[1..] == LowerAll(s[1..]);
      StripLowerAll(s[1..]);
      var head := if IsStripped(s[0]) then [] else [s[0]];
      assert Strip(s) == head + Strip(s[1..]);
      assert LowerAll(head + Strip(s[1..])) == LowerAll(head) + LowerAll(Strip(s[1..]));
    }
  }

  // ---------------------------------------------------------------------------
  // Evaluating the steps segment by segment

  /** The scan passes over a stretch without delimiters untouched. */
  lemma {:induction false} ScanFromNoDelimiters(x: string, rest: string)
    requires forall i :: 0 <= i < |x| ==> !IsDelimiter(x[i])
    ensures ScanFrom(x + rest) == x + ScanFrom(rest)
    decreases |x|
  {
    if x != [] {
      var t := x + rest;
      assert t[0] == x[0] && !IsDelimiter(t[0]);
      assert ScanFrom(t) == [t[0]] + ScanFrom(t[1..]);
      assert t[1..] == x[1..] + rest;
      ScanFromNoDelimiters(x[1..], rest);
      assert [x[0]] + (x[1..] + ScanFrom(rest)) == x + ScanFrom(rest);
    } else {
      assert x + rest == rest;
    }
  }

  /** A delimiter followed by a word without delimiters: the match upper-cases the word's first character. */
  lemma ScanFromWord(d: char, w: string, rest: string)
    requires IsDelimiter(d) && |w| > 0 && IsWordChar(w[0])
    requires forall i :: 0 <= i < |w| ==> !IsDelimiter(w[i])
    ensures ScanFrom([d] + w + rest) == [ToUpper(d), ToUpper(w[0])] + w[1..] + ScanFrom(rest)
  {
    var t := [d] + w + rest;
    assert t[0] == d && t[1] == w[0];
    assert t[2..] == w[1..] + rest;
    ScanFromNoDelimiters(w[1..], rest);
  }

  /** Nothing to delete in a string without `[\s-_]`. */
  lemma {:induction false} StripNone(s: string)
    requires forall i :: 0 <= i < |s| ==> !IsStripped(s[i])
    ensures Strip(s) == s
    decreases |s|
  {
    if s != [] {
      StripNone(s[1..]);
    }
  }
}
