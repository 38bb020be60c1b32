/**
 * `titleCase` of src/util/names.ts: lower-case the text, upper-case the first
 * word character and each word character the scan finds after a delimiter,
 * then delete whitespace, `-` and `_`.
 */
module UtilNames {
  import opened Text

  function TitleCase(text: string): (r: string)
    ensures forall i :: 0 <= i < |r| ==> !IsStripped(r[i])
  {
    Strip(Capitalise(LowerAll(text)))
  }

  /** Where the character at input index `j` appears in the output, when it is kept. */
  function OutIndex(text: string, j: nat): (k: int)
    requires j <= |text|
    ensures 0 <= k <= j
  {
    j - CountStripped(text[..j])
  }

  /** The output is the input, case aside, with exactly the characters of `[\s-_]` deleted. */
  lemma TitleCaseContent(text: string)
    ensures LowerAll(TitleCase(text)) == Strip(LowerAll(text))
    ensures |TitleCase(text)| == |text| - CountStripped(text)
  {
    var s := LowerAll(text);
    var c := Capitalise(s);
    CapitaliseSameUpToCase(s);
    SameUpToCaseLower(c, s);
    LowerAllIdempotent(text);
    StripLowerAll(c);
    CountStrippedUpToCase(c, text);
  }

  /** The letter case of the input does not matter. */
  lemma TitleCaseIgnoresCase(text: string)
    ensures TitleCase(text) == TitleCase(LowerAll(text))
  {
    LowerAllIdempotent(text);
  }

  /** The intermediate string differs from `text` in case only, so it strips the same positions. */
  lemma ScannedAt(text: string, j: nat)
    requires j < |text|
    ensures var c := Capitalise(LowerAll(text));
      |c| == |text| && CountStripped(c[..j]) == CountStripped(text[..j])
  {
    var s := LowerAll(text);
    var c := Capitalise(s);
    CapitaliseSameUpToCase(s);
    assert SameUpToCase(c[..j], text[..j]) by {
      forall i | 0 <= i < j ensures ToLower(c[..j][i]) == ToLower(text[..j][i]) {
        assert ToLower(c[i]) == ToLower(s[i]) == ToLower(text[i]);
      }
    }
    CountStrippedUpToCase(c[..j], text[..j]);
  }

  /** Every kept character survives, in order, up to case; characters other than letters survive exactly. */
  lemma TitleCaseKeeps(text: string, j: nat)
    requires j < |text| && !IsStripped(text[j])
    ensures OutIndex(text, j) < |TitleCase(text)|
    ensures ToLower(TitleCase(text)[OutIndex(text, j)]) == ToLower(text[j])
    ensures !IsLetter(text[j]) ==> TitleCase(text)[OutIndex(text, j)] == text[j]
  {
    var s := LowerAll(text);
    var c := Capitalise(s);
    CapitaliseSameUpToCase(s);
    ScannedAt(text, j);
    CaseFacts(text[j]);
    CaseFacts(c[j]);
    StripAt(c, j);
  }

  /** A letter at index 0, or right after whitespace, `-` or `/`, comes out upper-case. */
  lemma TitleCaseUpper(text: string, j: nat)
    requires j < |text| && IsLetter(text[j])
    requires j == 0 || IsCapTrigger(text[j - 1])
    ensures OutIndex(text, j) < |TitleCase(text)|
    ensures TitleCase(text)[OutIndex(text, j)] == ToUpper(text[j])
    ensures IsUpper(TitleCase(text)[OutIndex(text, j)])
  {
    var s := LowerAll(text);
    var c := Capitalise(s);
    CaseFacts(text[j]);
    if j > 0 {
      CaseFacts(text[j - 1]);
    }
    CapitaliseUpper(s, j);
    CapitaliseSameUpToCase(s);
    ScannedAt(text, j);
    StripAt(c, j);
  }

  /** A letter right after a `_` that does not itself follow a delimiter comes out upper-case. */
  lemma TitleCaseAfterLoneUnderscore(text: string, j: nat)
    requires 2 <= j < |text| && IsLetter(text[j])
    requires text[j - 1] == '_' && !IsDelimiter(text[j - 2])
    ensures OutIndex(text, j) < |TitleCase(text)|
    ensures TitleCase(text)[OutIndex(text, j)] == ToUpper(text[j])
    ensures IsUpper(TitleCase(text)[OutIndex(text, j)])
  {
    var s := LowerAll(text);
    var c := Capitalise(s);
    CaseFacts(text[j]);
    CaseFacts(text[j - 1]);
    CaseFacts(text[j - 2]);
    CapitaliseAfterLoneUnderscore(s, j);
    CapitaliseSameUpToCase(s);
    ScannedAt(text, j);
    StripAt(c, j);
  }

  /** A letter that is not at index 0 and does not follow a delimiter comes out lower-case. */
  lemma TitleCaseLower(text: string, j: nat)
    requires 0 < j < |text| && IsLetter(text[j])
    requires !IsDelimiter(text[j - 1])
    ensures OutIndex(text, j) < |TitleCase(text)|
    ensures TitleCase(text)[OutIndex(text, j)] == ToLower(text[j])
    ensures IsLower(TitleCase(text)[OutIndex(text, j)])
  {
    var s := LowerAll(text);
    var c := Capitalise(s);
    CaseFacts(text[j]);
    CaseFacts(text[j - 1]);
    CapitaliseKeeps(s, j);
    CapitaliseSameUpToCase(s);
    ScannedAt(text, j);
    StripAt(c, j);
  }

  lemma TitleCaseEmpty()
    ensures TitleCase("") == ""
  {
  }

  /** `_` is itself a word character, so a doubled `_` swallows the capitalisation of what follows. */
  lemma TitleCaseDoubleUnderscore()
    ensures TitleCase("a__b") == "Ab"
  {
    assert LowerAll("a__b") == "a__b";
    assert ScanFrom("b") == "b";
    assert ScanFrom("__b") == "__" + ScanFrom("b");
    assert Capitalise("a__b") == "A" + ScanFrom("__b");
    assert Strip("A__b") == "Ab";
  }

  // ---------------------------------------------------------------------------
  // Evaluating `TitleCase` on words joined by deleted delimiters

  /** A non-empty run of lower-case letters and digits. */
  predicate IsWord(w: string)
  {
    |w| > 0 && forall i :: 0 <= i < |w| ==> IsLower(w[i]) || '0' <= w[i] <= '9'
  }

  /** The word with its first character upper-cased. */
  function Capitalised(w: string): string
    requires |w| > 0
  {
    [ToUpper(w[0])] + w[1..]
  }

  /** Each word preceded by its delimiter: `ds[0] + ws[0] + ds[1] + ws[1] + ...`. */
  function JoinTail(ws: seq<string>, ds: seq<char>): string
    requires |ws| == |ds|
  {
    if ws == [] then [] else [ds[0]] + ws[0] + JoinTail(ws[1..], ds[1..])
  }

  /** The capitalised words, concatenated. */
  function CapitalisedAll(ws: seq<string>): string
    requires forall i :: 0 <= i < |ws| ==> IsWord(ws[i])
  {
    assert ws != [] ==> IsWord(ws[0]);
    if ws == [] then [] else Capitalised(ws[0]) + CapitalisedAll(ws[1..])
  }

  lemma CapitalisedKept(w: string)
    requires IsWord(w)
    ensures Strip(Capitalised(w)) == Capitalised(w)
  {
    StripNone(Capitalised(w));
  }

  /** The scan over a delimiter and a word: the delimiter stays, the word is capitalised. */
  lemma ScanDelimiterWord(d: char, w: string, rest: string)
    requires IsStripped(d) && IsWord(w)
    ensures ScanFrom([d] + w + rest) == [d] + (Capitalised(w) + ScanFrom(rest))
  {
    ScanFromWord(d, w, rest);
    assert ToUpper(d) == d;
    assert [ToUpper(d), ToUpper(w[0])] + w[1..] == [d] + Capitalised(w);
  }

  /** A deleted delimiter followed by a word: the word comes out capitalised, the delimiter gone. */
  lemma StripScanWord(d: char, w: string, rest: string)
    requires IsStripped(d) && IsWord(w)
    ensures Strip(ScanFrom([d] + w + rest)) == Capitalised(w) + Strip(ScanFrom(rest))
  {
    ScanDelimiterWord(d, w, rest);
    StripAppend([d], Capitalised(w) + ScanFrom(rest));
    StripAppend(Capitalised(w), ScanFrom(rest));
    CapitalisedKept(w);
    assert Strip([d]) == [];
  }

  lemma {:induction false} ScanJoinTail(ws: seq<string>, ds: seq<char>)
    requires |ws| == |ds|
    requires forall i :: 0 <= i < |ws| ==> IsWord(ws[i])
    requires forall i :: 0 <= i < |ds| ==> IsStripped(ds[i])
    ensures Strip(ScanFrom(JoinTail(ws, ds))) == CapitalisedAll(ws)
    decreases |ws|
  {
    if ws != [] {
      assert IsWord(ws[0]) && IsStripped(ds[0]);
      StripScanWord(ds[0], ws[0], JoinTail(ws[1..], ds[1..]));
      ScanJoinTail(ws[1..], ds[1..]);
    }
  }

  /**
   * Words of lower-case letters and digits joined by whitespace, `-` or `_`,
   * in any letter case, come out as the words capitalised and run together.
   */
  lemma TitleCaseOfWords(text: string, ws: seq<string>, ds: seq<char>)
    requires |ws| == |ds| + 1
    requires forall i :: 0 <= i < |ws| ==> IsWord(ws[i])
    requires forall i :: 0 <= i < |ds| ==> IsStripped(ds[i])
    requires LowerAll(text) == ws[0] + JoinTail(ws[1..], ds)
    ensures TitleCase(text) == CapitalisedAll(ws)
  {
    var w, rest := ws[0], JoinTail(ws[1..], ds);
    assert IsWord(w);
    assert (w + rest)[1..] == w[1..] + rest;
    ScanFromNoDelimiters(w[1..], rest);
    assert Capitalise(w + rest) == Capitalised(w) + ScanFrom(rest);
    StripAppend(Capitalised(w), ScanFrom(rest));
    CapitalisedKept(w);
    ScanJoinTail(ws[1..], ds);
  }

  lemma TitleCaseOfThreeWords(text: string, a: string, b: string, c: string, d1: char, d2: char)
    requires IsWord(a) && IsWord(b) && IsWord(c) && IsStripped(d1) && IsStripped(d2)
    requires LowerAll(text) == a + [d1] + b + [d2] + c
    ensures TitleCase(text) == Capitalised(a) + Capitalised(b) + Capitalised(c)
  {
    var ws := [a, b, c];
    assert ws[1..] == [b, c];
    assert JoinTail([c], [d2]) == [d2] + c;
    assert JoinTail([b, c], [d1, d2]) == [d1] + b + ([d2] + c);
    assert CapitalisedAll([c]) == Capitalised(c);
    assert CapitalisedAll([b, c]) == Capitalised(b) + Capitalised(c);
    TitleCaseOfWords(text, ws, [d1, d2]);
  }

  lemma TitleCaseOfFourWords(text: string, a: string, b: string, c: string, e: string, d1: char, d2: char, d3: char)
    requires IsWord(a) && IsWord(b) && IsWord(c) && IsWord(e)
    requires IsStripped(d1) && IsStripped(d2) && IsStripped(d3)
    requires LowerAll(text) == a + [d1] + b + [d2] + c + [d3] + e
    ensures TitleCase(text) == Capitalised(a) + Capitalised(b) + Capitalised(c) + Capitalised(e)
  {
    var ws := [a, b, c, e];
    assert ws[1..] == [b, c, e];
    assert JoinTail([e], [d3]) == [d3] + e;
    assert JoinTail([c, e], [d2, d3]) == [d2] + c + ([d3] + e);
    assert JoinTail([b, c, e], [d1, d2, d3]) == [d1] + b + ([d2] + c + ([d3] + e));
    assert CapitalisedAll([e]) == Capitalised(e);
    assert CapitalisedAll([c, e]) == Capitalised(c) + Capitalised(e);
    assert CapitalisedAll([b, c, e]) == Capitalised(b) + (Capitalised(c) + Capitalised(e));
    TitleCaseOfWords(text, ws, [d1, d2, d3]);
  }

  lemma LinzImageryBucketWords()
    ensures IsWord("linz") && IsWord("imagery") && IsWord("bucket") && IsWord("two")
    ensures Capitalised("linz") + Capitalised("imagery") + Capitalised("bucket") == "LinzImageryBucket"
    ensures Capitalised("linz") + Capitalised("imagery") + Capitalised("bucket") + Capitalised("two")
      == "LinzImageryBucketTwo"
  {
  }

  /** The documented examples: `-`, `_` and space separated words give the same name. */
  lemma TitleCaseDocDash()
    ensures TitleCase("linz-imagery-bucket") == "LinzImageryBucket"
  {
    LinzImageryBucketWords();
    assert LowerAll("linz-imagery-bucket") == "linz" + ['-'] + "imagery" + ['-'] + "bucket";
    TitleCaseOfThreeWords("linz-imagery-bucket", "linz", "imagery", "bucket", '-', '-');
  }

  lemma TitleCaseDocUnderscore()
    ensures TitleCase("linz_imagery_bucket") == "LinzImageryBucket"
  {
    LinzImageryBucketWords();
    assert LowerAll("linz_imagery_bucket") == "linz" + ['_'] + "imagery" + ['_'] + "bucket";
    TitleCaseOfThreeWords("linz_imagery_bucket", "linz", "imagery", "bucket", '_', '_');
  }

  lemma TitleCaseDocSpace()
    ensures TitleCase("linz imagery bucket") == "LinzImageryBucket"
  {
    LinzImageryBucketWords();
    assert LowerAll("linz imagery bucket") == "linz" + [' '] + "imagery" + [' '] + "bucket";
    TitleCaseOfThreeWords("linz imagery bucket", "linz", "imagery", "bucket", ' ', ' ');
  }
}
