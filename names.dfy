/**
 * `titleCase` of src/names.ts, the copy the tests import. The function is a
 * byte-for-byte copy of the one in src/util/names.ts (only the doc comments
 * differ), so it is modelled by that module's definition and inherits every
 * property proved there.
 */
module Names {
  import opened Text
  import UtilNames

  function TitleCase(text: string): (r: string)
    ensures forall i :: 0 <= i < |r| ==> !IsStripped(r[i])
  {
    UtilNames.TitleCase(text)
  }

  /** Dash, underscore (with a capital in the input) and space separated words. */
  lemma TitleCaseTestDash()
    ensures TitleCase("linz-imagery-bucket") == "LinzImageryBucket"
  {
    UtilNames.TitleCaseDocDash();
  }

  lemma TitleCaseTestUnderscore()
    ensures TitleCase("linz_imagery_Bucket") == "LinzImageryBucket"
  {
    UtilNames.LinzImageryBucketWords();
    assert LowerAll("linz_imagery_Bucket") == "linz" + ['_'] + "imagery" + ['_'] + "bucket";
    UtilNames.TitleCaseOfThreeWords("linz_imagery_Bucket", "linz", "imagery", "bucket", '_', '_');
  }

  lemma TitleCaseTestSpace()
    ensures TitleCase("linz imagery bucket") == "LinzImageryBucket"
  {
    UtilNames.TitleCaseDocSpace();
  }

  /** A mixture of `_`, space and `-`. */
  lemma TitleCaseTestMixed()
    ensures TitleCase("linz_imagery bucket-two") == "LinzImageryBucketTwo"
  {
    UtilNames.LinzImageryBucketWords();
    assert LowerAll("linz_imagery bucket-two") == "linz" + ['_'] + "imagery" + [' '] + "bucket" + ['-'] + "two";
    UtilNames.TitleCaseOfFourWords("linz_imagery bucket-two", "linz", "imagery", "bucket", "two", '_', ' ', '-');
  }
}
