/**
 * Role-ARN validation of src/util/arn.ts.
 *
 * `Arn.split(arn, ArnFormat.SLASH_RESOURCE_NAME)` belongs to the CDK library
 * and is modelled here from the public ARN layout
 * `arn:partition:service:region:account-id:resource-type/resource-id`:
 * the text must start with `arn:` and hold at least five `:`; everything
 * after the fifth `:` is the resource part, cut at its first `/`.
 */
module Arn {
  import opened Wrappers
  import opened Context

  datatype ArnComponents = ArnComponents(
    partition: string,
    service: string,
    region: string,
    account: string,
    resource: string,
    resourceName: Option<string>)

  datatype SplitError = MissingArnPrefix | TooFewComponents

  /** Why the code inside the `try` failed; all three are wrapped into one error. */
  datatype ParseCause = SplitFailed(splitError: SplitError) | NotIamService | NotRoleResource

  datatype ArnError =
    | NotAString                                  // 'Failed to parse ARN, is not a string'
    | ContainsWildcard(arn: string)               // 'ARN cannot include "*" ...'
    | ParseFailed(arn: string, cause: ParseCause) // 'Failed to parse ARN: "..."', with `cause`

  /** A cut of a string at the first occurrence of a separator. */
  datatype Cut = Cut(before: string, after: string)

  /** The text before the first `sep` and the text after it, or `None` when there is no `sep`. */
  function CutAt(s: string, sep: char): (r: Option<Cut>)
    ensures r.None? <==> sep !in s
    ensures r.Some? ==> sep !in r.value.before && s == r.value.before + [sep] + r.value.after
  {
    if s == [] then None
    else if s[0] == sep then Some(Cut([], s[1..]))
    else match CutAt(s[1..], sep)
      case None => None
      case Some(c) => Some(Cut([s[0]] + c.before, c.after))
  }

  /** `Arn.split(arn, ArnFormat.SLASH_RESOURCE_NAME)`. */
  function Split(s: string): (r: Result<ArnComponents, SplitError>)
    // a text not starting with `arn:` is refused before its fields are looked at
    ensures |s| < 4 || s[..4] != "arn:" ==> r == Failure(MissingArnPrefix)
    // the fields it returns hold no `:`, and the resource type no `/`
    ensures r.Success? ==> WellFormed(r.value)
  {
    if |s| < 4 || s[..4] != "arn:" then Failure(MissingArnPrefix)
    else match CutAt(s[4..], ':')
      case None => Failure(TooFewComponents)
      case Some(c1) => match CutAt(c1.after, ':')
      case None => Failure(TooFewComponents)
      case Some(c2) => match CutAt(c2.after, ':')
      case None => Failure(TooFewComponents)
      case Some(c3) => match CutAt(c3.after, ':')
      case None => Failure(TooFewComponents)
      case Some(c4) =>
        var resourcePart := c4.after;
        match CutAt(resourcePart, '/')
        case None => Success(ArnComponents(c1.before, c2.before, c3.before, c4.before, resourcePart, None))
        case Some(c5) => Success(ArnComponents(c1.before, c2.before, c3.before, c4.before, c5.before, Some(c5.after)))
  }

  /** The ARN text of a set of components: the inverse of `Split`. */
  function Format(c: ArnComponents): string
  {
    "arn:" + (c.partition + ":" + (c.service + ":" + (c.region + ":" + (c.account + ":" + ResourceText(c)))))
  }

  /** The resource part: the resource type, then `/` and the resource name when there is one. */
  function ResourceText(c: ArnComponents): string
  {
    match c.resourceName
    case None => c.resource
    case Some(name) => c.resource + "/" + name
  }

  /** Components `Split` can produce: the four leading fields hold no `:`, the resource type no `/`. */
  predicate WellFormed(c: ArnComponents)
  {
    ':' !in c.partition && ':' !in c.service && ':' !in c.region && ':' !in c.account && '/' !in c.resource
  }

  /** `validateRoleArn`: the components of an IAM role ARN, or the error the source throws. */
  function ValidateRoleArn(v: JsValue): (r: Result<ArnComponents, ArnError>)
    // a non-string is refused before anything else is looked at
    ensures !v.JsString? ==> r == Failure(NotAString)
    // so is a string holding `*`, with its own error, not the wrapped parse error
    ensures v.JsString? && '*' in v.str ==> r == Failure(ContainsWildcard(v.str))
    // accepted exactly when the split succeeds with service `iam` and resource `role` ...
    ensures r.Success? <==>
      v.JsString? && '*' !in v.str && Split(v.str).Success?
      && Split(v.str).value.service == "iam" && Split(v.str).value.resource == "role"
    // ... and then the split's own record is returned
    ensures r.Success? ==> Split(v.str) == Success(r.value)
    // every later failure is the one wrapped error naming the input
    ensures v.JsString? && '*' !in v.str && r.Failure? ==> r.error.ParseFailed? && r.error.arn == v.str
  {
    if !v.JsString? then Failure(NotAString)
    else
      var arn := v.str;
      if '*' in arn then Failure(ContainsWildcard(arn))
      else match Split(arn)
        case Failure(e) => Failure(ParseFailed(arn, SplitFailed(e)))
        case Success(components) =>
          if components.service != "iam" then Failure(ParseFailed(arn, NotIamService))
          else if components.resource != "role" then Failure(ParseFailed(arn, NotRoleResource))
          else Success(components)
  }

  /**
   * `tryGetContextArn`: `None` when the context value is `null` or missing;
   * otherwise the value itself, once it validates as a role ARN.
   */
  function TryGetContextArn(ctx: ContextMap, key: string): (r: Result<Option<string>, ArnError>)
    // a `null` or missing value is "absent", and is not validated
    ensures IsNullish(TryGetContext(ctx, key)) ==> r == Success(None)
    // any other value fails exactly when it does not validate, with the validator's own error
    ensures !IsNullish(TryGetContext(ctx, key)) ==>
      r.Failure? == ValidateRoleArn(TryGetContext(ctx, key)).Failure?
      && (r.Failure? ==> r.error == ValidateRoleArn(TryGetContext(ctx, key)).error)
    // a value that validates is handed back as the raw context string, not its components
    ensures !IsNullish(TryGetContext(ctx, key)) && ValidateRoleArn(TryGetContext(ctx, key)).Success? ==>
      r == Success(Some(TryGetContext(ctx, key).str))
    ensures r.Success? && r.value.Some? ==> key in ctx && ctx[key] == JsString(r.value.value)
  {
    var value := TryGetContext(ctx, key);
    if IsNullish(value) then Success(None)
    else match ValidateRoleArn(value)
      case Failure(e) => Failure(e)
      case Success(_) => Success(Some(value.str))
  }

  // ---------------------------------------------------------------------------
  // The splitter and its inverse

  lemma {:induction false} CutAtFirst(x: string, sep: char, y: string)
    requires sep !in x
    ensures CutAt(x + [sep] + y, sep) == Some(Cut(x, y))
    decreases |x|
  {
    var s := x + [sep] + y;
    if x == [] {
      assert s == [sep] + y;
      assert s[1..] == y;
    } else {
      assert s[0] == x[0] && s[0] != sep;
      assert s[1..] == x[1..] + [sep] + y;
      CutAtFirst(x[1..], sep, y);
      assert [x[0]] + x[1..] == x;
    }
  }

  /** Whatever `Split` accepts is the text of the components it returns. */
  lemma FormatSplit(s: string)
    requires Split(s).Success?
    ensures WellFormed(Split(s).value) && Format(Split(s).value) == s
  {
    var c1 := CutAt(s[4..], ':').value;
    var c2 := CutAt(c1.after, ':').value;
    var c3 := CutAt(c2.after, ':').value;
    var c4 := CutAt(c3.after, ':').value;
    var c := Split(s).value;
    assert ResourceText(c) == c4.after by {
      match CutAt(c4.after, '/')
      case None =>
      case Some(c5) =>
    }
    assert c3.after == c.account + ":" + ResourceText(c);
    assert c2.after == c.region + ":" + c3.after;
    assert c1.after == c.service + ":" + c2.after;
    assert s[4..] == c.partition + ":" + c1.after;
    assert s == s[..4] + s[4..];
  }

  /** `Split` recovers every well-formed set of components from its text. */
  lemma SplitFormat(c: ArnComponents)
    requires WellFormed(c)
    ensures Split(Format(c)) == Success(c)
  {
    var r3 := c.account + ":" + ResourceText(c);
    var r2 := c.region + ":" + r3;
    var r1 := c.service + ":" + r2;
    var s := Format(c);
    assert s == "arn:" + (c.partition + ":" + r1);
    assert s[..4] == "arn:";
    assert s[4..] == c.partition + ":" + r1;
    CutAtFirst(c.partition, ':', r1);
    CutAtFirst(c.service, ':', r2);
    CutAtFirst(c.region, ':', r3);
    CutAtFirst(c.account, ':', ResourceText(c));
    match c.resourceName
    case None =>
    case Some(name) =>
      CutAtFirst(c.resource, '/', name);
  }

  /** `Split` succeeds exactly on the texts of well-formed components. */
  lemma SplitSucceedsIff(s: string)
    ensures Split(s).Success? <==> exists c :: WellFormed(c) && Format(c) == s
  {
    if Split(s).Success? {
      FormatSplit(s);
    } else if c :| WellFormed(c) && Format(c) == s {
      SplitFormat(c);
    }
  }

  // ---------------------------------------------------------------------------
  // What an accepted ARN looks like

  /** An accepted value is a `*`-free string spelling out an IAM role ARN. */
  lemma ValidatedShape(v: JsValue)
    requires ValidateRoleArn(v).Success?
    ensures var c := ValidateRoleArn(v).value;
      v.JsString? && '*' !in v.str && WellFormed(c) && c.service == "iam" && c.resource == "role"
      && v.str == Format(c)
  {
    FormatSplit(v.str);
  }

  /** Conversely, the `*`-free text of well-formed IAM role components is accepted, with those components. */
  lemma AcceptsRoleArnText(c: ArnComponents)
    requires WellFormed(c) && c.service == "iam" && c.resource == "role" && '*' !in Format(c)
    ensures ValidateRoleArn(JsString(Format(c))) == Success(c)
  {
    SplitFormat(c);
  }

  /** A role ARN obtained from the context is a `*`-free string whose service is `iam` and resource `role`. */
  lemma ContextArnIsRoleArn(ctx: ContextMap, key: string)
    requires TryGetContextArn(ctx, key).Success? && TryGetContextArn(ctx, key).value.Some?
    ensures var s := TryGetContextArn(ctx, key).value.value;
      '*' !in s && Split(s).Success? && Split(s).value.service == "iam"
      && Split(s).value.resource == "role" && ValidateRoleArn(JsString(s)).Success?
  {
  }

  // ---------------------------------------------------------------------------
  // The cases the tests pin down

  lemma RejectsNonRoleTexts()
    ensures ValidateRoleArn(JsString("")) == Failure(ParseFailed("", SplitFailed(MissingArnPrefix)))
    ensures ValidateRoleArn(JsString("ABC")) == Failure(ParseFailed("ABC", SplitFailed(MissingArnPrefix)))
    ensures ValidateRoleArn(JsNumber(1)) == Failure(NotAString)
    ensures ValidateRoleArn(JsNull) == Failure(NotAString)
  {
  }

  /**
   * The role ARN the tests accept, assembled from its fields one `:` at a time.
   * Each joining of two string literals is stated on its own below, since a
   * single proof obligation holding them all is beyond the solver's budget.
   */
  lemma AccountAdminRoleFormat(c: ArnComponents)
    requires c == ArnComponents("aws", "iam", "", "1234567890", "role", Some("AccountAdminRole"))
    ensures Format(c) == "arn:aws:iam::1234567890:role/AccountAdminRole"
  {
    JoinedResource();
    JoinedAccount();
    assert "" + ":" == ":";
    JoinedRegion();
    JoinedService();
    JoinedPartition();
    JoinedPrefix();
  }

  lemma JoinedResource()
    ensures "role" + "/" + "AccountAdminRole" == "role/AccountAdminRole"
  {
  }

  lemma JoinedAccount()
    ensures "1234567890" + ":" + "role/AccountAdminRole" == "1234567890:role/AccountAdminRole"
  {
  }

  lemma JoinedRegion()
    ensures ":" + "1234567890:role/AccountAdminRole" == ":1234567890:role/AccountAdminRole"
  {
  }

  lemma JoinedService()
    ensures "iam" + ":" + ":1234567890:role/AccountAdminRole" == "iam::1234567890:role/AccountAdminRole"
  {
  }

  lemma JoinedPartition()
    ensures "aws" + ":" + "iam::1234567890:role/AccountAdminRole" == "aws:iam::1234567890:role/AccountAdminRole"
  {
  }

  lemma JoinedPrefix()
    ensures "arn:" + "aws:iam::1234567890:role/AccountAdminRole" == "arn:aws:iam::1234567890:role/AccountAdminRole"
  {
  }

  /** A formatted ARN holds a `*` only if one of its components does. */
  lemma FormatWildcardFree(c: ArnComponents)
    requires '*' !in c.partition && '*' !in c.service && '*' !in c.region && '*' !in c.account
    requires '*' !in c.resource && (c.resourceName.Some? ==> '*' !in c.resourceName.value)
    ensures '*' !in Format(c)
  {
  }

  lemma AccountAdminRoleComponents(c: ArnComponents)
    requires c == ArnComponents("aws", "iam", "", "1234567890", "role", Some("AccountAdminRole"))
    ensures WellFormed(c) && c.service == "iam" && c.resource == "role" && '*' !in Format(c)
  {
    FormatWildcardFree(c);
  }

  lemma AcceptsAccountAdminRole()
    ensures var r := ValidateRoleArn(JsString("arn:aws:iam::1234567890:role/AccountAdminRole"));
      r == Success(ArnComponents("aws", "iam", "", "1234567890", "role", Some("AccountAdminRole")))
      && r.value.partition == "aws" && r.value.service == "iam" && r.value.resource == "role"
  {
    var c := ArnComponents("aws", "iam", "", "1234567890", "role", Some("AccountAdminRole"));
    AccountAdminRoleComponents(c);
    AccountAdminRoleFormat(c);
    AcceptsRoleArnText(c);
  }

  lemma RejectsWildcardRole()
    ensures ValidateRoleArn(JsString("arn:aws:iam::1234567890:role/*"))
      == Failure(ContainsWildcard("arn:aws:iam::1234567890:role/*"))
  {
    assert "arn:aws:iam::1234567890:role/*"[29] == '*';
  }
}
