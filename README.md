# Naming and role-ARN rules of the LINZ open-data registry stacks

This project models, in Dafny, the three pieces of logic in the open-data
registry's CDK app that are more than resource wiring, and proves what they
promise:

- **Role-ARN validation** (`src/util/arn.ts`). `validateRoleArn` accepts a
  value of unknown type and applies its checks in order. It refuses anything
  that is not a string. It refuses any string holding `*`. It splits the ARN
  with `Arn.split(…, ArnFormat.SLASH_RESOURCE_NAME)` and demands service
  `iam` and resource `role`. Every failure from the split onwards becomes
  one "Failed to parse ARN" error that names the input. `tryGetContextArn`
  reads a context key, treats `null`/`undefined` as absent, and otherwise
  returns the raw value once it validates. The untyped value is the
  `JsValue` datatype, exceptions are `Result` values, and the construct
  context is a map parameter (module `Context`).
- **`titleCase`** (`src/util/names.ts`, and its copy `src/names.ts`). It
  lower-cases the text, upper-cases every match of the global regex
  `/(?:^|[\s-_/])\w/g`, then deletes every `[\s-_]`. The regex scan is
  modelled as it runs: left to right, without overlaps, with `^` only at
  index 0 (`Text.Capitalise`, `Text.ScanFrom`). `_` is both a delimiter and
  a word character, so a doubled `_` swallows the capital of what follows:
  `titleCase("a__b") == "Ab"`.
- **Dataset naming** (`src/dataset.ts`). The `OdrDataset` constructor is
  modelled as a plan function. It refuses dataset names containing `.` and
  derives the data bucket, log bucket, topic and access-log prefix from the
  dataset name. The two cross-account roles, `s3-<name>-log-read` and
  `s3-<name>-data-manager`, are created only when their context key is set.

`Arn.split` is library code and is not part of this model. It is specified
from the public ARN layout
`arn:partition:service:region:account-id:resource-type/resource-id`. The text
must start with `arn:` and hold at least five `:`. Everything after the fifth
`:` is the resource part, and it is cut at its first `/`. `Arn.Format` is the
inverse of this split, and the validator's guarantees are stated relative to
the split.

Files: `wrappers.dfy` (Option, Result), `context.dfy` (JsValue, context
lookup), `text.dfy` (ASCII character classes and the three string steps),
`util_names.dfy`, `names.dfy`, `arn.dfy`, `dataset.dfy`.

Two behaviours of the source are easy to miss, and the model keeps both:
- `_` is both in the delimiter class `[\s-_/]` and in `\w`. So in `a__b` the second `_` is consumed as the
  word character of a match, and the `b` after it stays lower-case (src/util/names.ts:17).
- A split failure, a service other than `iam` and a resource type other than `role` are all re-thrown
  as the one "Failed to parse ARN" error (src/util/arn.ts:13-20). The model keeps the reason only as
  that error's `cause`.

The construct-tree context (`this.node.tryGetContext(key)`) is a finite map from keys to values,
passed in explicitly. A key with no entry reads as `undefined`.

## Model

| member | source | states |
|---|---|---|
| `Arn.ValidateRoleArn` | src/util/arn.ts:10-21 | A non-string is refused with the not-a-string error. A string with `*` is refused with the wildcard error, not the wrapped one. The value is accepted iff the split succeeds with service `iam` and resource `role`, and then the split's own record is returned. Every other failure is the one parse error carrying the input. |
| `Arn.TryGetContextArn` | src/util/arn.ts:29-34 | A null or missing context value gives "absent" without validation. Any other value fails exactly when the validator refuses it, with the validator's error. When the validator accepts it, the raw context string is returned, not its components. |
| `Arn.Split` | src/util/arn.ts:14 | A text not starting with `arn:` is refused as such. The fields returned hold no `:`, and the resource type no `/`. `FormatSplit`, `SplitFormat` and `SplitSucceedsIff` characterise it fully as the inverse of `Format`. |
| `Arn.FormatSplit` | src/util/arn.ts:14 | Whatever the split accepts is the text of the components it returns, and those components are well formed. |
| `Arn.SplitFormat` | src/util/arn.ts:14 | The split recovers every well-formed set of components from its text (round trip). |
| `Arn.SplitSucceedsIff` | src/util/arn.ts:14 | The split succeeds exactly on the texts of well-formed components. |
| `Arn.CutAtFirst` | src/util/arn.ts:14 | Cutting at a separator finds its first occurrence: the part before holds no separator. |
| `Arn.ValidatedShape` | src/util/arn.ts:11-17 | An accepted value is a `*`-free string. It is exactly `arn:<partition>:iam:<region>:<account>:role…` built from the returned components. |
| `Arn.AcceptsRoleArnText` | src/util/arn.ts:13-17 | Conversely, the `*`-free text of well-formed components with service `iam` and resource `role` is accepted, and those components are returned. |
| `Arn.ContextArnIsRoleArn` | src/util/arn.ts:29-33 | A non-null result of the context lookup is a `*`-free string whose split gives service `iam` and resource `role`. |
| `Arn.RejectsNonRoleTexts` | src/__test__/arn.test.ts:7-10 | `''` and `'ABC'` fail with the wrapped parse error. `1` and `null` fail as non-strings. |
| `Arn.AcceptsAccountAdminRole` | src/__test__/arn.test.ts:14-17 | `arn:aws:iam::1234567890:role/AccountAdminRole` is accepted with partition `aws`, service `iam`, resource `role`. |
| `Arn.RejectsWildcardRole` | src/__test__/arn.test.ts:21 | `arn:aws:iam::1234567890:role/*` is refused by the wildcard check. |
| `Text.LowerAll` | src/util/names.ts:16 | `toLowerCase` keeps the length, changes nothing but letter case, and leaves no upper-case letter. |
| `Text.LowerAllUnique` | src/util/names.ts:16 | Those three facts pin the result down: any string with them is the lower-cased input. |
| `Text.Strip` | src/util/names.ts:18 | The result holds no whitespace, `-` or `_`. Its length is the input's minus the characters deleted. |
| `Text.StripAt` | src/util/names.ts:18 | A kept character at input index `j` lands at output index `j` minus the deletions before it, so kept characters stay in order. |
| `Text.StripLowerAll` | src/util/names.ts:16-18 | Deleting `[\s-_]` commutes with lower-casing. |
| `Text.Capitalise` | src/util/names.ts:17 | The regex replacement keeps the length. `CapitaliseSameUpToCase` proves that only case changes. `CapitaliseUpper` and `CapitaliseAfterLoneUnderscore` show which characters are upper-cased, and `CapitaliseKeeps` which are left alone. After a `_` that itself follows a delimiter, the outcome depends on whether an earlier match consumed that `_` (see `TitleCaseDoubleUnderscore`). |
| `Text.ScanFromSameUpToCase` | src/util/names.ts:17 | The regex replacement changes only the case of characters. |
| `Text.CapitaliseSameUpToCase` | src/util/names.ts:17 | The same for the whole scan, including the `^` match at index 0. |
| `Text.CapitaliseUpper` | src/util/names.ts:17 | A word character at index 0, or right after whitespace, `-` or `/`, is upper-cased by the scan. |
| `Text.CapitaliseAfterLoneUnderscore` | src/util/names.ts:17 | A word character right after a `_` that does not itself follow a delimiter is upper-cased by the scan. That `_` starts a match. |
| `Text.CapitaliseKeeps` | src/util/names.ts:17 | A character whose predecessor is not in `[\s-_/]` is left as it is by the scan. |
| `UtilNames.TitleCase` | src/util/names.ts:14-19 | The output contains no whitespace, `-` or `_`. |
| `UtilNames.TitleCaseContent` | src/util/names.ts:15-18 | Lower-cased, the output is the lower-cased input with exactly its `[\s-_]` characters deleted. `/` and all other characters survive in order, and the output length is the input length minus the deletions. |
| `UtilNames.TitleCaseKeeps` | src/util/names.ts:15-18 | Every kept input character appears at its output index up to case; a non-letter (such as `/`) appears unchanged. |
| `UtilNames.TitleCaseIgnoresCase` | src/util/names.ts:16 | `titleCase(x) == titleCase(lower(x))`. |
| `UtilNames.TitleCaseUpper` | src/util/names.ts:17 | A letter at index 0, or right after whitespace, `-` or `/`, is upper-case in the output. |
| `UtilNames.TitleCaseAfterLoneUnderscore` | src/util/names.ts:16-18 | A letter right after a `_` that does not itself follow a delimiter comes out upper-case. |
| `UtilNames.TitleCaseLower` | src/util/names.ts:16-17 | A letter not at index 0 and not right after a delimiter is lower-case in the output. |
| `UtilNames.TitleCaseEmpty` | src/util/names.ts:15-18 | The empty string maps to the empty string. |
| `UtilNames.TitleCaseDoubleUnderscore` | src/util/names.ts:17 | `titleCase("a__b") == "Ab"`: the second `_` is consumed as the match's word character. |
| `UtilNames.TitleCaseOfWords` | src/util/names.ts:15-18 | Words of lower-case letters and digits joined by whitespace, `-` or `_`, in any case, give the capitalised words run together. |
| `UtilNames.TitleCaseDocDash` | src/util/names.ts:6 | `linz-imagery-bucket` gives `LinzImageryBucket`. |
| `UtilNames.TitleCaseDocUnderscore` | src/util/names.ts:7 | `linz_imagery_bucket` gives `LinzImageryBucket`. |
| `UtilNames.TitleCaseDocSpace` | src/util/names.ts:8 | `linz imagery bucket` gives `LinzImageryBucket`. |
| `Names.TitleCase` | src/names.ts:12-17 | A byte-for-byte copy of the function at src/util/names.ts:14-19, defined as that function, so every `UtilNames` property above holds of it. The output contains no whitespace, `-` or `_`. |
| `Names.TitleCaseTestDash` | src/__test__/name.test.ts:7 | `linz-imagery-bucket` gives `LinzImageryBucket`. |
| `Names.TitleCaseTestUnderscore` | src/__test__/name.test.ts:8 | `linz_imagery_Bucket` gives `LinzImageryBucket`. |
| `Names.TitleCaseTestSpace` | src/__test__/name.test.ts:9 | `linz imagery bucket` gives `LinzImageryBucket`. |
| `Names.TitleCaseTestMixed` | src/__test__/name.test.ts:13 | `linz_imagery bucket-two` gives `LinzImageryBucketTwo`. |
| `Dataset.PlanDataset` | src/dataset.ts:25-102 | The dataset's own name check (src/dataset.ts:29) fails exactly when the name contains `.`, with that name. On success the plan's roles are those of the two setup steps. |
| `Dataset.SetupLogReader` | src/dataset.ts:105-118 | The log-reader role exists iff `log-reader-role-arn` is not null/undefined, and it trusts that raw value. |
| `Dataset.SetupDataManager` | src/dataset.ts:121-136 | The data-manager role exists iff `data-manager-role-arn` is not null/undefined, and it trusts that raw value. |
| `Dataset.PlanTemplates` | src/dataset.ts:31-130 | The data bucket is the dataset name and the log bucket is that name plus `-logs`. The topic is name + `-object_created` and the log prefix is `s3_` + name + `/`. The roles are `s3-<name>-log-read` and `s3-<name>-data-manager`. |
| `Dataset.PlanNamesHaveNoDot` | src/dataset.ts:29-130 | After a successful check, no bucket, topic, prefix or role name contains `.`. |
| `Dataset.PlanNamesDistinct` | src/dataset.ts:32-130 | In one plan the log bucket differs from the data bucket, and the two role names differ. |
| `Dataset.PlanInjective` | src/dataset.ts:32-130 | Two distinct dataset names never share a derived name of the same kind: data bucket, log bucket, topic, log prefix or role name. |
| `Dataset.LogBucketCollides` | src/dataset.ts:32-41 | Across kinds, names do collide: the data bucket of dataset `<name>-logs` is the log bucket of dataset `<name>`, and both datasets pass the dot check. |
| `Dataset.WrapInjective` | src/dataset.ts:32-130 | Fixed text around two names keeps them apart: equal wrapped names mean equal names. |
| `Dataset.RolesIndependent` | src/dataset.ts:100-101 | Each role depends only on its own context key, so a missing key does not suppress the other role. |
| `Dataset.RoleTrustsUnvalidatedValue` | src/dataset.ts:106-114 | The trusted principal is not validated. A value the validator refuses (`"ABC"`, `1`) still yields a role that trusts that value. |

## Left out

- `Arn.Split`: this is the minimal ARN-layout model of the library's `Arn.split`, not the library code. The library also refuses an empty partition, service or resource. It resolves CDK tokens and supports the other `ArnFormat`s. With extra `:` fields it uses only the sixth field as the resource and adds the rest to the resource name. It also reads a resource part that starts with `/` as `/type/name`, so `arn:aws:iam::1:/role/x` gets resource `role` there and is accepted. The model instead cuts everything after the fifth `:` at its first `/`, so it gets resource `""` for that text and refuses it.
- `getArnPrincipal` and `tryGetContextArns`: src/trail.ts imports them, but the `src/util/arn.ts` in this repository does not define them, so there is nothing to model.
- Unicode: case mapping and `\s` cover ASCII only (space, tab, line feed, vertical tab, form feed, carriage return). JavaScript's full Unicode `toLowerCase`, `toUpperCase` and non-ASCII whitespace are not modelled.
- Error messages: the text of each error, `console.error` logging (src/dataset.ts:108, 125) and the JavaScript `cause` chain are not modelled. Each error is a datatype variant; the wrapped error keeps its reason as a `cause` field.
- CDK resources: bucket, topic and role options, lifecycle rules, CORS, policy statements, grants, event notifications and `CfnOutput` (src/dataset.ts:31-98, 111-117, 128-135) are declarations handed to the CDK library. Only the names and the role decisions are modelled.
- `Dataset.PlanDataset`: does not model the name checks of the CDK library. `Bucket` refuses a bucket name that is not 3 to 63 characters of `[a-z0-9.-]`, and `Role` refuses a role name longer than 64 characters. Names such as `NZ_Imagery` or `ab`, or a long name while `data-manager-role-arn` is set, fail there. The model only promises the outcome of the dataset's own dot check.
- Construction order: `OdrDataset` assigns its fields step by step. The plan is one record, so the order of assignment is not modelled.
- src/console.ts (context-gated roles with managed policies), src/trail.ts (trail wiring) and src/index.ts (app assembly) hold no naming or validation logic. They are not part of this model.
- Numbers in `JsValue` are integers. JavaScript floating point is not modelled, and it does not matter, since any number is refused as a non-string.
