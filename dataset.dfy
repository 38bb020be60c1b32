/**
 * Naming rules of the `OdrDataset` stack in src/dataset.ts. The stack's CDK
 * resources are not modelled; what is modelled is the plan the constructor
 * follows: the dataset-name check, the names every resource gets from the
 * dataset name, and which of the two cross-account roles are created.
 */
module Dataset {
  import opened Wrappers
  import opened Context
  import Arn

  const LogReaderKey: string := "log-reader-role-arn"
  const DataManagerKey: string := "data-manager-role-arn"

  /** A role to create: its name, and the principal allowed to assume it (the raw context value). */
  datatype RoleSpec = RoleSpec(roleName: string, assumedBy: JsValue)

  datatype DatasetPlan = DatasetPlan(
    datasetName: string,
    bucketName: string,        // the data bucket
    logBucketName: string,     // the bucket receiving S3 access logs
    topicName: string,         // the SNS topic for `object_created` events
    accessLogsPrefix: string,  // where the data bucket's access logs go in the log bucket
    logReader: Option<RoleSpec>,
    dataManager: Option<RoleSpec>)

  datatype DatasetError = NameContainsDot(name: string)

  /** `setupLogReader`: a role only when `log-reader-role-arn` is set (not `null`/`undefined`). */
  function SetupLogReader(datasetName: string, ctx: ContextMap): (r: Option<RoleSpec>)
    ensures r.Some? <==> !IsNullish(TryGetContext(ctx, LogReaderKey))
    ensures r.Some? ==> r.value.assumedBy == TryGetContext(ctx, LogReaderKey)
  {
    var arn := TryGetContext(ctx, LogReaderKey);
    if IsNullish(arn) then None
    else Some(RoleSpec("s3-" + datasetName + "-log-read", arn))
  }

  /** `setupDataManager`: a role only when `data-manager-role-arn` is set (not `null`/`undefined`). */
  function SetupDataManager(datasetName: string, ctx: ContextMap): (r: Option<RoleSpec>)
    ensures r.Some? <==> !IsNullish(TryGetContext(ctx, DataManagerKey))
    ensures r.Some? ==> r.value.assumedBy == TryGetContext(ctx, DataManagerKey)
  {
    var arn := TryGetContext(ctx, DataManagerKey);
    if IsNullish(arn) then None
    else Some(RoleSpec("s3-" + datasetName + "-data-manager", arn))
  }

  /** The `OdrDataset` constructor: refuses a name with `.`, else derives every name from it. */
  function PlanDataset(datasetName: string, ctx: ContextMap): (r: Result<DatasetPlan, DatasetError>)
    ensures r.Failure? <==> '.' in datasetName
    ensures r.Failure? ==> r.error == NameContainsDot(datasetName)
    ensures r.Success? ==>
      (r.value.datasetName == datasetName
       && r.value.logReader == SetupLogReader(datasetName, ctx)
       && r.value.dataManager == SetupDataManager(datasetName, ctx))
  {
    if '.' in datasetName then Failure(NameContainsDot(datasetName))
    else
      Success(DatasetPlan(
        datasetName,
        datasetName,
        datasetName + "-logs",
        datasetName + "-object_created",
        "s3_" + datasetName + "/",
        SetupLogReader(datasetName, ctx),
        SetupDataManager(datasetName, ctx)))
  }

  /** Every name the plan uses: buckets, topic and the roles that are created. */
  function ResourceNames(p: DatasetPlan): seq<string>
  {
    [p.bucketName, p.logBucketName, p.topicName]
      + (if p.logReader.Some? then [p.logReader.value.roleName] else [])
      + (if p.dataManager.Some? then [p.dataManager.value.roleName] else [])
  }

  // ---------------------------------------------------------------------------
  // Properties of a plan

  /** The names follow the fixed templates, each built around the dataset name. */
  lemma PlanTemplates(name: string, ctx: ContextMap)
    requires PlanDataset(name, ctx).Success?
    ensures var p := PlanDataset(name, ctx).value;
      p.bucketName == name
      && p.logBucketName == p.bucketName + "-logs"
      && p.topicName == name + "-object_created"
      && p.accessLogsPrefix == "s3_" + name + "/"
      && (p.logReader.Some? ==> p.logReader.value.roleName == "s3-" + name + "-log-read")
      && (p.dataManager.Some? ==> p.dataManager.value.roleName == "s3-" + name + "-data-manager")
  {
  }

  /** Once the name passes the check, no derived name contains `.`. */
  lemma PlanNamesHaveNoDot(name: string, ctx: ContextMap)
    requires PlanDataset(name, ctx).Success?
    ensures var p := PlanDataset(name, ctx).value;
      forall i :: 0 <= i < |ResourceNames(p)| ==> '.' !in ResourceNames(p)[i]
    ensures '.' !in PlanDataset(name, ctx).value.accessLogsPrefix
  {
  }

  /** Within one plan the two buckets differ, and so do the two roles. */
  lemma PlanNamesDistinct(name: string, ctx: ContextMap)
    requires PlanDataset(name, ctx).Success?
    ensures var p := PlanDataset(name, ctx).value;
      p.logBucketName != p.bucketName
      && (p.logReader.Some? && p.dataManager.Some? ==> p.logReader.value.roleName != p.dataManager.value.roleName)
  {
  }

  /** Putting the same text around two strings keeps them apart. */
  lemma WrapInjective(pre: string, x: string, y: string, post: string)
    requires pre + x + post == pre + y + post
    ensures x == y
  {
    var s := pre + x + post;
    assert |x| == |y|;
    assert x == s[|pre|..|pre| + |x|];
    assert y == (pre + y + post)[|pre|..|pre| + |y|];
  }

  /** Distinct dataset names never share a data bucket, log bucket, topic or role name. */
  lemma PlanInjective(a: string, b: string, ctx: ContextMap)
    requires PlanDataset(a, ctx).Success? && PlanDataset(b, ctx).Success? && a != b
    ensures var p, q := PlanDataset(a, ctx).value, PlanDataset(b, ctx).value;
      p.bucketName != q.bucketName && p.logBucketName != q.logBucketName && p.topicName != q.topicName
      && p.accessLogsPrefix != q.accessLogsPrefix
      && (p.logReader.Some? && q.logReader.Some? ==> p.logReader.value.roleName != q.logReader.value.roleName)
      && (p.dataManager.Some? && q.dataManager.Some? ==> p.dataManager.value.roleName != q.dataManager.value.roleName)
  {
    assert "" + a == a && "" + b == b;
    if a + "-logs" == b + "-logs" { WrapInjective("", a, b, "-logs"); }
    if a + "-object_created" == b + "-object_created" { WrapInjective("", a, b, "-object_created"); }
    if "s3_" + a + "/" == "s3_" + b + "/" { WrapInjective("s3_", a, b, "/"); }
    if "s3-" + a + "-log-read" == "s3-" + b + "-log-read" { WrapInjective("s3-", a, b, "-log-read"); }
    if "s3-" + a + "-data-manager" == "s3-" + b + "-data-manager" { WrapInjective("s3-", a, b, "-data-manager"); }
  }

  /**
   * Injectivity holds only between names of the same kind. Bucket names are
   * global, and the data bucket of dataset `<name>-logs` is the log bucket of
   * dataset `<name>`.
   */
  lemma LogBucketCollides(name: string, ctx: ContextMap)
    requires PlanDataset(name, ctx).Success?
    ensures PlanDataset(name + "-logs", ctx).Success?
    ensures PlanDataset(name + "-logs", ctx).value.bucketName == PlanDataset(name, ctx).value.logBucketName
  {
    assert '.' !in "-logs";
  }

  /** Each role depends on its own context key only: the other key's absence does not suppress it. */
  lemma RolesIndependent(name: string, ctx1: ContextMap, ctx2: ContextMap)
    ensures TryGetContext(ctx1, LogReaderKey) == TryGetContext(ctx2, LogReaderKey)
      ==> SetupLogReader(name, ctx1) == SetupLogReader(name, ctx2)
    ensures TryGetContext(ctx1, DataManagerKey) == TryGetContext(ctx2, DataManagerKey)
      ==> SetupDataManager(name, ctx1) == SetupDataManager(name, ctx2)
  {
  }

  /**
   * The trusted principal is not run through role-ARN validation: a context
   * value the validator refuses still yields a role trusting that value.
   */
  lemma RoleTrustsUnvalidatedValue(name: string)
    ensures var ctx := map[LogReaderKey := JsString("ABC"), DataManagerKey := JsNumber(1)];
      Arn.ValidateRoleArn(JsString("ABC")).Failure? && Arn.ValidateRoleArn(JsNumber(1)).Failure?
      && SetupLogReader(name, ctx) == Some(RoleSpec("s3-" + name + "-log-read", JsString("ABC")))
      && SetupDataManager(name, ctx) == Some(RoleSpec("s3-" + name + "-data-manager", JsNumber(1)))
  {
  }
}
