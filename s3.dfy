/** The S3 side of provisioning (tools/infrasys/src/s3.rs): the prefix under which root.json
    is published, creation of the bucket stack, the bucket policy that lets a VPC endpoint
    read that prefix, and the upload of root.json. */
module S3 {
  import opened Wrappers
  import opened Effects
  import opened BucketPolicy

  // ---------------------------------------------------------------- prefix

  predicate StartsWithSlash(s: string) {
    |s| > 0 && s[0] == '/'
  }

  /** format_prefix: the configured prefix with a leading '/'. The trailing slash and slash-star the
      function computes strips for are discarded, so they are kept in the result. */
  function FormatPrefix(prefix: string): (r: string)
    ensures StartsWithSlash(r)
    ensures |r| == |prefix| || |r| == |prefix| + 1
    ensures r[|r| - |prefix|..] == prefix
  {
    if StartsWithSlash(prefix) then prefix else "/" + prefix
  }

  /** A prefix is left as it is exactly when it already starts with '/'; otherwise exactly
      one '/' is put in front of it. */
  lemma FormatPrefixChanges(prefix: string)
    ensures FormatPrefix(prefix) == prefix <==> StartsWithSlash(prefix)
    ensures !StartsWithSlash(prefix) ==> FormatPrefix(prefix) == "/" + prefix
  {
    var r := FormatPrefix(prefix);
    if !StartsWithSlash(prefix) {
      assert |r| == |prefix| + 1;
      assert r == [r[0]] + r[1..];
    }
  }

  lemma FormatPrefixIdempotent(prefix: string)
    ensures FormatPrefix(FormatPrefix(prefix)) == FormatPrefix(prefix)
  {
    FormatPrefixChanges(FormatPrefix(prefix));
  }

  /** Trailing separators and wildcards survive. */
  lemma FormatPrefixKeepsTrailing()
    ensures FormatPrefix("tuf/") == "/tuf/"
    ensures FormatPrefix("/tuf/*") == "/tuf/*"
    ensures FormatPrefix("tuf") == "/tuf"
    ensures FormatPrefix("") == "/"
  {
    assert "tuf/"[0] == 't' && "tuf"[0] == 't';
    assert "/" + "tuf/" == "/tuf/";
    assert "/" + "tuf" == "/tuf";
    assert "/" + "" == "/";
    assert "/tuf/*"[0] == '/';
  }

  // ---------------------------------------------------------------- bucket stack

  /** The outputs of a created bucket stack. */
  datatype Bucket = Bucket(stackArn: string, name: string, url: string)

  const ToolsDirVariable := "BUILDSYS_TOOLS_DIR"

  /** Where the bucket stack's template lives under the tools directory. */
  const TemplateLocation := "/infrasys/cloudformation-templates/s3_setup.yml"

  /** The parts of a stack description whose absence the errors name. */
  const StacksField := "stacks"
  const OutputsField := "outputs"
  const BucketNameField := "outputs[0].output_value (bucket name)"
  const BucketUrlField := "outputs[1].output_value (bucket url)"
  const StackIdField := "stack_id"

  function TemplatePath(toolsDir: string): string {
    toolsDir + TemplateLocation
  }

  /** What the wait for the stack yields: its bucket name and URL, or the error raised. */
  function StackResult(region: string, stackName: string, stackArn: string, outputs: StackOutputs): (r: Result<Bucket>)
    requires outputs.Ready? ==> |outputs.values| >= 2
    ensures r.Ok? <==> outputs.Ready? && outputs.values[0].Some? && outputs.values[1].Some?
    ensures r.Ok? ==> r.value == Bucket(stackArn, outputs.values[0].value, outputs.values[1].value)
    ensures r.Err? ==> r.error.DescribeStack? || r.error.ParseResponse?
  {
    match outputs
    case DescribeFailed => Err(DescribeStack(stackName, region))
    case NoStacks => Err(ParseResponse(StacksField, stackName))
    case NoOutputs => Err(ParseResponse(OutputsField, stackName))
    case Ready(values) =>
      if values[0].None? then Err(ParseResponse(BucketNameField, stackName))
      else if values[1].None? then Err(ParseResponse(BucketUrlField, stackName))
      else Ok(Bucket(stackArn, values[0].value, values[1].value))
  }

  /** What create_s3_bucket does: checks the region and the tools directory, reads the
      template, submits the stack and, once a stack id came back, waits for the outputs. */
  function CreatedBucket(w: World, h: History, region: string, stackName: string): Outcome<Bucket>
    requires TwoOutputs(w)
  {
    if !w.knownRegion(region) then Outcome(Err(ParseRegion(region)), h)
    else if w.toolsDir.None? then Outcome(Err(Environment(ToolsDirVariable)), h)
    else
      var path := TemplatePath(w.toolsDir.value);
      var h1 := h + [ReadTemplate(path)];
      if !w.readFile(h1).Content? then Outcome(Err(FileRead(path)), h1)
      else
        var h2 := h1 + [SubmitStack(region, stackName)];
        match w.stackCreation(h2)
        case CreateRejected => Outcome(Err(CreateStack(stackName, region)), h2)
        case Created(None) => Outcome(Err(ParseResponse(StackIdField, stackName)), h2)
        case Created(Some(stackArn)) =>
          var h3 := h2 + [AwaitStack(region, stackName)];
          Outcome(StackResult(region, stackName, stackArn, w.stackOutputs(h3)), h3)
  }

  /** create_s3_bucket: reads the template, submits the stack, waits for it and returns the
      stack id with the first two stack outputs (bucket name, bucket URL). */
  method CreateS3Bucket(w: World, h: History, region: string, stackName: string)
    returns (r: Result<Bucket>, h': History)
    requires TwoOutputs(w)
    ensures Outcome(r, h') == CreatedBucket(w, h, region, stackName)
    ensures InPhase(h, h', 1)
    ensures !w.knownRegion(region) ==> r == Err(ParseRegion(region)) && h' == h
    ensures w.knownRegion(region) && w.toolsDir.None? ==> r == Err(Environment(ToolsDirVariable)) && h' == h
    ensures w.knownRegion(region) && w.toolsDir.Some? ==>
              var path := TemplatePath(w.toolsDir.value);
              var h1 := h + [ReadTemplate(path)];
              var h2 := h1 + [SubmitStack(region, stackName)];
              var h3 := h2 + [AwaitStack(region, stackName)];
              && (!w.readFile(h1).Content? ==> r == Err(FileRead(path)) && h' == h1)
              && (w.readFile(h1).Content? && w.stackCreation(h2) == CreateRejected ==>
                    r == Err(CreateStack(stackName, region)) && h' == h2)
              && (w.readFile(h1).Content? && w.stackCreation(h2) == Created(None) ==>
                    r == Err(ParseResponse(StackIdField, stackName)) && h' == h2)
              && (w.readFile(h1).Content? && w.stackCreation(h2).Created? && w.stackCreation(h2).stackId.Some? ==>
                    r == StackResult(region, stackName, w.stackCreation(h2).stackId.value, w.stackOutputs(h3)) && h' == h3)
  {
    if !w.knownRegion(region) {
      return Err(ParseRegion(region)), h;
    }
    if w.toolsDir.None? {
      return Err(Environment(ToolsDirVariable)), h;
    }
    var path := TemplatePath(w.toolsDir.value);
    h' := h + [ReadTemplate(path)];
    if !w.readFile(h').Content? {
      return Err(FileRead(path)), h';
    }
    h' := h' + [SubmitStack(region, stackName)];
    var created := w.stackCreation(h');
    if created.CreateRejected? {
      return Err(CreateStack(stackName, region)), h';
    }
    if created.stackId.None? {
      return Err(ParseResponse(StackIdField, stackName)), h';
    }
    var stackArn := created.stackId.value;
    h' := h' + [AwaitStack(region, stackName)];
    r := StackResult(region, stackName, stackArn, w.stackOutputs(h'));
  }

  // ---------------------------------------------------------------- bucket policy

  /** What the errors of the policy step say could not be read or built. */
  const PolicyField := "policy"
  const RetrievedPolicyWhat := "retrieved bucket policy for "
  const NewPolicyWhat := "new bucket policy for "

  /** The policy document the step starts from. A policy that cannot be fetched at all is
      replaced by the default one; a fetched answer without policy text, or with text that is
      not JSON, is an error. */
  function StartingPolicy(bucket: string, fetched: FetchedPolicy): (r: Result<Policy>)
    ensures r.Ok? <==> fetched.FetchRejected? || fetched.Fetched?
    ensures r.Ok? ==> r.value == (if fetched.Fetched? then fetched.policy else DefaultPolicy)
    ensures r.Err? ==> r.error == ParseResponse(PolicyField, bucket)
                       || r.error == InvalidJson(RetrievedPolicyWhat + bucket)
  {
    match fetched
    case FetchRejected => Ok(DefaultPolicy)
    case NoPolicyText => Err(ParseResponse(PolicyField, bucket))
    case MalformedPolicy => Err(InvalidJson(RetrievedPolicyWhat + bucket))
    case Fetched(p) => Ok(p)
  }

  /** The statement built from the bucket name, prefix and endpoint id by filling in a JSON
      template. The template only parses when the three values can stand between quotes. */
  function NewStatement(bucket: string, prefix: string, vpcId: string): (r: Result<Statement>)
    ensures r.Ok? <==> JsonLiteralSafe(bucket) && JsonLiteralSafe(prefix) && JsonLiteralSafe(vpcId)
    ensures r.Ok? ==> r.value == ReadGrant(bucket, prefix, vpcId)
    ensures r.Ok? ==> r.value.Grant? && r.value.resource == "arn:aws:s3:::" + bucket + prefix + "/*"
    ensures r.Ok? ==> r.value.effect == "Allow" && r.value.principal == "*" && r.value.action == "s3:GetObject"
    ensures r.Ok? ==> r.value.condition == StringEquals("aws:sourceVpce", vpcId)
    ensures r.Err? ==> r.error == InvalidJson(NewPolicyWhat + bucket)
  {
    if JsonLiteralSafe(bucket) && JsonLiteralSafe(prefix) && JsonLiteralSafe(vpcId) then Ok(ReadGrant(bucket, prefix, vpcId))
    else Err(InvalidJson(NewPolicyWhat + bucket))
  }

  /** The document add_bucket_policy puts back, given what the fetch returned. */
  function PolicyToStore(bucket: string, prefix: string, vpcId: string, fetched: FetchedPolicy): (r: Result<Policy>)
    ensures r.Ok? ==>
              && StartingPolicy(bucket, fetched).Ok?
              && var start := StartingPolicy(bucket, fetched).value;
              && start.statements.Some? && r.value.version == start.version
              && r.value.statements == Some(start.statements.value + [ReadGrant(bucket, prefix, vpcId)])
    ensures r.Err? && StartingPolicy(bucket, fetched).Ok? && NewStatement(bucket, prefix, vpcId).Ok? ==>
              r.error == GetPolicyStatement(bucket) && StartingPolicy(bucket, fetched).value.statements.None?
  {
    match StartingPolicy(bucket, fetched)
    case Err(e) => Err(e)
    case Ok(current) =>
      match NewStatement(bucket, prefix, vpcId)
      case Err(e) => Err(e)
      case Ok(statement) =>
        if current.statements.None? then Err(GetPolicyStatement(bucket))
        else Ok(current.(statements := Some(current.statements.value + [statement])))
  }

  /** The stored policy has exactly one statement more than the starting one: the earlier
      statements are kept in order and the read grant is last. A document without a statement
      array is refused. */
  lemma PolicyToStoreAppends(bucket: string, prefix: string, vpcId: string, fetched: FetchedPolicy)
    requires JsonLiteralSafe(bucket) && JsonLiteralSafe(prefix) && JsonLiteralSafe(vpcId)
    requires StartingPolicy(bucket, fetched).Ok?
    ensures var start := StartingPolicy(bucket, fetched).value;
            var r := PolicyToStore(bucket, prefix, vpcId, fetched);
      && (r.Ok? <==> start.statements.Some?)
      && (r.Err? ==> r.error == GetPolicyStatement(bucket))
      && (r.Ok? ==>
            var before := start.statements.value;
            var after := r.value.statements.value;
            && |after| == |before| + 1
            && after[..|before|] == before
            && after[|before|] == ReadGrant(bucket, prefix, vpcId))
  {
    var r := PolicyToStore(bucket, prefix, vpcId, fetched);
    if r.Ok? {
      var before := StartingPolicy(bucket, fetched).value.statements.value;
      assert (before + [ReadGrant(bucket, prefix, vpcId)])[..|before|] == before;
    }
  }

  /** Without an existing policy the bucket ends up with the default policy holding only the
      read grant. */
  lemma PolicyToStoreFresh(bucket: string, prefix: string, vpcId: string)
    requires JsonLiteralSafe(bucket) && JsonLiteralSafe(prefix) && JsonLiteralSafe(vpcId)
    ensures PolicyToStore(bucket, prefix, vpcId, FetchRejected) ==
            Ok(Policy(Some(PolicyVersion), Some([ReadGrant(bucket, prefix, vpcId)])))
  {
    assert [] + [ReadGrant(bucket, prefix, vpcId)] == [ReadGrant(bucket, prefix, vpcId)];
  }

  /** What add_bucket_policy does: fetches the policy and, when a policy to store results,
      puts it back. */
  function PolicyAdded(w: World, h: History, region: string, bucket: string, prefix: string, vpcId: string): Outcome<()> {
    if !w.knownRegion(region) then Outcome(Err(ParseRegion(region)), h)
    else
      var h1 := h + [FetchPolicy(region, bucket)];
      match PolicyToStore(bucket, prefix, vpcId, w.bucketPolicy(h1))
      case Err(e) => Outcome(Err(e), h1)
      case Ok(policy) =>
        var h2 := h1 + [StorePolicy(region, bucket, policy)];
        Outcome(if w.succeeds(h2) then Ok(()) else Err(PutPolicy(bucket)), h2)
  }

  /** Adding the bucket policy only appends events and never fails for a missing setting. */
  lemma PolicyAddedAppends(w: World, h: History, region: string, bucket: string, prefix: string, vpcId: string)
    ensures var o := PolicyAdded(w, h, region, bucket, prefix, vpcId);
      Extends(h, o.history) && (o.result.Err? ==> !o.result.error.MissingConfig?)
  {
  }

  /** add_bucket_policy: fetches the bucket's policy, appends the read grant for the prefix to
      its statements and puts the result back. */
  method AddBucketPolicy(w: World, h: History, region: string, bucket: string, prefix: string, vpcId: string)
    returns (r: Result<()>, h': History)
    ensures Outcome(r, h') == PolicyAdded(w, h, region, bucket, prefix, vpcId)
    ensures InPhase(h, h', 2)
    ensures r.Err? ==> r.error.ParseRegion? || r.error.ParseResponse? || r.error.InvalidJson?
                       || r.error.GetPolicyStatement? || r.error.PutPolicy?
    ensures !w.knownRegion(region) ==> r == Err(ParseRegion(region)) && h' == h
    ensures w.knownRegion(region) ==>
              var h1 := h + [FetchPolicy(region, bucket)];
              var toStore := PolicyToStore(bucket, prefix, vpcId, w.bucketPolicy(h1));
              && (toStore.Err? ==> r == Err(toStore.error) && h' == h1)
              && (toStore.Ok? ==>
                    var h2 := h1 + [StorePolicy(region, bucket, toStore.value)];
                    h' == h2 && (if w.succeeds(h2) then r == Ok(()) else r == Err(PutPolicy(bucket))))
  {
    if !w.knownRegion(region) {
      return Err(ParseRegion(region)), h;
    }
    h' := h + [FetchPolicy(region, bucket)];
    var start := StartingPolicy(bucket, w.bucketPolicy(h'));
    if start.Err? {
      return Err(start.error), h';
    }
    var current := start.value;
    var statement := NewStatement(bucket, prefix, vpcId);
    if statement.Err? {
      return Err(statement.error), h';
    }
    if current.statements.None? {
      return Err(GetPolicyStatement(bucket)), h';
    }
    current := current.(statements := Some(current.statements.value + [statement.value]));
    h' := h' + [StorePolicy(region, bucket, current)];
    r := if w.succeeds(h') then Ok(()) else Err(PutPolicy(bucket));
  }

  // ---------------------------------------------------------------- upload

  /** The fixed object key root.json is stored under. */
  const RootObjectKey := "root.json"

  /** What upload_file does: reads the file, then puts its contents. */
  function Uploaded(w: World, h: History, region: string, bucket: string, prefix: string, path: string): Outcome<()> {
    if !w.knownRegion(region) then Outcome(Err(ParseRegion(region)), h)
    else
      var h1 := h + [ReadForUpload(path)];
      match w.readFile(h1)
      case OpenFailed => Outcome(Err(FileOpen(path)), h1)
      case ReadFailed => Outcome(Err(FileRead(path)), h1)
      case Content(data) =>
        var h2 := h1 + [StoreObject(region, bucket + prefix, RootObjectKey, data)];
        Outcome(if w.succeeds(h2) then Ok(()) else Err(PutObject(bucket)), h2)
  }

  /** upload_file: reads root.json and puts it into `bucket + prefix` under the key
      "root.json". */
  method UploadFile(w: World, h: History, region: string, bucket: string, prefix: string, path: string)
    returns (r: Result<()>, h': History)
    ensures Outcome(r, h') == Uploaded(w, h, region, bucket, prefix, path)
    ensures InPhase(h, h', 7)
    ensures !w.knownRegion(region) ==> r == Err(ParseRegion(region)) && h' == h
    ensures w.knownRegion(region) ==>
              var h1 := h + [ReadForUpload(path)];
              && (w.readFile(h1).OpenFailed? ==> r == Err(FileOpen(path)) && h' == h1)
              && (w.readFile(h1).ReadFailed? ==> r == Err(FileRead(path)) && h' == h1)
              && (w.readFile(h1).Content? ==>
                    var h2 := h1 + [StoreObject(region, bucket + prefix, RootObjectKey, w.readFile(h1).data)];
                    h' == h2 && (if w.succeeds(h2) then r == Ok(()) else r == Err(PutObject(bucket))))
  {
    if !w.knownRegion(region) {
      return Err(ParseRegion(region)), h;
    }
    h' := h + [ReadForUpload(path)];
    match w.readFile(h') {
      case OpenFailed =>
        r := Err(FileOpen(path));
      case ReadFailed =>
        r := Err(FileRead(path));
      case Content(data) =>
        h' := h' + [StoreObject(region, bucket + prefix, RootObjectKey, data)];
        r := if w.succeeds(h') then Ok(()) else Err(PutObject(bucket));
    }
  }
}
