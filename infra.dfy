/** create_infra (tools/infrasys/src/main.rs): for every repository of Infra.toml, resolve its
    settings, create its bucket, publish a signed root.json there and record the outputs; once
    every repository is done, write the configuration back as Infra.lock. */
module Infra {
  import opened Wrappers
  import opened Shared
  import opened Config
  import opened Effects
  import opened Enumeration
  import opened BucketPolicy
  import opened S3
  import opened Root

  /** The operations of the key-management steps, as reported by their errors. */
  const CheckKeysOperation := "check_signing_key_config"
  const CreateKeysOperation := "create_keys"

  /** The settings whose absence the errors name. */
  const RepoItem := "repo"
  const FileHostingItem := "file_hosting_config_name"
  const AwsItem := "aws"
  const S3Item := "aws.s3"
  const S3EntryItem := "aws.s3 config with name "
  const RegionItem := "region"
  const VpcEndpointItem := "vpc_endpoint_id"
  const SigningKeysItem := "signing_keys"
  const RootKeysItem := "root_keys"
  const PubThresholdItem := "pub_key_threshold"
  const RootThresholdItem := "root_key_threshold"
  const S3Section := "s3"
  const RepoSection := "repo"

  /** The message naming the setting `item` of the `section` entry called `name`. */
  function MissingFrom(item: string, name: string, section: string): string {
    item + " for '" + name + "' " + section + " config"
  }

  function PubThresholdMissing(repoName: string): string {
    MissingFrom(PubThresholdItem, repoName, RepoSection)
  }

  function RootThresholdMissing(repoName: string): string {
    MissingFrom(RootThresholdItem, repoName, RepoSection)
  }

  // ---------------------------------------------------------------- step 0

  /** The settings of one repository that step 0 looks up. */
  datatype Resolved = Resolved(
    stackName: string,
    region: string,
    vpcId: string,
    prefix: string,
    signingKeys: SigningKeyConfig,
    rootKeys: SigningKeyConfig)

  /** Every setting step 0 needs is present. */
  predicate Complete(rc: RepoConfig, aws: Option<AwsConfig>) {
    && rc.fileHostingConfigName.Some?
    && aws.Some? && aws.value.s3.Some?
    && rc.fileHostingConfigName.value in aws.value.s3.value
    && aws.value.s3.value[rc.fileHostingConfigName.value].region.Some?
    && aws.value.s3.value[rc.fileHostingConfigName.value].vpcEndpointId.Some?
    && rc.signingKeys.Some? && rc.rootKeys.Some?
  }

  /** Step 0: looks up the repository's storage entry and key sets, failing on the first one
      that is missing. */
  function Resolve(repoName: string, rc: RepoConfig, aws: Option<AwsConfig>): (r: Result<Resolved>)
    ensures r.Ok? <==> Complete(rc, aws)
    ensures r.Ok? ==>
              var stackName := rc.fileHostingConfigName.value;
              var s3 := aws.value.s3.value[stackName];
              r.value == Resolved(stackName, s3.region.value, s3.vpcEndpointId.value, FormatPrefix(s3.s3Prefix),
                                  rc.signingKeys.value, rc.rootKeys.value)
    ensures r.Err? ==> r.error.MissingConfig?
    ensures rc.fileHostingConfigName.None? ==> r == Err(MissingConfig(FileHostingItem))
    ensures rc.fileHostingConfigName.Some? && aws.None? ==> r == Err(MissingConfig(AwsItem))
  {
    if rc.fileHostingConfigName.None? then Err(MissingConfig(FileHostingItem))
    else
      var stackName := rc.fileHostingConfigName.value;
      if aws.None? then Err(MissingConfig(AwsItem))
      else if aws.value.s3.None? then Err(MissingConfig(S3Item))
      else if stackName !in aws.value.s3.value then Err(MissingConfig(S3EntryItem + stackName))
      else
        var s3 := aws.value.s3.value[stackName];
        if s3.region.None? then Err(MissingConfig(MissingFrom(RegionItem, stackName, S3Section)))
        else if s3.vpcEndpointId.None? then Err(MissingConfig(MissingFrom(VpcEndpointItem, stackName, S3Section)))
        else if rc.signingKeys.None? then Err(MissingConfig(MissingFrom(SigningKeysItem, repoName, RepoSection)))
        else if rc.rootKeys.None? then Err(MissingConfig(MissingFrom(RootKeysItem, repoName, RepoSection)))
        else Ok(Resolved(stackName, s3.region.value, s3.vpcEndpointId.value, FormatPrefix(s3.s3Prefix),
                         rc.signingKeys.value, rc.rootKeys.value))
  }

  /** What the checks that end step 0 do: both key sets are checked, then root.json must not
      exist yet. */
  function Checked(w: World, h: History, res: Resolved, rootRolePath: string): Outcome<()> {
    var h1 := h + [CheckKeyConfig(res.signingKeys)];
    if !w.succeeds(h1) then Outcome(Err(Keys(CheckKeysOperation)), h1)
    else
      var h2 := h1 + [CheckKeyConfig(res.rootKeys)];
      if !w.succeeds(h2) then Outcome(Err(Keys(CheckKeysOperation)), h2)
      else Outcome(CheckRoot(w, h2, rootRolePath), h2)
  }

  /** The checks that end step 0: both key sets are checked, then root.json must not exist
      yet. */
  method Preflight(w: World, h: History, res: Resolved, rootRolePath: string) returns (r: Result<()>, h': History)
    ensures Outcome(r, h') == Checked(w, h, res, rootRolePath)
    ensures InPhase(h, h', 0)
    ensures var h1 := h + [CheckKeyConfig(res.signingKeys)];
            var h2 := h1 + [CheckKeyConfig(res.rootKeys)];
      && (!w.succeeds(h1) ==> r == Err(Keys(CheckKeysOperation)) && h' == h1)
      && (w.succeeds(h1) && !w.succeeds(h2) ==> r == Err(Keys(CheckKeysOperation)) && h' == h2)
      && (w.succeeds(h1) && w.succeeds(h2) ==> h' == h2 && (r.Ok? <==> !w.isFile(h2, rootRolePath)))
      && (r.Err? ==> r.error == Keys(CheckKeysOperation) || r.error == FileExists(rootRolePath))
  {
    h' := h + [CheckKeyConfig(res.signingKeys)];
    if !w.succeeds(h') {
      return Err(Keys(CheckKeysOperation)), h';
    }
    h' := h' + [CheckKeyConfig(res.rootKeys)];
    if !w.succeeds(h') {
      return Err(Keys(CheckKeysOperation)), h';
    }
    r := CheckRoot(w, h', rootRolePath);
  }

  // ---------------------------------------------------------------- step 1

  /** What steps 0 and 1 do once the settings are resolved: the checks, then the bucket
      stack. */
  function BucketReady(w: World, h: History, res: Resolved, rootRolePath: string): Outcome<Bucket>
    requires TwoOutputs(w)
  {
    var checked := Checked(w, h, res, rootRolePath);
    if checked.result.Err? then Outcome(Err(checked.result.error), checked.history)
    else CreatedBucket(w, checked.history, res.region, res.stackName)
  }

  /** A bucket comes back only when both key sets passed their check and root.json did not
      exist, and it is the bucket of the awaited stack: its ARN is the stack id the submission
      returned, and its name and URL are the stack's first two output values. */
  lemma BucketReadyOk(w: World, h: History, res: Resolved, rootRolePath: string)
    requires TwoOutputs(w)
    ensures var o := BucketReady(w, h, res, rootRolePath);
      o.result.Ok? ==>
        var h1 := h + [CheckKeyConfig(res.signingKeys)];
        var h2 := h1 + [CheckKeyConfig(res.rootKeys)];
        && w.succeeds(h1) && w.succeeds(h2) && !w.isFile(h2, rootRolePath)
        && w.toolsDir.Some?
        && var h4 := h2 + [ReadTemplate(TemplatePath(w.toolsDir.value)), SubmitStack(res.region, res.stackName)];
        && o.history == h4 + [AwaitStack(res.region, res.stackName)]
        && w.stackCreation(h4) == Created(Some(o.result.value.stackArn))
        && w.stackOutputs(o.history).Ready?
        && w.stackOutputs(o.history).values[0] == Some(o.result.value.name)
        && w.stackOutputs(o.history).values[1] == Some(o.result.value.url)
  {
    var o := BucketReady(w, h, res, rootRolePath);
    if o.result.Ok? {
      var h2 := h + [CheckKeyConfig(res.signingKeys)] + [CheckKeyConfig(res.rootKeys)];
      var h3 := h2 + [ReadTemplate(TemplatePath(w.toolsDir.value))];
      assert h3 + [SubmitStack(res.region, res.stackName)]
          == h2 + [ReadTemplate(TemplatePath(w.toolsDir.value)), SubmitStack(res.region, res.stackName)];
    }
  }

  /** The checks of step 0, then step 1: the bucket stack is created only once both key sets
      passed their check and root.json does not exist yet. */
  method CreateBucket(w: World, h: History, res: Resolved, rootRolePath: string)
    returns (r: Result<Bucket>, h': History)
    requires TwoOutputs(w)
    ensures Outcome(r, h') == BucketReady(w, h, res, rootRolePath)
    ensures Ordered(h, h', 0, 1)
    ensures r.Ok? ==>
              var h1 := h + [CheckKeyConfig(res.signingKeys)];
              var h2 := h1 + [CheckKeyConfig(res.rootKeys)];
              && w.succeeds(h1) && w.succeeds(h2) && !w.isFile(h2, rootRolePath)
              && Extends(h2, h') && h'[|h'| - 1] == AwaitStack(res.region, res.stackName)
  {
    var checked;
    checked, h' := Preflight(w, h, res, rootRolePath);
    OrderedStep(h, h', 0);
    if checked.Err? {
      return Err(checked.error), h';
    }
    ghost var h0 := h';
    r, h' := CreateS3Bucket(w, h', res.region, res.stackName);
    Then(h, h0, h', 0, 0, 1);
  }

  // ---------------------------------------------------------------- steps 2 to 5

  /** The upload of root.json into the repository's bucket is the last thing h' records. */
  predicate EndsWithUpload(h': History, region: string, bucketName: string, prefix: string) {
    |h'| > 0 && h'[|h'| - 1].StoreObject? && h'[|h'| - 1].region == region
    && h'[|h'| - 1].bucket == bucketName + prefix && h'[|h'| - 1].key == RootObjectKey
  }

  /** The policy document ends with the read grant for the prefix of `bucket` to the endpoint
      `vpcId`. */
  predicate GrantsLast(policy: Policy, bucket: string, prefix: string, vpcId: string) {
    && policy.statements.Some? && |policy.statements.value| > 0
    && policy.statements.value[|policy.statements.value| - 1] == ReadGrant(bucket, prefix, vpcId)
  }

  /** A policy for `bucket` whose last statement is the read grant for the prefix to the
      endpoint was put among the events h' adds to h. */
  predicate PolicyStored(h: History, h': History, bucket: string, prefix: string, vpcId: string) {
    exists i | |h| <= i < |h'| ::
      h'[i].StorePolicy? && h'[i].bucket == bucket && GrantsLast(h'[i].policy, bucket, prefix, vpcId)
  }

  /** `root expire` of root.json was issued among the events h' adds to h. */
  predicate RootExpired(w: World, h: History, h': History, path: string) {
    exists i | |h| <= i < |h'| :: h'[i] == Tuftool(ExpireCmd(w.defaultRegion, path))
  }

  /** root.json was uploaded into the bucket under the prefix among the events h' adds to h. */
  predicate RootUploaded(h: History, h': History, region: string, bucketName: string, prefix: string) {
    exists i | |h| <= i < |h'| ::
      h'[i].StoreObject? && h'[i].region == region && h'[i].bucket == bucketName + prefix && h'[i].key == RootObjectKey
  }

  /** What was recorded between h and h' is still recorded between an earlier start and a
      later end. */
  lemma StillRecorded(w: World, h0: History, h: History, h': History, h'': History, bucket: string,
                      path: string, keys: map<string, string>, region: string, prefix: string, vpcId: string)
    requires |h0| <= |h| && Extends(h', h'')
    ensures PolicyStored(h, h', bucket, prefix, vpcId) ==> PolicyStored(h0, h'', bucket, prefix, vpcId)
    ensures RootExpired(w, h, h', path) ==> RootExpired(w, h0, h'', path)
    ensures SignedByAll(h, h', keys, path) ==> SignedByAll(h0, h'', keys, path)
    ensures RootUploaded(h, h', region, bucket, prefix) ==> RootUploaded(h0, h'', region, bucket, prefix)
  {
    if PolicyStored(h, h', bucket, prefix, vpcId) {
      var i :| |h| <= i < |h'| && h'[i].StorePolicy? && h'[i].bucket == bucket
               && GrantsLast(h'[i].policy, bucket, prefix, vpcId);
      assert h''[i] == h''[..|h'|][i];
    }
    if RootExpired(w, h, h', path) {
      var i :| |h| <= i < |h'| && h'[i] == Tuftool(ExpireCmd(w.defaultRegion, path));
      assert h''[i] == h''[..|h'|][i];
    }
    if SignedByAll(h, h', keys, path) {
      forall k | k in keys
        ensures exists i | |h0| <= i < |h''| :: h''[i] == Tuftool(KeyCmd(Signing, keys[k], path, k))
      {
        var i :| |h| <= i < |h'| && h'[i] == Tuftool(KeyCmd(Signing, keys[k], path, k));
        assert h''[i] == h''[..|h'|][i];
      }
    }
    if RootUploaded(h, h', region, bucket, prefix) {
      var i :| |h| <= i < |h'| && h'[i].StoreObject? && h'[i].region == region
                && h'[i].bucket == bucket + prefix && h'[i].key == RootObjectKey;
      assert h''[i] == h''[..|h'|][i];
    }
  }

  /** The two key sets of a repository as the key steps leave them, with the outcome. */
  datatype KeySets = KeySets(result: Result<()>, signingKeys: SigningKeyConfig, rootKeys: SigningKeyConfig,
                             history: History)

  /** What step 3 does: keys::create_keys for the publication key set, then for the root key
      set, stopping at the first failure. */
  function KeySetsCreated(w: World, h: History, signingKeys: SigningKeyConfig, rootKeys: SigningKeyConfig): KeySets {
    var h1 := h + [CreateKeys(signingKeys)];
    match w.createdKeys(h1)
    case None => KeySets(Err(Keys(CreateKeysOperation)), signingKeys, rootKeys, h1)
    case Some(signing) =>
      var h2 := h1 + [CreateKeys(rootKeys)];
      match w.createdKeys(h2)
      case None => KeySets(Err(Keys(CreateKeysOperation)), signing, rootKeys, h2)
      case Some(root) => KeySets(Ok(()), signing, root, h2)
  }

  /** Creating the key sets only appends events and never fails for a missing setting. */
  lemma KeySetsCreatedAppends(w: World, h: History, signingKeys: SigningKeyConfig, rootKeys: SigningKeyConfig)
    ensures var o := KeySetsCreated(w, h, signingKeys, rootKeys);
      Extends(h, o.history) && (o.result.Err? ==> !o.result.error.MissingConfig?)
  {
  }

  /** Step 3: keys::create_keys for the publication key set, then for the root key set. Each
      returns the key set as the key-management code left it. */
  method CreateKeySets(w: World, h: History, signingKeys: SigningKeyConfig, rootKeys: SigningKeyConfig)
    returns (r: Result<()>, signingKeys': SigningKeyConfig, rootKeys': SigningKeyConfig, h': History)
    ensures KeySets(r, signingKeys', rootKeys', h') == KeySetsCreated(w, h, signingKeys, rootKeys)
    ensures InPhase(h, h', 3)
    ensures var h1 := h + [CreateKeys(signingKeys)];
            var h2 := h1 + [CreateKeys(rootKeys)];
      && (w.createdKeys(h1).None? ==>
            r == Err(Keys(CreateKeysOperation)) && h' == h1 && signingKeys' == signingKeys && rootKeys' == rootKeys)
      && (w.createdKeys(h1).Some? ==> h' == h2 && signingKeys' == w.createdKeys(h1).value)
      && (r.Ok? <==> w.createdKeys(h1).Some? && w.createdKeys(h2).Some?)
      && (r.Ok? ==> rootKeys' == w.createdKeys(h2).value)
      && (r.Err? ==> rootKeys' == rootKeys)
      && (r.Err? ==> r.error == Keys(CreateKeysOperation))
  {
    signingKeys', rootKeys' := signingKeys, rootKeys;
    h' := h + [CreateKeys(signingKeys)];
    var created := w.createdKeys(h');
    if created.None? {
      return Err(Keys(CreateKeysOperation)), signingKeys', rootKeys', h';
    }
    signingKeys' := created.value;
    h' := h' + [CreateKeys(rootKeys)];
    created := w.createdKeys(h');
    if created.None? {
      return Err(Keys(CreateKeysOperation)), signingKeys', rootKeys', h';
    }
    rootKeys' := created.value;
    r := Ok(());
  }

  /** What steps 2 to 4 do up to the creation of root.json: the bucket policy, the two key
      sets, then `root init` and `root expire`, stopping at the first failure. */
  function RootPrepared(w: World, h: History, region: string, bucketName: string, prefix: string, vpcId: string,
                        signingKeys: SigningKeyConfig, rootKeys: SigningKeyConfig, rootRolePath: string): KeySets
  {
    var policy := PolicyAdded(w, h, region, bucketName, prefix, vpcId);
    if policy.result.Err? then KeySets(policy.result, signingKeys, rootKeys, policy.history)
    else
      var created := KeySetsCreated(w, policy.history, signingKeys, rootKeys);
      if created.result.Err? then created
      else
        var root := RootCreated(w, created.history, rootRolePath);
        KeySets(root.result, created.signingKeys, created.rootKeys, root.history)
  }

  /** Preparing root.json only appends events and never fails for a missing setting. */
  lemma RootPreparedExtends(w: World, h: History, region: string, bucketName: string, prefix: string, vpcId: string,
                            signingKeys: SigningKeyConfig, rootKeys: SigningKeyConfig, rootRolePath: string)
    ensures var o := RootPrepared(w, h, region, bucketName, prefix, vpcId, signingKeys, rootKeys, rootRolePath);
      && Extends(h, o.history)
      && (o.result.Err? ==> !o.result.error.MissingConfig?)
  {
    var policy := PolicyAdded(w, h, region, bucketName, prefix, vpcId);
    PolicyAddedAppends(w, h, region, bucketName, prefix, vpcId);
    if policy.result.Ok? {
      var created := KeySetsCreated(w, policy.history, signingKeys, rootKeys);
      KeySetsCreatedAppends(w, policy.history, signingKeys, rootKeys);
      ExtendsTrans(h, policy.history, created.history);
      if created.result.Ok? {
        RootCreatedAppends(w, created.history, rootRolePath);
        ExtendsTrans(h, created.history, RootCreated(w, created.history, rootRolePath).history);
      }
    }
  }

  /** Once preparing root.json succeeds, a policy was put on the bucket and root.json was
      expired. */
  lemma RootPreparedOk(w: World, h: History, region: string, bucketName: string, prefix: string, vpcId: string,
                       signingKeys: SigningKeyConfig, rootKeys: SigningKeyConfig, rootRolePath: string)
    ensures var o := RootPrepared(w, h, region, bucketName, prefix, vpcId, signingKeys, rootKeys, rootRolePath);
      o.result.Ok? ==> PolicyStored(h, o.history, bucketName, prefix, vpcId) && RootExpired(w, h, o.history, rootRolePath)
  {
    var policy := PolicyAdded(w, h, region, bucketName, prefix, vpcId);
    if policy.result.Ok? {
      var created := KeySetsCreated(w, policy.history, signingKeys, rootKeys);
      var root := RootCreated(w, created.history, rootRolePath);
      if created.result.Ok? && root.result.Ok? {
        assert PolicyStored(h, policy.history, bucketName, prefix, vpcId) by {
          var stored := policy.history[|policy.history| - 1];
          assert stored.StorePolicy?;
          assert GrantsLast(stored.policy, bucketName, prefix, vpcId);
        }
        assert Extends(policy.history, root.history);
        StillRecorded(w, h, h, policy.history, root.history, bucketName, rootRolePath, map[], region, prefix, vpcId);
        assert root.history[|root.history| - 1] == Tuftool(ExpireCmd(w.defaultRegion, rootRolePath));
      }
    }
  }

  /** `after` is what keys::create_keys returned for `before`, among the events h' adds to h. */
  predicate CreatedFrom(w: World, h: History, h': History, before: SigningKeyConfig, after: SigningKeyConfig) {
    exists i | |h| <= i < |h'| :: h'[i] == CreateKeys(before) && w.createdKeys(h'[..i + 1]) == Some(after)
  }

  /** The key sets preparing root.json returns: each is either the one it was given or what
      key creation returned for it; after a success both are what key creation returned; a
      failed bucket policy leaves both as they were. */
  lemma RootPreparedKeys(w: World, h: History, region: string, bucketName: string, prefix: string, vpcId: string,
                         signingKeys: SigningKeyConfig, rootKeys: SigningKeyConfig, rootRolePath: string)
    ensures var o := RootPrepared(w, h, region, bucketName, prefix, vpcId, signingKeys, rootKeys, rootRolePath);
      && (o.signingKeys == signingKeys || CreatedFrom(w, h, o.history, signingKeys, o.signingKeys))
      && (o.rootKeys == rootKeys || CreatedFrom(w, h, o.history, rootKeys, o.rootKeys))
      && (o.result.Ok? ==>
            CreatedFrom(w, h, o.history, signingKeys, o.signingKeys) && CreatedFrom(w, h, o.history, rootKeys, o.rootKeys))
      && (PolicyAdded(w, h, region, bucketName, prefix, vpcId).result.Err? ==>
            o.signingKeys == signingKeys && o.rootKeys == rootKeys)
  {
    var policy := PolicyAdded(w, h, region, bucketName, prefix, vpcId);
    PolicyAddedAppends(w, h, region, bucketName, prefix, vpcId);
    if policy.result.Ok? {
      var o := RootPrepared(w, h, region, bucketName, prefix, vpcId, signingKeys, rootKeys, rootRolePath);
      var created := KeySetsCreated(w, policy.history, signingKeys, rootKeys);
      var i := |policy.history|;
      var h1 := policy.history + [CreateKeys(signingKeys)];
      if created.result.Ok? {
        RootCreatedAppends(w, created.history, rootRolePath);
      }
      assert Extends(created.history, o.history);
      if w.createdKeys(h1).Some? {
        var h2 := h1 + [CreateKeys(rootKeys)];
        assert created.history == h2;
        assert o.history[..i + 1] == h2[..i + 1] == h1;
        assert o.history[i] == h1[i];
        assert CreatedFrom(w, h, o.history, signingKeys, o.signingKeys);
        if w.createdKeys(h2).Some? {
          assert o.history[..i + 2] == h2;
          assert o.history[i + 1] == h2[i + 1];
          assert CreatedFrom(w, h, o.history, rootKeys, o.rootKeys);
        }
      }
    }
  }

  /** Steps 2 to 4 up to the creation of root.json: the bucket policy, the two key sets, and
      `root init` / `root expire`. Returns the key sets as the key-management steps left them. */
  method PrepareRoot(w: World, h: History, region: string, bucketName: string, prefix: string, vpcId: string,
                     signingKeys: SigningKeyConfig, rootKeys: SigningKeyConfig, rootRolePath: string)
    returns (r: Result<()>, signingKeys': SigningKeyConfig, rootKeys': SigningKeyConfig, h': History)
    ensures KeySets(r, signingKeys', rootKeys', h')
         == RootPrepared(w, h, region, bucketName, prefix, vpcId, signingKeys, rootKeys, rootRolePath)
    ensures Ordered(h, h', 2, 4)
  {
    signingKeys', rootKeys' := signingKeys, rootKeys;
    // step 2
    r, h' := AddBucketPolicy(w, h, region, bucketName, prefix, vpcId);
    OrderedStep(h, h', 2);
    if r.Err? {
      return;
    }
    ghost var h1 := h';
    // step 3
    r, signingKeys', rootKeys', h' := CreateKeySets(w, h', signingKeys, rootKeys);
    Then(h, h1, h', 2, 2, 3);
    if r.Err? {
      return;
    }
    ghost var h2 := h';
    // step 4
    r, h' := CreateRoot(w, h', rootRolePath);
    Then(h, h2, h', 2, 3, 4);
  }

  /** What the rest of step 4 before signing does: the publication threshold is looked up
      and the publication keys added, then the root threshold is looked up and the root keys
      added. */
  function RoleKeysAdded(w: World, h: History, repoName: string, signingKeys: SigningKeyConfig,
                         rootKeys: SigningKeyConfig, pubThreshold: Option<string>, rootThreshold: Option<string>,
                         rootRolePath: string): KeySets
    requires MapOrders(w)
  {
    if pubThreshold.None? then KeySets(Err(MissingConfig(PubThresholdMissing(repoName))), signingKeys, rootKeys, h)
    else
      var pub := KeysAdded(w, h, signingKeys, Publication, pubThreshold.value, rootRolePath);
      if pub.result.Err? then KeySets(pub.result, pub.keys, rootKeys, pub.history)
      else if rootThreshold.None? then
        KeySets(Err(MissingConfig(RootThresholdMissing(repoName))), pub.keys, rootKeys, pub.history)
      else
        var root := KeysAdded(w, pub.history, rootKeys, Root, rootThreshold.value, rootRolePath);
        KeySets(root.result, pub.keys, root.keys, root.history)
  }

  /** A missing root threshold is reported under the repository's name, once the publication
      keys were added: the publication key set is what adding them left, every available key
      of a KMS publication set was added for publication, and the root key set is unchanged. */
  lemma RoleKeysAddedRootMissing(w: World, h: History, repoName: string, signingKeys: SigningKeyConfig,
                                 rootKeys: SigningKeyConfig, pubThreshold: string, rootRolePath: string)
    requires MapOrders(w)
    requires KeysAdded(w, h, signingKeys, Publication, pubThreshold, rootRolePath).result.Ok?
    ensures var o := RoleKeysAdded(w, h, repoName, signingKeys, rootKeys, Some(pubThreshold), None, rootRolePath);
            var pub := KeysAdded(w, h, signingKeys, Publication, pubThreshold, rootRolePath);
      && o.result == Err(MissingConfig(RootThresholdMissing(repoName)))
      && o.signingKeys == pub.keys && o.rootKeys == rootKeys && Extends(h, o.history)
      && (signingKeys.Kms? ==>
            && signingKeys.config.Some? && o.signingKeys.Kms? && o.signingKeys.config == signingKeys.config
            && AddedByAll(h, o.history, w.defaultRegion, signingKeys.config.value.availableKeys, Publication,
                          pubThreshold, rootRolePath))
  {
    KeysAddedContract(w, h, signingKeys, Publication, pubThreshold, rootRolePath);
  }

  /** What adding the role keys does to the two key sets: the root key set comes back as it
      was; the publication key set keeps its kind and `config` table, and only an unset key id
      of a KMS set may change, to one of its available keys; after a success a KMS
      publication set has its `config` table and a key id, and each KMS set had its role's
      thresholds set and every available key added for its role. A missing publication
      threshold is reported under the repository's name before anything is issued
      (RoleKeysAddedRootMissing states the root one). */
  lemma RoleKeysAddedContract(w: World, h: History, repoName: string, signingKeys: SigningKeyConfig,
                              rootKeys: SigningKeyConfig, pubThreshold: Option<string>,
                              rootThreshold: Option<string>, rootRolePath: string)
    requires MapOrders(w)
    ensures var o := RoleKeysAdded(w, h, repoName, signingKeys, rootKeys, pubThreshold, rootThreshold, rootRolePath);
      && Extends(h, o.history)
      && o.rootKeys == rootKeys
      && (pubThreshold.None? ==> o == KeySets(Err(MissingConfig(PubThresholdMissing(repoName))), signingKeys, rootKeys, h))
      && (pubThreshold.Some? && rootThreshold.None? ==> o.result.Err?)
      && (o.result.Ok? ==> pubThreshold.Some? && rootThreshold.Some?)
      && (!signingKeys.Kms? ==> o.signingKeys == signingKeys)
      && (signingKeys.Kms? ==> o.signingKeys.Kms? && o.signingKeys.config == signingKeys.config)
      && (signingKeys.Kms? && signingKeys.keyId.Some? ==> o.signingKeys == signingKeys)
      && (signingKeys.Kms? && o.signingKeys.keyId != signingKeys.keyId ==>
            && signingKeys.config.Some? && o.signingKeys.keyId.Some?
            && o.signingKeys.keyId.value in signingKeys.config.value.availableKeys)
      && (o.result.Ok? && signingKeys.Kms? ==>
            && pubThreshold.Some? && signingKeys.config.Some? && o.signingKeys.keyId.Some?
            && AddedByAll(h, o.history, w.defaultRegion, signingKeys.config.value.availableKeys, Publication,
                          pubThreshold.value, rootRolePath))
      && (o.result.Ok? && rootKeys.Kms? ==>
            && rootThreshold.Some? && rootKeys.config.Some?
            && AddedByAll(h, o.history, w.defaultRegion, rootKeys.config.value.availableKeys, Root,
                          rootThreshold.value, rootRolePath))
  {
    if pubThreshold.Some? {
      KeysAddedContract(w, h, signingKeys, Publication, pubThreshold.value, rootRolePath);
      var pub := KeysAdded(w, h, signingKeys, Publication, pubThreshold.value, rootRolePath);
      if pub.result.Ok? && rootThreshold.Some? {
        KeysAddedContract(w, pub.history, rootKeys, Root, rootThreshold.value, rootRolePath);
        var root := KeysAdded(w, pub.history, rootKeys, Root, rootThreshold.value, rootRolePath);
        ExtendsTrans(h, pub.history, root.history);
        if root.result.Ok? && signingKeys.Kms? {
          StillAdded(h, h, pub.history, root.history, w.defaultRegion, signingKeys.config.value.availableKeys,
                     Publication, pubThreshold.value, rootRolePath);
        }
        if root.result.Ok? && rootKeys.Kms? {
          StillAdded(h, pub.history, root.history, root.history, w.defaultRegion,
                     rootKeys.config.value.availableKeys, Root, rootThreshold.value, rootRolePath);
        }
      }
    }
  }

  /** The rest of step 4 before signing: the publication threshold is looked up and the
      publication keys added, then the root threshold is looked up and the root keys added. */
  method AddRoleKeys(w: World, h: History, repoName: string, signingKeys: SigningKeyConfig, rootKeys: SigningKeyConfig,
                     pubThreshold: Option<string>, rootThreshold: Option<string>, rootRolePath: string)
    returns (r: Result<()>, signingKeys': SigningKeyConfig, rootKeys': SigningKeyConfig, h': History)
    requires MapOrders(w)
    ensures KeySets(r, signingKeys', rootKeys', h')
         == RoleKeysAdded(w, h, repoName, signingKeys, rootKeys, pubThreshold, rootThreshold, rootRolePath)
    ensures InPhase(h, h', 5)
  {
    signingKeys', rootKeys' := signingKeys, rootKeys;
    if pubThreshold.None? {
      return Err(MissingConfig(PubThresholdMissing(repoName))), signingKeys', rootKeys', h;
    }
    r, signingKeys', h' := AddKeys(w, h, signingKeys, Publication, pubThreshold.value, rootRolePath);
    if r.Err? {
      return;
    }
    if rootThreshold.None? {
      return Err(MissingConfig(RootThresholdMissing(repoName))), signingKeys', rootKeys', h';
    }
    ghost var h1 := h';
    r, rootKeys', h' := AddKeys(w, h', rootKeys, Root, rootThreshold.value, rootRolePath);
    InPhaseTrans(h, h1, h', 5);
  }

  /** What steps 2 to 5 do: root.json prepared, the role keys added, root.json signed with the
      root keys, then uploaded, stopping at the first failure. */
  function RootPublished(w: World, h: History, repoName: string, region: string, bucketName: string, prefix: string,
                         vpcId: string, signingKeys: SigningKeyConfig, rootKeys: SigningKeyConfig,
                         pubThreshold: Option<string>, rootThreshold: Option<string>, rootRolePath: string): KeySets
    requires MapOrders(w)
  {
    var prepared := RootPrepared(w, h, region, bucketName, prefix, vpcId, signingKeys, rootKeys, rootRolePath);
    if prepared.result.Err? then prepared
    else
      var added := RoleKeysAdded(w, prepared.history, repoName, prepared.signingKeys, prepared.rootKeys,
                                 pubThreshold, rootThreshold, rootRolePath);
      if added.result.Err? then added
      else
        var signed := RootSigned(w, added.history, added.rootKeys, rootRolePath);
        if signed.result.Err? then KeySets(signed.result, added.signingKeys, added.rootKeys, signed.history)
        else
          var uploaded := Uploaded(w, signed.history, region, bucketName, prefix, rootRolePath);
          KeySets(uploaded.result, added.signingKeys, added.rootKeys, uploaded.history)
  }

  /** Signing root.json and then uploading it: after a success every available root key of a
      KMS root key set has signed, and the upload into the bucket under the prefix is the last
      event. */
  lemma SignedThenUploaded(w: World, h: History, cfg: SigningKeyConfig, region: string, bucketName: string,
                           prefix: string, rootRolePath: string)
    requires MapOrders(w)
    ensures var signed := RootSigned(w, h, cfg, rootRolePath);
            var uploaded := Uploaded(w, signed.history, region, bucketName, prefix, rootRolePath);
      && Extends(h, signed.history)
      && (signed.result.Ok? ==>
            && Extends(h, uploaded.history)
            && (uploaded.result.Ok? ==>
                  && (cfg.Kms? ==>
                        cfg.config.Some? && SignedByAll(h, uploaded.history, cfg.config.value.availableKeys, rootRolePath))
                  && RootUploaded(h, uploaded.history, region, bucketName, prefix)
                  && EndsWithUpload(uploaded.history, region, bucketName, prefix)))
  {
    var signed := RootSigned(w, h, cfg, rootRolePath);
    RootSignedByAll(w, h, cfg, rootRolePath);
    if signed.result.Ok? {
      var uploaded := Uploaded(w, signed.history, region, bucketName, prefix, rootRolePath);
      assert Extends(signed.history, uploaded.history);
      ExtendsTrans(h, signed.history, uploaded.history);
      if uploaded.result.Ok? {
        if cfg.Kms? {
          StillRecorded(w, h, h, signed.history, uploaded.history, bucketName, rootRolePath,
                        cfg.config.value.availableKeys, region, prefix, "");
        }
        assert RootUploaded(h, uploaded.history, region, bucketName, prefix) by {
          assert uploaded.history[|uploaded.history| - 1].StoreObject?;
        }
      }
    }
  }

  /** A published root.json has had a policy put on its bucket and was expired; both
      thresholds were set; a KMS publication set then has its `config` table and a key id;
      every available key of each KMS set was added for its role. */
  lemma RootPublishedOk(w: World, h: History, repoName: string, region: string, bucketName: string,
                        prefix: string, vpcId: string, signingKeys: SigningKeyConfig, rootKeys: SigningKeyConfig,
                        pubThreshold: Option<string>, rootThreshold: Option<string>, rootRolePath: string)
    requires MapOrders(w)
    ensures var o := RootPublished(w, h, repoName, region, bucketName, prefix, vpcId, signingKeys, rootKeys,
                                   pubThreshold, rootThreshold, rootRolePath);
      && Extends(h, o.history)
      && (o.result.Ok? ==>
            && pubThreshold.Some? && rootThreshold.Some?
            && PolicyStored(h, o.history, bucketName, prefix, vpcId) && RootExpired(w, h, o.history, rootRolePath)
            && (o.signingKeys.Kms? ==>
                  && o.signingKeys.config.Some? && o.signingKeys.keyId.Some?
                  && AddedByAll(h, o.history, w.defaultRegion, o.signingKeys.config.value.availableKeys,
                                Publication, pubThreshold.value, rootRolePath))
            && (o.rootKeys.Kms? ==>
                  && o.rootKeys.config.Some?
                  && AddedByAll(h, o.history, w.defaultRegion, o.rootKeys.config.value.availableKeys,
                                Root, rootThreshold.value, rootRolePath)))
  {
    var prepared := RootPrepared(w, h, region, bucketName, prefix, vpcId, signingKeys, rootKeys, rootRolePath);
    RootPreparedExtends(w, h, region, bucketName, prefix, vpcId, signingKeys, rootKeys, rootRolePath);
    RootPreparedOk(w, h, region, bucketName, prefix, vpcId, signingKeys, rootKeys, rootRolePath);
    if prepared.result.Ok? {
      var added := RoleKeysAdded(w, prepared.history, repoName, prepared.signingKeys, prepared.rootKeys,
                                 pubThreshold, rootThreshold, rootRolePath);
      RoleKeysAddedContract(w, prepared.history, repoName, prepared.signingKeys, prepared.rootKeys,
                            pubThreshold, rootThreshold, rootRolePath);
      ExtendsTrans(h, prepared.history, added.history);
      if added.result.Ok? {
        SignedThenUploaded(w, added.history, added.rootKeys, region, bucketName, prefix, rootRolePath);
        var o := RootPublished(w, h, repoName, region, bucketName, prefix, vpcId, signingKeys, rootKeys,
                               pubThreshold, rootThreshold, rootRolePath);
        ExtendsTrans(h, added.history, o.history);
        ExtendsTrans(prepared.history, added.history, o.history);
        StillRecorded(w, h, h, prepared.history, o.history, bucketName, rootRolePath, map[], region, prefix, vpcId);
        if o.signingKeys.Kms? {
          StillAdded(h, prepared.history, added.history, o.history, w.defaultRegion,
                     o.signingKeys.config.value.availableKeys, Publication, pubThreshold.value, rootRolePath);
        }
        if o.rootKeys.Kms? {
          StillAdded(h, prepared.history, added.history, o.history, w.defaultRegion,
                     o.rootKeys.config.value.availableKeys, Root, rootThreshold.value, rootRolePath);
        }
      }
    }
  }

  /** A published root.json was signed with every available root key of a KMS root key set,
      and was uploaded into the bucket under the prefix as the last event. */
  lemma RootPublishedSigned(w: World, h: History, repoName: string, region: string, bucketName: string,
                            prefix: string, vpcId: string, signingKeys: SigningKeyConfig, rootKeys: SigningKeyConfig,
                            pubThreshold: Option<string>, rootThreshold: Option<string>, rootRolePath: string)
    requires MapOrders(w)
    ensures var o := RootPublished(w, h, repoName, region, bucketName, prefix, vpcId, signingKeys, rootKeys,
                                   pubThreshold, rootThreshold, rootRolePath);
      o.result.Ok? ==>
        && (o.rootKeys.Kms? ==>
              o.rootKeys.config.Some? && SignedByAll(h, o.history, o.rootKeys.config.value.availableKeys, rootRolePath))
        && RootUploaded(h, o.history, region, bucketName, prefix)
        && EndsWithUpload(o.history, region, bucketName, prefix)
  {
    var prepared := RootPrepared(w, h, region, bucketName, prefix, vpcId, signingKeys, rootKeys, rootRolePath);
    RootPreparedExtends(w, h, region, bucketName, prefix, vpcId, signingKeys, rootKeys, rootRolePath);
    RootPreparedOk(w, h, region, bucketName, prefix, vpcId, signingKeys, rootKeys, rootRolePath);
    if prepared.result.Ok? {
      var added := RoleKeysAdded(w, prepared.history, repoName, prepared.signingKeys, prepared.rootKeys,
                                 pubThreshold, rootThreshold, rootRolePath);
      RoleKeysAddedContract(w, prepared.history, repoName, prepared.signingKeys, prepared.rootKeys,
                            pubThreshold, rootThreshold, rootRolePath);
      if added.result.Ok? {
        SignedThenUploaded(w, added.history, added.rootKeys, region, bucketName, prefix, rootRolePath);
        var o := RootPublished(w, h, repoName, region, bucketName, prefix, vpcId, signingKeys, rootKeys,
                               pubThreshold, rootThreshold, rootRolePath);
        var keys := if added.rootKeys.Kms? then added.rootKeys.config.value.availableKeys else map[];
        StillRecorded(w, h, added.history, o.history, o.history, bucketName, rootRolePath, keys, region, prefix, vpcId);
      }
    }
  }

  /** A failure while preparing root.json is the outcome of the whole publication and is
      never a missing setting. When the publication threshold is missing, the failure comes
      only after the bucket policy and root.json have been created, and names that
      threshold; when only the root threshold is missing, it comes once the publication keys
      were added as well, and names the root threshold. */
  lemma RootPublishedErrors(w: World, h: History, repoName: string, region: string, bucketName: string,
                            prefix: string, vpcId: string, signingKeys: SigningKeyConfig, rootKeys: SigningKeyConfig,
                            pubThreshold: Option<string>, rootThreshold: Option<string>, rootRolePath: string)
    requires MapOrders(w)
    ensures var o := RootPublished(w, h, repoName, region, bucketName, prefix, vpcId, signingKeys, rootKeys,
                                   pubThreshold, rootThreshold, rootRolePath);
            var prepared := RootPrepared(w, h, region, bucketName, prefix, vpcId, signingKeys, rootKeys, rootRolePath);
      && (prepared.result.Err? ==> o == prepared && !o.result.error.MissingConfig?)
      && (prepared.result.Ok? && pubThreshold.None? ==>
            && o.result == Err(MissingConfig(PubThresholdMissing(repoName)))
            && PolicyStored(h, o.history, bucketName, prefix, vpcId) && RootExpired(w, h, o.history, rootRolePath))
      && (prepared.result.Ok? && pubThreshold.Some? && rootThreshold.None?
          && KeysAdded(w, prepared.history, prepared.signingKeys, Publication, pubThreshold.value, rootRolePath).result.Ok? ==>
            && o.result == Err(MissingConfig(RootThresholdMissing(repoName)))
            && PolicyStored(h, o.history, bucketName, prefix, vpcId) && RootExpired(w, h, o.history, rootRolePath)
            && (o.signingKeys.Kms? ==>
                  && o.signingKeys.config.Some?
                  && AddedByAll(h, o.history, w.defaultRegion, o.signingKeys.config.value.availableKeys, Publication,
                                pubThreshold.value, rootRolePath)))
  {
    var prepared := RootPrepared(w, h, region, bucketName, prefix, vpcId, signingKeys, rootKeys, rootRolePath);
    RootPreparedExtends(w, h, region, bucketName, prefix, vpcId, signingKeys, rootKeys, rootRolePath);
    RootPreparedOk(w, h, region, bucketName, prefix, vpcId, signingKeys, rootKeys, rootRolePath);
    if prepared.result.Ok? && pubThreshold.Some? && rootThreshold.None? {
      var o := RoleKeysAdded(w, prepared.history, repoName, prepared.signingKeys, prepared.rootKeys,
                             pubThreshold, rootThreshold, rootRolePath);
      if KeysAdded(w, prepared.history, prepared.signingKeys, Publication, pubThreshold.value, rootRolePath).result.Ok? {
        RoleKeysAddedRootMissing(w, prepared.history, repoName, prepared.signingKeys, prepared.rootKeys,
                                 pubThreshold.value, rootRolePath);
        StillRecorded(w, h, h, prepared.history, o.history, bucketName, rootRolePath, map[], region, prefix, vpcId);
        if o.signingKeys.Kms? {
          StillAdded(h, prepared.history, o.history, o.history, w.defaultRegion,
                     o.signingKeys.config.value.availableKeys, Publication, pubThreshold.value, rootRolePath);
        }
      }
    }
  }

  /** Steps 2 to 5: root.json prepared, the publication and root keys added to it, signed with
      the root keys, then uploaded. The thresholds are looked up only when their add-key step
      is reached, after the bucket policy, the keys and root.json have been created. Returns
      the key sets as the key-management steps and add_keys left them. */
  method PublishRoot(w: World, h: History, repoName: string, region: string, bucketName: string, prefix: string,
                     vpcId: string, signingKeys: SigningKeyConfig, rootKeys: SigningKeyConfig,
                     pubThreshold: Option<string>, rootThreshold: Option<string>, rootRolePath: string)
    returns (r: Result<()>, signingKeys': SigningKeyConfig, rootKeys': SigningKeyConfig, h': History)
    requires MapOrders(w)
    ensures KeySets(r, signingKeys', rootKeys', h')
         == RootPublished(w, h, repoName, region, bucketName, prefix, vpcId, signingKeys, rootKeys,
                          pubThreshold, rootThreshold, rootRolePath)
    ensures Ordered(h, h', 2, 7)
    ensures pubThreshold.None? || rootThreshold.None? ==>
              r.Err? && forall i | |h| <= i < |h'| :: Phase(h'[i]) <= 5
  {
    r, signingKeys', rootKeys', h' := PrepareRoot(w, h, region, bucketName, prefix, vpcId, signingKeys, rootKeys, rootRolePath);
    if r.Err? {
      return;
    }
    ghost var h4 := h';
    r, signingKeys', rootKeys', h' := AddRoleKeys(w, h', repoName, signingKeys', rootKeys', pubThreshold, rootThreshold, rootRolePath);
    Then(h, h4, h', 2, 4, 5);
    if r.Err? {
      return;
    }
    ghost var h5 := h';
    r, h' := SignRoot(w, h', rootKeys', rootRolePath);
    Then(h, h5, h', 2, 5, 6);
    if r.Err? {
      return;
    }
    // step 5
    ghost var h6 := h';
    r, h' := UploadFile(w, h', region, bucketName, prefix, rootRolePath);
    Then(h, h6, h', 2, 6, 7);
  }

  // ---------------------------------------------------------------- step 6

  /** Where the metadata, the targets and root.json are served from, under the bucket URL and
      the repository's prefix. */
  const MetadataDir := "/metadata/"
  const TargetsDir := "/targets/"
  const RootJsonPath := "/root.json"

  /** The output fields of a repository entry that were already set are left as they were;
      the digest is only ever written together with the root role URL. */
  predicate OutputsKept(before: RepoConfig, after: RepoConfig) {
    && (before.metadataBaseUrl.Some? ==> after.metadataBaseUrl == before.metadataBaseUrl)
    && (before.targetsUrl.Some? ==> after.targetsUrl == before.targetsUrl)
    && (before.rootRoleUrl.Some? ==> after.rootRoleUrl == before.rootRoleUrl && after.rootRoleSha512 == before.rootRoleSha512)
  }

  /** The settings of a repository entry are not changed by provisioning it; only the key sets
      (by the key steps) and the output fields are. */
  predicate SettingsKept(before: RepoConfig, after: RepoConfig) {
    && after.fileHostingConfigName == before.fileHostingConfigName
    && after.pubKeyThreshold == before.pubKeyThreshold
    && after.rootKeyThreshold == before.rootKeyThreshold
  }

  /** All three URLs of a repository entry are known. */
  predicate Provisioned(rc: RepoConfig) {
    rc.metadataBaseUrl.Some? && rc.targetsUrl.Some? && rc.rootRoleUrl.Some?
  }

  /** A repository entry as step 6 leaves it, with the outcome. */
  datatype Recorded = Recorded(result: Result<()>, rc: RepoConfig, history: History)

  /** What step 6 does: each URL that is not set yet is parsed from the bucket URL and prefix,
      stopping at the first that does not parse; the root role URL is filled in together with
      the SHA-512 digest of root.json. */
  function OutputsRecorded(w: World, h: History, rc: RepoConfig, bucketUrl: string, prefix: string,
                           rootRolePath: string): Recorded
  {
    var metadata := if rc.metadataBaseUrl.Some? then rc.metadataBaseUrl
                    else w.parseUrl(bucketUrl + prefix + MetadataDir);
    if metadata.None? then Recorded(Err(ParseUrl(bucketUrl)), rc, h)
    else
      var rc1 := rc.(metadataBaseUrl := metadata);
      var targets := if rc1.targetsUrl.Some? then rc1.targetsUrl
                     else w.parseUrl(bucketUrl + prefix + TargetsDir);
      if targets.None? then Recorded(Err(ParseUrl(bucketUrl)), rc1, h)
      else
        var rc2 := rc1.(targetsUrl := targets);
        if rc2.rootRoleUrl.Some? then Recorded(Ok(()), rc2, h)
        else
          var root := w.parseUrl(bucketUrl + prefix + RootJsonPath);
          if root.None? then Recorded(Err(ParseUrl(bucketUrl)), rc2, h)
          else
            var rc3 := rc2.(rootRoleUrl := root);
            var h1 := h + [ReadForDigest(rootRolePath)];
            match w.readFile(h1)
            case Content(data) => Recorded(Ok(()), rc3.(rootRoleSha512 := Some(w.sha512Hex(data))), h1)
            case _ => Recorded(Err(FileRead(rootRolePath)), rc3, h1)
  }

  /** Step 6 changes only the output fields and keeps those already set; after a success all
      three URLs are known, each filled-in one lies under the bucket URL and prefix, and a
      filled-in root role URL comes with the digest of root.json as read just then. */
  lemma OutputsRecordedContract(w: World, h: History, rc: RepoConfig, bucketUrl: string, prefix: string,
                                rootRolePath: string)
    ensures var o := OutputsRecorded(w, h, rc, bucketUrl, prefix, rootRolePath);
      && o.rc == rc.(metadataBaseUrl := o.rc.metadataBaseUrl, targetsUrl := o.rc.targetsUrl,
                     rootRoleUrl := o.rc.rootRoleUrl, rootRoleSha512 := o.rc.rootRoleSha512)
      && OutputsKept(rc, o.rc)
      && (o.history == h || o.history == h + [ReadForDigest(rootRolePath)])
      && (o.result.Ok? ==> Provisioned(o.rc))
      && (o.result.Ok? && rc.metadataBaseUrl.None? ==> o.rc.metadataBaseUrl == w.parseUrl(bucketUrl + prefix + MetadataDir))
      && (o.result.Ok? && rc.targetsUrl.None? ==> o.rc.targetsUrl == w.parseUrl(bucketUrl + prefix + TargetsDir))
      && (o.result.Ok? && rc.rootRoleUrl.None? ==>
            && o.rc.rootRoleUrl == w.parseUrl(bucketUrl + prefix + RootJsonPath)
            && o.history == h + [ReadForDigest(rootRolePath)] && w.readFile(o.history).Content?
            && o.rc.rootRoleSha512 == Some(w.sha512Hex(w.readFile(o.history).data)))
      && (rc.rootRoleUrl.Some? ==> o.history == h)
      && (o.result.Err? ==> o.result.error == ParseUrl(bucketUrl) || o.result.error == FileRead(rootRolePath))
  {
  }

  /** Step 6: fills in the metadata, targets and root role URLs under the bucket URL and prefix
      where they are not set yet; when the root role URL is filled in, the SHA-512 digest of
      root.json is recorded with it. */
  method RecordOutputs(w: World, h: History, rc: RepoConfig, bucketUrl: string, prefix: string, rootRolePath: string)
    returns (r: Result<()>, rc': RepoConfig, h': History)
    ensures Recorded(r, rc', h') == OutputsRecorded(w, h, rc, bucketUrl, prefix, rootRolePath)
    ensures InPhase(h, h', 8)
  {
    rc', h' := rc, h;
    if rc'.metadataBaseUrl.None? {
      var url := w.parseUrl(bucketUrl + prefix + MetadataDir);
      if url.None? {
        return Err(ParseUrl(bucketUrl)), rc', h';
      }
      rc' := rc'.(metadataBaseUrl := url);
    }
    if rc'.targetsUrl.None? {
      var url := w.parseUrl(bucketUrl + prefix + TargetsDir);
      if url.None? {
        return Err(ParseUrl(bucketUrl)), rc', h';
      }
      rc' := rc'.(targetsUrl := url);
    }
    if rc'.rootRoleUrl.None? {
      var url := w.parseUrl(bucketUrl + prefix + RootJsonPath);
      if url.None? {
        return Err(ParseUrl(bucketUrl)), rc', h';
      }
      rc' := rc'.(rootRoleUrl := url);
      h' := h' + [ReadForDigest(rootRolePath)];
      var content := w.readFile(h');
      if !content.Content? {
        return Err(FileRead(rootRolePath)), rc', h';
      }
      rc' := rc'.(rootRoleSha512 := Some(w.sha512Hex(content.data)));
    }
    r := Ok(());
  }

  // ---------------------------------------------------------------- one repository

  /** `after` differs from `before` at most in the stack ARNs and bucket names of its storage
      entries. */
  predicate AwsOutputsOnly(before: Option<AwsConfig>, after: Option<AwsConfig>) {
    || after == before
    || (&& before.Some? && after.Some? && before.value.s3.Some? && after.value.s3.Some?
        && after.value.s3.value.Keys == before.value.s3.value.Keys
        && forall n | n in before.value.s3.value ::
             after.value.s3.value[n] == before.value.s3.value[n].(stackArn := after.value.s3.value[n].stackArn,
                                                                 bucketName := after.value.s3.value[n].bucketName))
  }

  lemma AwsOutputsOnlyTrans(a: Option<AwsConfig>, b: Option<AwsConfig>, c: Option<AwsConfig>)
    requires AwsOutputsOnly(a, b) && AwsOutputsOnly(b, c)
    ensures AwsOutputsOnly(a, c)
  {
  }

  /** Recording stack outputs does not change how any repository resolves: its region, VPC
      endpoint and prefix come from fields that are never written. */
  lemma ResolveIgnoresOutputs(name: string, rc: RepoConfig, aws: Option<AwsConfig>, aws': Option<AwsConfig>)
    requires AwsOutputsOnly(aws, aws')
    ensures Resolve(name, rc, aws') == Resolve(name, rc, aws)
  {
  }

  /** The storage configuration with the stack ARN and bucket name of `stackName`'s entry set
      to those of `bucket`. */
  function WithStackOutputs(aws: Option<AwsConfig>, stackName: string, bucket: Bucket): (r: Option<AwsConfig>)
    requires aws.Some? && aws.value.s3.Some? && stackName in aws.value.s3.value
    ensures AwsOutputsOnly(aws, r)
    ensures r.Some? && r.value.s3.Some? && stackName in r.value.s3.value
    ensures r.value.s3.value[stackName].stackArn == Some(bucket.stackArn)
    ensures r.value.s3.value[stackName].bucketName == Some(bucket.name)
    ensures forall n | n in aws.value.s3.value && n != stackName :: r.value.s3.value[n] == aws.value.s3.value[n]
  {
    var entries := aws.value.s3.value;
    Some(aws.value.(s3 := Some(entries[stackName := entries[stackName].(
      stackArn := Some(bucket.stackArn), bucketName := Some(bucket.name))])))
  }

  /** What steps 2 to 6 do for a repository whose bucket exists: root.json is published, the
      key sets are written back to the entry as the key steps left them, then the output
      fields are recorded. */
  function RepoPublished(w: World, h: History, name: string, rc: RepoConfig, res: Resolved, bucket: Bucket,
                         rootRolePath: string): Recorded
    requires MapOrders(w)
  {
    var published := RootPublished(w, h, name, res.region, bucket.name, res.prefix, res.vpcId,
                                   res.signingKeys, res.rootKeys, rc.pubKeyThreshold, rc.rootKeyThreshold,
                                   rootRolePath);
    var rc' := rc.(signingKeys := Some(published.signingKeys), rootKeys := Some(published.rootKeys));
    if published.result.Err? then Recorded(published.result, rc', published.history)
    else OutputsRecorded(w, published.history, rc', bucket.url, res.prefix, rootRolePath)
  }

  /** Steps 2 to 6 for a repository whose bucket exists. */
  method PublishRepo(w: World, h: History, name: string, rc: RepoConfig, res: Resolved, bucket: Bucket,
                     rootRolePath: string)
    returns (r: Result<()>, rc': RepoConfig, h': History)
    requires MapOrders(w)
    ensures Recorded(r, rc', h') == RepoPublished(w, h, name, rc, res, bucket, rootRolePath)
    ensures Ordered(h, h', 2, 8)
  {
    var signingKeys, rootKeys;
    r, signingKeys, rootKeys, h' := PublishRoot(w, h, name, res.region, bucket.name, res.prefix, res.vpcId,
                                                res.signingKeys, res.rootKeys, rc.pubKeyThreshold,
                                                rc.rootKeyThreshold, rootRolePath);
    rc' := rc.(signingKeys := Some(signingKeys), rootKeys := Some(rootKeys));
    if r.Err? {
      return;
    }
    ghost var h1 := h';
    r, rc', h' := RecordOutputs(w, h', rc', bucket.url, res.prefix, rootRolePath);
    Then(h, h1, h', 2, 7, 8);
  }

  /** The entry `rc` has both key sets and both thresholds, and among the events h' adds to h:
      every available key of a KMS publication set was added for publication with the
      publication thresholds set; every available key of a KMS root set was added for root
      with the root threshold set, and signed root.json. */
  predicate KeysPublished(w: World, h: History, h': History, rc: RepoConfig, rootRolePath: string) {
    && rc.signingKeys.Some? && rc.rootKeys.Some? && rc.pubKeyThreshold.Some? && rc.rootKeyThreshold.Some?
    && (rc.signingKeys.value.Kms? ==>
          && rc.signingKeys.value.config.Some?
          && AddedByAll(h, h', w.defaultRegion, rc.signingKeys.value.config.value.availableKeys, Publication,
                        rc.pubKeyThreshold.value, rootRolePath))
    && (rc.rootKeys.value.Kms? ==>
          && rc.rootKeys.value.config.Some?
          && AddedByAll(h, h', w.defaultRegion, rc.rootKeys.value.config.value.availableKeys, Root,
                        rc.rootKeyThreshold.value, rootRolePath)
          && SignedByAll(h, h', rc.rootKeys.value.config.value.availableKeys, rootRolePath))
  }

  /** Key evidence between h and h' is still evidence between an earlier start and a later
      end. */
  lemma KeysPublishedWiden(w: World, h0: History, h: History, h': History, h'': History, rc: RepoConfig,
                           rootRolePath: string)
    requires |h0| <= |h| && Extends(h', h'')
    requires KeysPublished(w, h, h', rc, rootRolePath)
    ensures KeysPublished(w, h0, h'', rc, rootRolePath)
  {
    if rc.signingKeys.value.Kms? {
      StillAdded(h0, h, h', h'', w.defaultRegion, rc.signingKeys.value.config.value.availableKeys, Publication,
                 rc.pubKeyThreshold.value, rootRolePath);
    }
    if rc.rootKeys.value.Kms? {
      var keys := rc.rootKeys.value.config.value.availableKeys;
      StillAdded(h0, h, h', h'', w.defaultRegion, keys, Root, rc.rootKeyThreshold.value, rootRolePath);
      StillRecorded(w, h0, h, h', h'', "", rootRolePath, keys, "", "", "");
    }
  }

  /** Steps 2 to 6 change the entry's settings not at all and its outputs only where unset.
      After a success: a policy ending with the read grant was put on the bucket, root.json was
      expired, every available key of each KMS key set was added for its role with that role's
      thresholds, every available root key of a KMS root key set signed root.json, and it was
      uploaded into the bucket under the prefix;
      all three URLs are known, and each one that was unset lies under the bucket's URL and the
      prefix. */
  lemma RepoPublishedContract(w: World, h: History, name: string, rc: RepoConfig, res: Resolved, bucket: Bucket,
                              rootRolePath: string)
    requires MapOrders(w)
    ensures var o := RepoPublished(w, h, name, rc, res, bucket, rootRolePath);
      && Extends(h, o.history)
      && OutputsKept(rc, o.rc) && SettingsKept(rc, o.rc)
      && o.rc.rootKeys.Some?
      && (o.result.Ok? ==>
            && Provisioned(o.rc)
            && PolicyStored(h, o.history, bucket.name, res.prefix, res.vpcId) && RootExpired(w, h, o.history, rootRolePath)
            && KeysPublished(w, h, o.history, o.rc, rootRolePath)
            && RootUploaded(h, o.history, res.region, bucket.name, res.prefix)
            && (rc.metadataBaseUrl.None? ==> o.rc.metadataBaseUrl == w.parseUrl(bucket.url + res.prefix + MetadataDir))
            && (rc.targetsUrl.None? ==> o.rc.targetsUrl == w.parseUrl(bucket.url + res.prefix + TargetsDir))
            && (rc.rootRoleUrl.None? ==> o.rc.rootRoleUrl == w.parseUrl(bucket.url + res.prefix + RootJsonPath)))
  {
    var published := RootPublished(w, h, name, res.region, bucket.name, res.prefix, res.vpcId,
                                   res.signingKeys, res.rootKeys, rc.pubKeyThreshold, rc.rootKeyThreshold,
                                   rootRolePath);
    RootPublishedOk(w, h, name, res.region, bucket.name, res.prefix, res.vpcId,
                    res.signingKeys, res.rootKeys, rc.pubKeyThreshold, rc.rootKeyThreshold, rootRolePath);
    RootPublishedSigned(w, h, name, res.region, bucket.name, res.prefix, res.vpcId,
                        res.signingKeys, res.rootKeys, rc.pubKeyThreshold, rc.rootKeyThreshold, rootRolePath);
    if published.result.Ok? {
      var rc' := rc.(signingKeys := Some(published.signingKeys), rootKeys := Some(published.rootKeys));
      var recorded := OutputsRecorded(w, published.history, rc', bucket.url, res.prefix, rootRolePath);
      OutputsRecordedContract(w, published.history, rc', bucket.url, res.prefix, rootRolePath);
      assert Extends(published.history, recorded.history);
      ExtendsTrans(h, published.history, recorded.history);
      StillRecorded(w, h, h, published.history, recorded.history, bucket.name, rootRolePath,
                    map[], res.region, res.prefix, res.vpcId);
      assert KeysPublished(w, h, published.history, rc', rootRolePath);
      KeysPublishedWiden(w, h, h, published.history, recorded.history, rc', rootRolePath);
    }
  }

  /** A repository entry and the storage configuration as one iteration leaves them, with the
      outcome. */
  datatype Provision = Provision(result: Result<()>, rc: RepoConfig, aws: Option<AwsConfig>, history: History)

  /** What one iteration of create_infra's loop does for the repository `name`: step 0, the
      bucket (whose stack ARN and name go into the storage entry straight away), then steps 2
      to 6. */
  function RepoProvisioned(w: World, h: History, name: string, rc: RepoConfig, aws: Option<AwsConfig>,
                           rootRolePath: string): Provision
    requires TwoOutputs(w) && MapOrders(w)
  {
    var resolved := Resolve(name, rc, aws);
    if resolved.Err? then Provision(Err(resolved.error), rc, aws, h)
    else
      var res := resolved.value;
      var created := BucketReady(w, h, res, rootRolePath);
      if created.result.Err? then Provision(Err(created.result.error), rc, aws, created.history)
      else
        var bucket := created.result.value;
        var published := RepoPublished(w, created.history, name, rc, res, bucket, rootRolePath);
        Provision(published.result, published.rc, WithStackOutputs(aws, res.stackName, bucket), published.history)
  }

  /** The bucket name among the outputs of the stack awaited last in h, if it reported one. */
  function StackBucket(w: World, h: History): Option<string> {
    var outputs := w.stackOutputs(h);
    if outputs.Ready? && |outputs.values| > 0 then outputs.values[0] else None
  }

  /** The evidence, among the events h' adds to h, that a repository was published: its stack
      was awaited and reported `bucketName` as its bucket, a policy ending with the read grant
      for the repository's prefix was put on that bucket, root.json was expired, the keys of
      the entry `rc` were added and signed as KeysPublished says, and root.json was uploaded
      into the bucket under the prefix. */
  predicate Published(w: World, h: History, h': History, res: Resolved, bucketName: string,
                      rc: RepoConfig, rootRolePath: string) {
    && (exists i | |h| <= i < |h'| ::
          h'[i] == AwaitStack(res.region, res.stackName) && StackBucket(w, h'[..i + 1]) == Some(bucketName))
    && PolicyStored(h, h', bucketName, res.prefix, res.vpcId)
    && RootExpired(w, h, h', rootRolePath)
    && KeysPublished(w, h, h', rc, rootRolePath)
    && RootUploaded(h, h', res.region, bucketName, res.prefix)
  }

  /** One iteration changes the entry's settings not at all and its outputs only where unset,
      and the storage configuration only in the stack outputs; an entry that does not resolve
      changes nothing; after a success the entry has all three URLs. */
  lemma RepoProvisionedKeeps(w: World, h: History, name: string, rc: RepoConfig, aws: Option<AwsConfig>,
                             rootRolePath: string)
    requires TwoOutputs(w) && MapOrders(w)
    ensures var p := RepoProvisioned(w, h, name, rc, aws, rootRolePath);
      && Extends(h, p.history)
      && OutputsKept(rc, p.rc) && SettingsKept(rc, p.rc)
      && AwsOutputsOnly(aws, p.aws)
      && (Resolve(name, rc, aws).Err? ==> p == Provision(Err(Resolve(name, rc, aws).error), rc, aws, h))
      && (p.result.Ok? ==> Provisioned(p.rc))
  {
    var resolved := Resolve(name, rc, aws);
    if resolved.Ok? {
      var res := resolved.value;
      var created := BucketReady(w, h, res, rootRolePath);
      assert Extends(h, created.history);
      if created.result.Ok? {
        var published := RepoPublished(w, created.history, name, rc, res, created.result.value, rootRolePath);
        RepoPublishedContract(w, created.history, name, rc, res, created.result.value, rootRolePath);
        ExtendsTrans(h, created.history, published.history);
      }
    }
  }

  /** A successful iteration resolved the entry and got its bucket from the awaited stack. */
  lemma RepoProvisionedOk(w: World, h: History, name: string, rc: RepoConfig, aws: Option<AwsConfig>,
                          rootRolePath: string)
    requires TwoOutputs(w) && MapOrders(w)
    ensures RepoProvisioned(w, h, name, rc, aws, rootRolePath).result.Ok? ==>
              && Resolve(name, rc, aws).Ok?
              && BucketReady(w, h, Resolve(name, rc, aws).value, rootRolePath).result.Ok?
  {
  }

  /** An iteration whose entry resolved to `res` and whose stack yielded `bucket` recorded that
      bucket's stack ARN and name in the storage entry and then ran steps 2 to 6 on it. */
  lemma RepoProvisionedBucket(w: World, h: History, name: string, rc: RepoConfig, aws: Option<AwsConfig>,
                              rootRolePath: string, res: Resolved, bucket: Bucket)
    requires TwoOutputs(w) && MapOrders(w)
    requires Resolve(name, rc, aws) == Ok(res) && BucketReady(w, h, res, rootRolePath).result == Ok(bucket)
    ensures var p := RepoProvisioned(w, h, name, rc, aws, rootRolePath);
      && p.aws == WithStackOutputs(aws, res.stackName, bucket)
      && Recorded(p.result, p.rc, p.history)
         == RepoPublished(w, BucketReady(w, h, res, rootRolePath).history, name, rc, res, bucket, rootRolePath)
  {
  }

  /** Evidence left after the stack was awaited is evidence for the whole iteration. */
  lemma PublishedAfterStack(w: World, h: History, h1: History, h2: History, res: Resolved, bucketName: string,
                            rc: RepoConfig, rootRolePath: string)
    requires Extends(h, h1) && |h1| > |h| && h1[|h1| - 1] == AwaitStack(res.region, res.stackName)
    requires StackBucket(w, h1) == Some(bucketName)
    requires Extends(h1, h2)
    requires PolicyStored(h1, h2, bucketName, res.prefix, res.vpcId) && RootExpired(w, h1, h2, rootRolePath)
    requires KeysPublished(w, h1, h2, rc, rootRolePath)
    requires RootUploaded(h1, h2, res.region, bucketName, res.prefix)
    ensures Published(w, h, h2, res, bucketName, rc, rootRolePath)
  {
    StillRecorded(w, h, h1, h2, h2, bucketName, rootRolePath, map[], res.region, res.prefix, res.vpcId);
    KeysPublishedWiden(w, h, h1, h2, h2, rc, rootRolePath);
    assert h2[|h1| - 1] == h2[..|h1|][|h1| - 1];
    assert h2[..(|h1| - 1) + 1] == h1;
  }

  /** Steps 2 to 6 run right after the stack was awaited leave, after a success, the evidence
      that the repository was published into the bucket of that stack. */
  lemma RepoPublishedAfterStack(w: World, h: History, h1: History, name: string, rc: RepoConfig, res: Resolved,
                                bucket: Bucket, rootRolePath: string)
    requires MapOrders(w)
    requires Extends(h, h1) && |h1| > |h| && h1[|h1| - 1] == AwaitStack(res.region, res.stackName)
    requires StackBucket(w, h1) == Some(bucket.name)
    ensures var o := RepoPublished(w, h1, name, rc, res, bucket, rootRolePath);
      o.result.Ok? ==> o.rc.rootKeys.Some? && Published(w, h, o.history, res, bucket.name, o.rc, rootRolePath)
  {
    var o := RepoPublished(w, h1, name, rc, res, bucket, rootRolePath);
    RepoPublishedContract(w, h1, name, rc, res, bucket, rootRolePath);
    if o.result.Ok? {
      PublishedAfterStack(w, h, h1, o.history, res, bucket.name, o.rc, rootRolePath);
    }
  }

  /** A successful iteration left, among its events, the evidence that the repository was
      published into the bucket of its awaited stack. */
  lemma RepoProvisionedPublished(w: World, h: History, name: string, rc: RepoConfig, aws: Option<AwsConfig>,
                                 rootRolePath: string, res: Resolved, bucket: Bucket)
    requires TwoOutputs(w) && MapOrders(w)
    requires Resolve(name, rc, aws) == Ok(res) && BucketReady(w, h, res, rootRolePath).result == Ok(bucket)
    ensures var p := RepoProvisioned(w, h, name, rc, aws, rootRolePath);
      p.result.Ok? ==>
        && p.rc.rootKeys.Some?
        && Published(w, h, p.history, res, bucket.name, p.rc, rootRolePath)
  {
    var created := BucketReady(w, h, res, rootRolePath).history;
    BucketReadyOk(w, h, res, rootRolePath);
    RepoProvisionedBucket(w, h, name, rc, aws, rootRolePath, res, bucket);
    RepoPublishedAfterStack(w, h, created, name, rc, res, bucket, rootRolePath);
  }

  // ---------------------------------------------------------------- every repository

  /** One iteration of the loop, as a function of the history, the repository's name and entry,
      and the storage configuration. */
  type Step = (History, string, RepoConfig, Option<AwsConfig>) -> Provision

  /** `step` is create_infra's iteration, RepoProvisioned. */
  ghost predicate IsRepoStep(w: World, rootRolePath: string, step: Step)
    requires TwoOutputs(w) && MapOrders(w)
  {
    forall h, name, rc, aws {:trigger RepoProvisioned(w, h, name, rc, aws, rootRolePath)} ::
      step(h, name, rc, aws) == RepoProvisioned(w, h, name, rc, aws, rootRolePath)
  }

  /** create_infra's iteration as a function value, for the loop below. It is known only
      through its contract, so facts about the loop that hold for any step are proved without
      going through the steps of an iteration. */
  ghost function RepoStep(w: World, rootRolePath: string): (step: Step)
    requires TwoOutputs(w) && MapOrders(w)
    ensures IsRepoStep(w, rootRolePath, step)
  {
    var provisioned: Step := (h, name, rc, aws) => RepoProvisioned(w, h, name, rc, aws, rootRolePath);
    assert IsRepoStep(w, rootRolePath, provisioned);
    var step :| IsRepoStep(w, rootRolePath, step);
    step
  }

  /** What an iteration that turned `rc` and `aws` into `p` keeps. */
  predicate IterationKeeps(h: History, rc: RepoConfig, aws: Option<AwsConfig>, p: Provision) {
    && Extends(h, p.history)
    && OutputsKept(rc, p.rc) && SettingsKept(rc, p.rc)
    && AwsOutputsOnly(aws, p.aws)
    && (p.result.Ok? ==> Provisioned(p.rc))
  }

  /** Every iteration of `step` keeps what IterationKeeps names. */
  ghost predicate StepKeeps(step: Step) {
    forall h, name, rc, aws :: IterationKeeps(h, rc, aws, step(h, name, rc, aws))
  }

  /** create_infra's iteration only appends events, keeps the entry's settings and set outputs,
      changes the storage configuration only in stack outputs, and leaves every URL set after a
      success. */
  lemma RepoStepKeeps(w: World, rootRolePath: string)
    requires TwoOutputs(w) && MapOrders(w)
    ensures StepKeeps(RepoStep(w, rootRolePath))
  {
    var step := RepoStep(w, rootRolePath);
    forall h, name, rc, aws ensures IterationKeeps(h, rc, aws, step(h, name, rc, aws)) {
      RepoProvisionedKeeps(w, h, name, rc, aws, rootRolePath);
      assert step(h, name, rc, aws) == RepoProvisioned(w, h, name, rc, aws, rootRolePath);
    }
  }

  /** The repository map and the storage configuration as the loop leaves them, with the
      outcome. */
  datatype Progress = Progress(result: Result<()>, repos: map<string, RepoConfig>, aws: Option<AwsConfig>,
                               history: History)

  /** What create_infra's loop does for the repositories `names`, in that order, with `step`
      for each, stopping at the first failure. */
  function ProvisionAll(h: History, names: seq<string>, repos: map<string, RepoConfig>,
                        aws: Option<AwsConfig>, step: Step): (a: Progress)
    requires forall n | n in names :: n in repos
    ensures a.repos.Keys == repos.Keys
    decreases |names|
  {
    if names == [] then Progress(Ok(()), repos, aws, h)
    else
      var before := ProvisionAll(h, names[..|names| - 1], repos, aws, step);
      if before.result.Err? then before
      else
        var name := names[|names| - 1];
        var p := step(before.history, name, before.repos[name], before.aws);
        Progress(p.result, before.repos[name := p.rc], p.aws, p.history)
  }

  /** One more repository: the loop over `names[..i + 1]` is the loop over `names[..i]`
      followed by the iteration for `names[i]`, unless an earlier one failed. */
  lemma ProvisionAllSnoc(h: History, names: seq<string>, i: nat, repos: map<string, RepoConfig>,
                         aws: Option<AwsConfig>, step: Step)
    requires forall n | n in names :: n in repos
    requires i < |names|
    ensures var before := ProvisionAll(h, names[..i], repos, aws, step);
            var p := step(before.history, names[i], before.repos[names[i]], before.aws);
      before.result.Ok? ==>
        ProvisionAll(h, names[..i + 1], repos, aws, step) == Progress(p.result, before.repos[names[i] := p.rc], p.aws, p.history)
  {
    assert names[..i + 1][..i] == names[..i];
  }

  /** Once one repository has failed, the loop does nothing more. */
  lemma {:induction false} ProvisionAllStops(h: History, names: seq<string>, k: nat,
                                             repos: map<string, RepoConfig>, aws: Option<AwsConfig>, step: Step)
    requires forall n | n in names :: n in repos
    requires k <= |names|
    requires ProvisionAll(h, names[..k], repos, aws, step).result.Err?
    ensures ProvisionAll(h, names, repos, aws, step) == ProvisionAll(h, names[..k], repos, aws, step)
    decreases |names| - k
  {
    if k < |names| {
      var init := names[..|names| - 1];
      assert init[..k] == names[..k];
      ProvisionAllStops(h, init, k, repos, aws, step);
    } else {
      assert names[..k] == names;
    }
  }

  /** When the loop succeeds, its iteration for the j-th repository started from a successful
      run over the ones before it and succeeded too. */
  lemma ProvisionAllStep(h: History, names: seq<string>, j: nat, repos: map<string, RepoConfig>,
                         aws: Option<AwsConfig>, step: Step)
    requires forall n | n in names :: n in repos
    requires j < |names|
    ensures ProvisionAll(h, names, repos, aws, step).result.Ok? ==>
              var before := ProvisionAll(h, names[..j], repos, aws, step);
              && before.result.Ok?
              && step(before.history, names[j], before.repos[names[j]], before.aws).result.Ok?
  {
    var before := ProvisionAll(h, names[..j], repos, aws, step);
    if before.result.Err? {
      ProvisionAllStops(h, names, j, repos, aws, step);
    } else {
      ProvisionAllSnoc(h, names, j, repos, aws, step);
      if ProvisionAll(h, names[..j + 1], repos, aws, step).result.Err? {
        ProvisionAllStops(h, names, j + 1, repos, aws, step);
      }
    }
  }

  /** The loop only appends events, and changes the storage configuration only in the stack
      outputs. */
  lemma {:induction false} ProvisionAllExtends(h: History, names: seq<string>, repos: map<string, RepoConfig>,
                                               aws: Option<AwsConfig>, step: Step)
    requires StepKeeps(step)
    requires forall n | n in names :: n in repos
    ensures var a := ProvisionAll(h, names, repos, aws, step);
      Extends(h, a.history) && AwsOutputsOnly(aws, a.aws)
    decreases |names|
  {
    if names != [] {
      var init := names[..|names| - 1];
      var name := names[|names| - 1];
      ProvisionAllExtends(h, init, repos, aws, step);
      var before := ProvisionAll(h, init, repos, aws, step);
      if before.result.Ok? {
        var p := step(before.history, name, before.repos[name], before.aws);
        assert IterationKeeps(before.history, before.repos[name], before.aws, p);
        ExtendsTrans(h, before.history, p.history);
        AwsOutputsOnlyTrans(aws, before.aws, p.aws);
      }
    }
  }

  /** The loop keeps every repository's settings and its outputs that were set. */
  lemma {:induction false} ProvisionAllKeeps(h: History, names: seq<string>, repos: map<string, RepoConfig>,
                                             aws: Option<AwsConfig>, step: Step)
    requires StepKeeps(step)
    requires forall n | n in names :: n in repos
    ensures var a := ProvisionAll(h, names, repos, aws, step);
      forall n | n in repos :: OutputsKept(repos[n], a.repos[n]) && SettingsKept(repos[n], a.repos[n])
    decreases |names|
  {
    if names != [] {
      var init := names[..|names| - 1];
      var name := names[|names| - 1];
      ProvisionAllKeeps(h, init, repos, aws, step);
      var before := ProvisionAll(h, init, repos, aws, step);
      if before.result.Ok? {
        var p := step(before.history, name, before.repos[name], before.aws);
        assert IterationKeeps(before.history, before.repos[name], before.aws, p);
        var after := before.repos[name := p.rc];
        forall n | n in repos ensures OutputsKept(repos[n], after[n]) && SettingsKept(repos[n], after[n]) {
          if n == name {
            assert OutputsKept(repos[n], before.repos[n]) && SettingsKept(repos[n], before.repos[n]);
          } else {
            assert after[n] == before.repos[n];
          }
        }
      }
    }
  }

  /** The loop leaves the repositories it does not reach as they were. */
  lemma {:induction false} ProvisionAllUntouched(h: History, names: seq<string>, repos: map<string, RepoConfig>,
                                                 aws: Option<AwsConfig>, step: Step)
    requires forall n | n in names :: n in repos
    ensures var a := ProvisionAll(h, names, repos, aws, step);
      forall n | n in repos && n !in names :: a.repos[n] == repos[n]
    decreases |names|
  {
    if names != [] {
      var init := names[..|names| - 1];
      var name := names[|names| - 1];
      assert forall n | n in init :: n in names;
      ProvisionAllUntouched(h, init, repos, aws, step);
    }
  }

  /** The repositories after the first k change nothing in the entries of the others. */
  lemma {:induction false} ProvisionAllLater(h: History, names: seq<string>, k: nat, repos: map<string, RepoConfig>,
                                             aws: Option<AwsConfig>, step: Step)
    requires forall n | n in names :: n in repos
    requires k <= |names|
    ensures forall n | n in repos && n !in names[k..] ::
              ProvisionAll(h, names, repos, aws, step).repos[n] == ProvisionAll(h, names[..k], repos, aws, step).repos[n]
    decreases |names| - k
  {
    if k == |names| {
      assert names[..k] == names;
    } else {
      var init := names[..|names| - 1];
      var name := names[|names| - 1];
      assert init[..k] == names[..k];
      assert names[k..] == init[k..] + [name];
      assert forall n | n in init :: n in names;
      ProvisionAllLater(h, init, k, repos, aws, step);
    }
  }

  /** When the loop succeeds, every repository it went through has all three URLs. */
  lemma {:induction false} ProvisionAllProvisioned(h: History, names: seq<string>, repos: map<string, RepoConfig>,
                                                   aws: Option<AwsConfig>, step: Step)
    requires StepKeeps(step)
    requires forall n | n in names :: n in repos
    ensures var a := ProvisionAll(h, names, repos, aws, step);
      a.result.Ok? ==> forall n | n in names :: Provisioned(a.repos[n])
    decreases |names|
  {
    if names != [] {
      var init := names[..|names| - 1];
      var name := names[|names| - 1];
      ProvisionAllProvisioned(h, init, repos, aws, step);
      var before := ProvisionAll(h, init, repos, aws, step);
      if before.result.Ok? {
        var p := step(before.history, name, before.repos[name], before.aws);
        assert IterationKeeps(before.history, before.repos[name], before.aws, p);
        if p.result.Ok? {
          var after := before.repos[name := p.rc];
          forall n | n in names ensures Provisioned(after[n]) {
            if n != name {
              assert n in init by {
                assert names == init + [name];
              }
            }
          }
        }
      }
    }
  }

  /** When create_infra's loop succeeds, the j-th repository it took resolved, got its bucket
      from its awaited stack and was published into that bucket, starting from the state the
      repositories before it left. */
  lemma ProvisionAllPublished(w: World, h: History, names: seq<string>, j: nat,
                              repos: map<string, RepoConfig>, aws: Option<AwsConfig>, rootRolePath: string)
    requires TwoOutputs(w) && MapOrders(w)
    requires forall n | n in names :: n in repos
    requires j < |names|
    ensures var step := RepoStep(w, rootRolePath);
            var before := ProvisionAll(h, names[..j], repos, aws, step);
            var p := RepoProvisioned(w, before.history, names[j], before.repos[names[j]], before.aws, rootRolePath);
            var resolved := Resolve(names[j], before.repos[names[j]], before.aws);
      ProvisionAll(h, names, repos, aws, step).result.Ok? ==>
        && before.result.Ok? && p.result.Ok?
        && resolved.Ok? && BucketReady(w, before.history, resolved.value, rootRolePath).result.Ok?
        && p.rc.rootKeys.Some?
        && Published(w, before.history, p.history, resolved.value,
                     BucketReady(w, before.history, resolved.value, rootRolePath).result.value.name,
                     p.rc, rootRolePath)
  {
    var step := RepoStep(w, rootRolePath);
    var before := ProvisionAll(h, names[..j], repos, aws, step);
    var name := names[j];
    ProvisionAllStep(h, names, j, repos, aws, step);
    if ProvisionAll(h, names, repos, aws, step).result.Ok? {
      var p := RepoProvisioned(w, before.history, name, before.repos[name], before.aws, rootRolePath);
      assert p.result.Ok?;
      RepoProvisionedOk(w, before.history, name, before.repos[name], before.aws, rootRolePath);
      var res := Resolve(name, before.repos[name], before.aws).value;
      var bucket := BucketReady(w, before.history, res, rootRolePath).result.value;
      RepoProvisionedPublished(w, before.history, name, before.repos[name], before.aws, rootRolePath, res, bucket);
    }
  }

  /** Evidence among the events h' adds to h is still evidence for an earlier start and a
      later end. */
  lemma PublishedWiden(w: World, h0: History, h: History, h': History, h'': History, res: Resolved,
                       bucketName: string, rc: RepoConfig, rootRolePath: string)
    requires |h0| <= |h| && Extends(h', h'')
    requires Published(w, h, h', res, bucketName, rc, rootRolePath)
    ensures Published(w, h0, h'', res, bucketName, rc, rootRolePath)
  {
    StillRecorded(w, h0, h, h', h'', bucketName, rootRolePath, map[], res.region, res.prefix, res.vpcId);
    KeysPublishedWiden(w, h0, h, h', h'', rc, rootRolePath);
    var i :| |h| <= i < |h'| && h'[i] == AwaitStack(res.region, res.stackName)
             && StackBucket(w, h'[..i + 1]) == Some(bucketName);
    assert h''[i] == h''[..|h'|][i];
    assert h''[..i + 1] == h'[..i + 1];
  }

  /** The history the loop over the first k repositories leaves is extended by the whole
      loop. */
  lemma {:induction false} ProvisionAllPrefix(h: History, names: seq<string>, k: nat, repos: map<string, RepoConfig>,
                                              aws: Option<AwsConfig>, step: Step)
    requires StepKeeps(step)
    requires forall n | n in names :: n in repos
    requires k <= |names|
    ensures Extends(ProvisionAll(h, names[..k], repos, aws, step).history, ProvisionAll(h, names, repos, aws, step).history)
    decreases |names| - k
  {
    if k == |names| {
      assert names[..k] == names;
    } else {
      var init := names[..|names| - 1];
      var name := names[|names| - 1];
      assert init[..k] == names[..k];
      ProvisionAllPrefix(h, init, k, repos, aws, step);
      var before := ProvisionAll(h, init, repos, aws, step);
      if before.result.Ok? {
        var p := step(before.history, name, before.repos[name], before.aws);
        assert IterationKeeps(before.history, before.repos[name], before.aws, p);
        ExtendsTrans(ProvisionAll(h, names[..k], repos, aws, step).history, before.history, p.history);
      }
    }
  }

  /** Every repository of `repos` resolves with the storage configuration `aws`, its entry in
      `final` has a root key set, and the events h' adds to h hold the evidence that it was
      published with those root keys into the bucket its awaited stack reported. */
  ghost predicate EveryPublished(w: World, h: History, h': History, repos: map<string, RepoConfig>,
                                 aws: Option<AwsConfig>, final: map<string, RepoConfig>, rootRolePath: string) {
    forall n | n in repos ::
      && Resolve(n, repos[n], aws).Ok?
      && n in final && final[n].rootKeys.Some?
      && exists bucketName ::
           Published(w, h, h', Resolve(n, repos[n], aws).value, bucketName, final[n], rootRolePath)
  }

  /** When create_infra's loop succeeds, a repository it took once resolved with the settings
      it started with, and the loop's events hold the evidence that it was published with the
      root keys its entry ends with, into the bucket its awaited stack reported. */
  lemma ProvisionAllEntryPublished(w: World, h: History, names: seq<string>, j: nat,
                                   repos: map<string, RepoConfig>, aws: Option<AwsConfig>, rootRolePath: string)
    requires TwoOutputs(w) && MapOrders(w)
    requires forall n | n in names :: n in repos
    requires j < |names| && names[j] !in names[..j] && names[j] !in names[j + 1..]
    ensures var a := ProvisionAll(h, names, repos, aws, RepoStep(w, rootRolePath));
            var resolved := Resolve(names[j], repos[names[j]], aws);
      a.result.Ok? ==>
        && resolved.Ok?
        && a.repos[names[j]].rootKeys.Some?
        && exists bucketName ::
             Published(w, h, a.history, resolved.value, bucketName, a.repos[names[j]], rootRolePath)
  {
    var step := RepoStep(w, rootRolePath);
    var a := ProvisionAll(h, names, repos, aws, step);
    if a.result.Ok? {
      var name := names[j];
      assert forall n | n in names[..j] :: n in names;
      var before := ProvisionAll(h, names[..j], repos, aws, step);
      RepoStepKeeps(w, rootRolePath);
      ProvisionAllPublished(w, h, names, j, repos, aws, rootRolePath);
      ProvisionAllUntouched(h, names[..j], repos, aws, step);
      ProvisionAllExtends(h, names[..j], repos, aws, step);
      ResolveIgnoresOutputs(name, repos[name], aws, before.aws);
      var p := RepoProvisioned(w, before.history, name, before.repos[name], before.aws, rootRolePath);
      ProvisionAllSnoc(h, names, j, repos, aws, step);
      ProvisionAllPrefix(h, names, j + 1, repos, aws, step);
      ProvisionAllLater(h, names, j + 1, repos, aws, step);
      assert a.repos[name] == p.rc;
      var res := Resolve(name, repos[name], aws).value;
      var bucketName := BucketReady(w, before.history, res, rootRolePath).result.value.name;
      PublishedWiden(w, h, before.history, p.history, a.history, res, bucketName, p.rc, rootRolePath);
    }
  }

  /** When create_infra's loop over an enumeration of the repository map succeeds, every
      repository resolved with the settings it started with, and the loop's events hold the
      evidence that each was published with the root keys its final entry holds, into the
      bucket its awaited stack reported. */
  lemma ProvisionAllEveryPublished(w: World, h: History, names: seq<string>, repos: map<string, RepoConfig>,
                                   aws: Option<AwsConfig>, rootRolePath: string)
    requires TwoOutputs(w) && MapOrders(w)
    requires Enumerates(names, repos.Keys)
    ensures var a := ProvisionAll(h, names, repos, aws, RepoStep(w, rootRolePath));
      a.result.Ok? ==> EveryPublished(w, h, a.history, repos, aws, a.repos, rootRolePath)
  {
    var a := ProvisionAll(h, names, repos, aws, RepoStep(w, rootRolePath));
    if a.result.Ok? {
      forall n | n in repos
        ensures && Resolve(n, repos[n], aws).Ok?
                && n in a.repos && a.repos[n].rootKeys.Some?
                && exists bucketName :: Published(w, h, a.history, Resolve(n, repos[n], aws).value,
                                                  bucketName, a.repos[n], rootRolePath)
      {
        var j :| 0 <= j < |names| && names[j] == n;
        assert n !in names[..j] by {
          forall i | 0 <= i < j ensures names[..j][i] != n {
            assert names[i] != names[j];
          }
        }
        assert n !in names[j + 1..] by {
          assert forall i | j < i < |names| :: names[i] != names[j];
        }
        ProvisionAllEntryPublished(w, h, names, j, repos, aws, rootRolePath);
      }
    }
  }

  /** The outcome of create_infra with the configuration it leaves. */
  datatype Final = Final(result: Result<()>, state: LockState, history: History)

  /** What create_infra does: every repository in the order the repository map yields them,
      stopping at the first failure, then the configuration written next to Infra.toml as
      Infra.lock. */
  ghost function InfraCreated(w: World, h: History, state: LockState, tomlPath: string, rootRolePath: string): Final
    requires TwoOutputs(w) && MapOrders(w)
  {
    if state.repo.None? then Final(Err(MissingConfig(RepoItem)), state, h)
    else
      var repos := state.repo.value;
      assert Enumerates(w.keyOrder(repos.Keys), repos.Keys);
      var all := ProvisionAll(h, w.keyOrder(repos.Keys), repos, state.aws, RepoStep(w, rootRolePath));
      var state' := LockState(Some(all.repos), all.aws);
      if all.result.Err? then Final(all.result, state', all.history)
      else
        match w.parentDir(tomlPath)
        case None => Final(Err(Parent(tomlPath)), state', all.history)
        case Some(dir) =>
          var h' := all.history + [WriteLock(dir, state')];
          Final(if w.succeeds(h') then Ok(()) else Err(FileWrite(tomlPath)), state', h')
  }

  /** After create_infra's loop the only further event is the lock write. The lock is written
      only after the loop succeeded, with the configuration the loop left, and then the
      loop's events hold, for every repository of the map, the evidence that it resolved and
      was published with the root keys of the entry written to the lock. */
  lemma InfraCreatedPublished(w: World, h: History, state: LockState, tomlPath: string, rootRolePath: string)
    requires TwoOutputs(w) && MapOrders(w)
    ensures var o := InfraCreated(w, h, state, tomlPath, rootRolePath);
      state.repo.Some? ==>
        var repos := state.repo.value;
        var all := ProvisionAll(h, w.keyOrder(repos.Keys), repos, state.aws, RepoStep(w, rootRolePath));
        && o.state == LockState(Some(all.repos), all.aws)
        && (|| o.history == all.history
            || (&& all.result.Ok? && w.parentDir(tomlPath).Some?
                && o.history == all.history + [WriteLock(w.parentDir(tomlPath).value, o.state)]
                && EveryPublished(w, h, all.history, repos, state.aws, all.repos, rootRolePath)))
  {
    if state.repo.Some? {
      var repos := state.repo.value;
      assert Enumerates(w.keyOrder(repos.Keys), repos.Keys);
      ProvisionAllEveryPublished(w, h, w.keyOrder(repos.Keys), repos, state.aws, rootRolePath);
    }
  }

  // ---------------------------------------------------------------- the configuration

  /** The parsed Infra.toml. create_infra updates it in place and finally writes it out as
      Infra.lock. */
  class InfraConfig {
    var repo: Option<map<string, RepoConfig>>
    var aws: Option<AwsConfig>

    constructor (state: LockState)
      ensures repo == state.repo && aws == state.aws
    {
      repo := state.repo;
      aws := state.aws;
    }

    /** The configuration as it would be written to Infra.lock. */
    function State(): LockState
      reads this
    {
      LockState(repo, aws)
    }

    /** Every repository entry has all three URLs. */
    predicate AllProvisioned()
      reads this
    {
      repo.Some? && forall n | n in repo.value :: Provisioned(repo.value[n])
    }

    /** One iteration of create_infra's loop, for the repository `name`: step 0, the bucket
        (whose stack ARN and name are recorded in the storage entry straight away), then steps
        2 to 6, after which the entry is written back. */
    method ProvisionRepo(w: World, h: History, name: string, rootRolePath: string)
      returns (r: Result<()>, h': History)
      requires TwoOutputs(w) && MapOrders(w)
      requires repo.Some? && name in repo.value
      modifies this
      ensures repo.Some? && name in repo.value && repo.value.Keys == old(repo.value.Keys)
      ensures forall n | n in repo.value && n != name :: repo.value[n] == old(repo.value[n])
      ensures Provision(r, repo.value[name], aws, h') == RepoStep(w, rootRolePath)(h, name, old(repo.value[name]), old(aws))
      ensures Ordered(h, h', 0, 8)
    {
      var rc := repo.value[name];
      assert RepoStep(w, rootRolePath)(h, name, rc, aws) == RepoProvisioned(w, h, name, rc, aws, rootRolePath);
      var resolved := Resolve(name, rc, aws);
      if resolved.Err? {
        return Err(resolved.error), h;
      }
      var res := resolved.value;
      var created;
      created, h' := CreateBucket(w, h, res, rootRolePath);
      if created.Err? {
        return Err(created.error), h';
      }
      var bucket := created.value;
      aws := WithStackOutputs(aws, res.stackName, bucket);
      ghost var h1 := h';
      r, rc, h' := PublishRepo(w, h', name, rc, res, bucket, rootRolePath);
      Chain(h, h1, h', 0, 1, 2, 8);
      repo := Some(repo.value[name := rc]);
    }

    /** The loop of create_infra over the repositories `names`, in that order, stopping at the
        first error. */
    method ProvisionEach(w: World, h: History, names: seq<string>, rootRolePath: string)
      returns (r: Result<()>, h': History)
      requires TwoOutputs(w) && MapOrders(w)
      requires repo.Some? && forall n | n in names :: n in repo.value
      modifies this
      ensures repo.Some?
      ensures Progress(r, repo.value, aws, h') == ProvisionAll(h, names, old(repo.value), old(aws), RepoStep(w, rootRolePath))
      ensures Extends(h, h') && NoLockWrite(h, h')
    {
      ghost var repos := repo.value;
      ghost var aws0 := aws;
      ghost var step := RepoStep(w, rootRolePath);
      r, h' := Ok(()), h;
      var i := 0;
      while i < |names| && r.Ok?
        invariant 0 <= i <= |names|
        invariant repo.Some?
        invariant Progress(r, repo.value, aws, h') == ProvisionAll(h, names[..i], repos, aws0, step)
        invariant Extends(h, h') && NoLockWrite(h, h')
      {
        var name := names[i];
        ProvisionAllSnoc(h, names, i, repos, aws0, step);
        ghost var h0, before, aws1 := h', repo.value, aws;
        r, h' := ProvisionRepo(w, h', name, rootRolePath);
        ghost var p := step(h0, name, before[name], aws1);
        assert p == Provision(r, repo.value[name], aws, h');
        assert repo.value == before[name := p.rc];
        NoLockWriteExtend(h, h0, h', 0);
        i := i + 1;
      }
      if r.Err? {
        ProvisionAllStops(h, names, i, repos, aws0, step);
      } else {
        assert names[..i] == names;
      }
    }

    /** create_infra: provisions every repository in the order the repository map yields them,
        stopping at the first error, then writes the configuration next to Infra.toml as
        Infra.lock. The lock is written at most once, as the very last effect, and only after
        every repository has been provisioned (what the events before the lock then hold is
        stated by InfraCreatedPublished). */
    method CreateInfra(w: World, h: History, tomlPath: string, rootRolePath: string)
      returns (r: Result<()>, h': History)
      requires TwoOutputs(w) && MapOrders(w)
      modifies this
      ensures Final(r, State(), h') == InfraCreated(w, h, LockState(old(repo), old(aws)), tomlPath, rootRolePath)
      ensures old(repo).None? ==> r == Err(MissingConfig(RepoItem)) && h' == h && repo == old(repo) && aws == old(aws)
      ensures old(repo).Some? ==>
                && repo.Some? && repo.value.Keys == old(repo).value.Keys
                && AwsOutputsOnly(old(aws), aws)
                && forall n | n in repo.value :: OutputsKept(old(repo).value[n], repo.value[n])
                                                && SettingsKept(old(repo).value[n], repo.value[n])
      ensures Extends(h, h')
      ensures forall i | |h| <= i < |h'| && h'[i].WriteLock? ::
                && i == |h'| - 1
                && w.parentDir(tomlPath).Some? && h'[i] == WriteLock(w.parentDir(tomlPath).value, State())
                && old(repo).Some?
                && ProvisionAll(h, w.keyOrder(old(repo).value.Keys), old(repo).value, old(aws), RepoStep(w, rootRolePath)).result.Ok?
                && AllProvisioned()
      ensures r.Ok? ==> |h'| > |h| && h'[|h'| - 1].WriteLock? && w.succeeds(h')
      ensures old(repo).Some? && w.parentDir(tomlPath).None? ==> r.Err? && NoLockWrite(h, h')
    {
      if repo.None? {
        return Err(MissingConfig(RepoItem)), h;
      }
      var names := w.keyOrder(repo.value.Keys);
      assert Enumerates(names, repo.value.Keys);
      RepoStepKeeps(w, rootRolePath);
      ProvisionAllExtends(h, names, repo.value, aws, RepoStep(w, rootRolePath));
      ProvisionAllKeeps(h, names, repo.value, aws, RepoStep(w, rootRolePath));
      ProvisionAllProvisioned(h, names, repo.value, aws, RepoStep(w, rootRolePath));
      r, h' := ProvisionEach(w, h, names, rootRolePath);
      if r.Err? {
        return;
      }
      var dir := w.parentDir(tomlPath);
      if dir.None? {
        return Err(Parent(tomlPath)), h';
      }
      h' := h' + [WriteLock(dir.value, State())];
      r := if w.succeeds(h') then Ok(()) else Err(FileWrite(tomlPath));
    }
  }
}
