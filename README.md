# infrasys provisioning pipeline — a Dafny model

This project models `create-infra` from the `infrasys` tool. The tool bootstraps the infrastructure
behind a TUF repository. For every repository entry of `Infra.toml` it does the following, in order:

- resolves the required settings;
- checks both signing-key configurations;
- refuses to overwrite an existing `root.json`;
- creates an S3 bucket through a CloudFormation stack and waits for the stack's outputs;
- appends a read grant for the repository prefix and VPC endpoint to the bucket policy;
- creates the KMS keys;
- builds `root.json` with `tuftool`: `root init`, `root expire`, thresholds, `add-key`, `sign`;
- uploads `root.json`;
- fills the output URLs and the SHA-512 digest of `root.json` when they are unset.

After every entry is done it writes the whole configuration to `Infra.lock`, next to the input
file.

How the model is built:

- **Effects as a trace.** Every external effect is an `Event` appended to a `History` (a
  sequence of events). This covers CloudFormation, S3, the file system, `tuftool` processes and
  the key-creation steps.
- **The `World` oracle.** Whatever the outside world answers is a function of the history so
  far. Whether a command succeeds, what a file contains, what the stack outputs are: each is a
  field of the `World` datatype.
- **Specification functions.** Each step is a function of the world and the history (for
  example `S3.CreatedBucket`, `Infra.RootPublished`, `Infra.RepoProvisioned`). It returns the
  result, the history it leaves and, where the source writes through a `&mut`, the new value.
  The method that performs the step states in its `ensures` that it returns exactly what that
  function returns. What the source promises is then proved as lemmas about the function, and
  the method inherits it through the equality.
- **Phases.** Each event belongs to one phase of the pipeline (`Effects.Phase`): 0 checks,
  1 bucket stack, 2 bucket policy, 3 key creation, 4 `root init`/`root expire`, 5 thresholds
  and `add-key`, 6 `sign`, 7 upload, 8 output fields, 9 lock write. The comments in
  `create_infra` number their steps 0 to 7; their step 4 covers phases 4 to 6. The prose
  below uses the source's step numbers and says "phase" for the model's. `Effects.Ordered`
  states that a run's events appear in nondecreasing phase order, and each stage is proved to
  keep that order.
- **The configuration object.** `Infra.InfraConfig` is a class whose `repo` and `aws` fields the
  pipeline updates in place, as `create_infra` mutates the parsed `InfraConfig`.
- **`tuftool!` invocations.** An `Effects.Cmd` is a region, a command kind and its argument words.
  `Root.Invoke` is one expansion of the macro. `Root.Run` runs a list of them and stops at the
  first failure, as the `?` after each invocation does.
- **Hash-map iteration.** A loop over a `HashMap` takes keys in an order the map decides. The
  model reads that order from `World.keyOrder`, which lists every key exactly once
  (`Effects.MapOrders`, `Enumeration.Enumerates`). Nothing proved depends on which order it
  is.
- **The repository loop.** `Infra.ProvisionAll` is the loop of `create_infra` for any iteration
  function `step`. Its general lemmas (it stops at the first failure, only appends events,
  keeps settings) are proved for every `step` that keeps what `Infra.IterationKeeps` names.
  `Infra.RepoStep` is the actual iteration: its contract says it equals
  `Infra.RepoProvisioned` at every argument. The lemmas about a successful iteration go
  through `Infra.RepoProvisioned`.

`s3::format_prefix` is modelled as written. It only adds a leading `/`. For a trailing `/` and
a trailing `/*`, the code computes the stripped string (s3.rs lines 23 and 26) and then
discards it. So `"/tuf/"` and `"/tuf/*"` come back unchanged; the discarded strings at s3.rs
lines 23 and 26 suggest that stripping was meant. `S3.FormatPrefixKeepsTrailing` records this behaviour.

## Model

| member | source | states |
|---|---|---|
| S3.FormatPrefix | tools/infrasys/src/s3.rs:15-29 | the result starts with `/`, ends with the whole input and is at most one character longer |
| S3.FormatPrefixChanges | tools/infrasys/src/s3.rs:15-21 | the prefix comes back unchanged exactly when it already starts with `/`; otherwise it is `"/" + prefix` |
| S3.FormatPrefixIdempotent | tools/infrasys/src/s3.rs:15-29 | formatting a formatted prefix changes nothing |
| S3.FormatPrefixKeepsTrailing | tools/infrasys/src/s3.rs:22-28 | `tuf/` gives `/tuf/`, `/tuf/*` stays as it is, `tuf` gives `/tuf`, the empty prefix gives `/`: the stripped values are discarded |
| S3.StackResult | tools/infrasys/src/s3.rs:66-85 | a bucket comes back exactly when the stack reported outputs and the first two carry values; it holds the stack id, output 0 as the name and output 1 as the URL; any other case is a describe or response-parsing error |
| S3.CreateS3Bucket | tools/infrasys/src/s3.rs:34-86 | an unknown region or unset tools directory fails with no effect; an unreadable template, a rejected stack and a missing stack id each give their own error after the events issued so far; otherwise template read, stack submission and stack wait come in that order, and the result is what `StackResult` makes of the awaited outputs; phase-1 events only |
| S3.StartingPolicy | tools/infrasys/src/s3.rs:101-123 | the starting document is usable exactly when the fetch was rejected or returned a policy: a rejected fetch gives the `2008-10-17` default with an empty statement array, a fetched policy is kept; otherwise the error is `ParseResponse` for the policy or `InvalidJson` for the retrieved policy |
| S3.NewStatement | tools/infrasys/src/s3.rs:125-142 | the statement exists exactly when bucket, prefix and endpoint id can stand in a JSON string; it is an `Allow` for principal `*` of `s3:GetObject` on `arn:aws:s3:::<bucket><prefix>/*` under `aws:sourceVpce` equal to the endpoint id; otherwise `InvalidJson` for the new policy |
| S3.PolicyToStore | tools/infrasys/src/s3.rs:98-150 | a stored policy keeps the starting version and statements with the read grant appended; when both the starting document and the statement exist, the only failure is `GetPolicyStatement` for a document without a statement array |
| S3.PolicyToStoreAppends | tools/infrasys/src/s3.rs:144-150 | the store succeeds exactly when the starting document has a statement array; exactly one statement is added, the earlier ones are kept in order and the grant is last |
| S3.PolicyToStoreFresh | tools/infrasys/src/s3.rs:116-122 | when no policy can be fetched, the bucket gets the 2008-10-17 policy holding only the read grant |
| S3.PolicyAddedAppends | tools/infrasys/src/s3.rs:92-165 | adding the bucket policy only appends events and never fails for a missing setting |
| S3.AddBucketPolicy | tools/infrasys/src/s3.rs:92-165 | an unknown region fails with no effect; otherwise the policy is fetched, then the document `PolicyToStore` computes is put, or the step stops after the fetch with that error; a rejected put is `PutPolicy`; phase-2 events only |
| S3.UploadFile | tools/infrasys/src/s3.rs:171-197 | an unknown region fails with no effect; otherwise the file is read and its exact contents put under `root.json` at `bucket + prefix`; open, read and put failures are distinguished; phase-7 events only |
| Root.KeyCmdsShape | tools/infrasys/src/root.rs:127-162 | whatever the map's order, there is one per-key command per available key, each for its own key and region, none twice and nothing else |
| Root.Invoke | tools/infrasys/src/root.rs:16-31 | one invocation appends exactly its `Tuftool` event; it succeeds exactly when the process exited with status 0; otherwise the error is `TuftoolSpawn` or `TuftoolResult` with the command and exit code |
| Root.RunTrace | tools/infrasys/src/root.rs:16-31 | a run issues a prefix of its commands in order; every issued command but the last exited with 0; it succeeds exactly when all were issued and the last exited with 0; a failure is that of the last command issued |
| Root.RunIssuedAll | tools/infrasys/src/root.rs:16-31 | a run that succeeds appended exactly the `Tuftool` events of its commands, in order, and nothing else |
| Root.RunIssuesOnly | tools/infrasys/src/root.rs:16-31 | a run appends only `Tuftool` events of its own commands |
| Root.RunConcat | tools/infrasys/src/root.rs:16-31 | running `a + b` is running `a`, then `b` from the history `a` left, unless `a` failed |
| Root.ParseUsize | tools/infrasys/src/root.rs:108-111 | rejects the empty string, a lone `+` and a leading `-`; accepts only decimal digits after an optional `+`, with values below 2^64 |
| Root.ParseUsizeDecimal | tools/infrasys/src/root.rs:108-111 | the decimal rendering of a number, with or without a leading `+`, parses to that number when it is below 2^64 and is refused otherwise |
| Root.ThresholdCheck | tools/infrasys/src/root.rs:108-118 | passes exactly when the threshold parses and is at most the number of available keys; an unparsable threshold is `ParseInt`, a too large one `InvalidThreshold` with the key count |
| Root.ThresholdCheckDecimal | tools/infrasys/src/root.rs:108-118 | a threshold written in decimal passes exactly when it is below 2^64 and at most the number of keys; one of 2^64 or more is `ParseInt` |
| Root.CheckRoot | tools/infrasys/src/root.rs:35-44 | fails exactly when a file exists at the root role path, with `FileExists` |
| Root.RootCreatedAppends | tools/infrasys/src/root.rs:47-68 | creating root.json only appends events and never fails for a missing setting |
| Root.CreateRoot | tools/infrasys/src/root.rs:47-68 | no parent directory gives `PathError` with no effect; a failed mkdir gives `Mkdir`; then `root init` runs in the default region, and `root expire` with 52 weeks runs only when init exited with 0; success ends with the expire command; phase-4 events only |
| Root.KmsAddKeysTrace | tools/infrasys/src/root.rs:108-162 | a threshold that does not parse, or exceeds the number of available keys, fails with its error before any command and keeps the key id; afterwards only threshold and `add-key` commands are issued |
| Root.KmsAddKeysKeyId | tools/infrasys/src/root.rs:164-176 | for the root role, or a key id already set, the key id is kept; an unset publication key id is set exactly on success, and then to an available key; with no keys and a passing threshold an unset publication key id makes the step fail |
| Root.KmsAddKeysIssued | tools/infrasys/src/root.rs:101-162 | a success appended exactly the role's threshold commands in the default region and then one `add-key` per available key in that key's region, in the map's order; so every threshold command ran and every available key was added for the role |
| Root.KmsAddKeysContract | tools/infrasys/src/root.rs:101-181 | the three lemmas above together: what add_keys_kms guarantees whatever order the key map yields, including that a success issued exactly its commands and added every available key |
| Root.SetThresholds | tools/infrasys/src/root.rs:119-154 | runs the role's threshold commands (`root` for the root role; `snapshot`, `targets`, `timestamp` for publication) in the default region, in order, stopping at the first failure |
| Root.IssuePerKey | tools/infrasys/src/root.rs:127-134 | issues the per-key command of every key in the order the map yields them, each in its key's region, stopping at the first failure |
| Root.AddKeysKms | tools/infrasys/src/root.rs:101-181 | result, key id and history are those of `KmsAddKeys`, whose properties `KmsAddKeysContract` states |
| Root.KeysAddedContract | tools/infrasys/src/root.rs:71-94 | file and SSM keys are left alone with no effect; a KMS set without `config` is `MissingConfig` with no effect; a KMS set keeps its `config`; its key id changes only for the publication role when unset, and then to an available key; a successful publication add leaves a key id; a successful KMS add ran the role's threshold commands and added every available key for the role |
| Root.AddKeys | tools/infrasys/src/root.rs:71-94 | result, key set and history are those of `KeysAdded`, whose properties `KeysAddedContract` states; phase-5 events only |
| Root.SigningCoversKeys | tools/infrasys/src/root.rs:188-197 | a successful run of the signing commands issued `root sign` with every available key |
| Root.RootSignedByAll | tools/infrasys/src/root.rs:184-202 | file and SSM keys issue nothing; a KMS set without `config` is `MissingConfig` with no effect; only `root sign` commands are issued; after a success every available key of a KMS set has signed |
| Root.SignRoot | tools/infrasys/src/root.rs:184-202 | result and history are those of `RootSigned`, whose properties `RootSignedByAll` states; phase-6 events only |
| Infra.Resolve | tools/infrasys/src/main.rs:95-134 | resolves exactly when every setting is present, giving the stack name, region, endpoint id, formatted prefix and both key sets; otherwise a `MissingConfig` error, naming `file_hosting_config_name` or `aws` when those are the ones missing |
| Infra.Preflight | tools/infrasys/src/main.rs:135-137 | checks the signing keys, then the root keys, then the root role path, stopping at the first failure; fails only with the key-check error or `FileExists`; phase-0 events only |
| Infra.BucketReadyOk | tools/infrasys/src/main.rs:135-145 | a bucket comes back only when both key checks passed and no root role file existed, and it is the awaited stack's bucket: its ARN is the id the submission returned, its name and URL are the stack's outputs 0 and 1 |
| Infra.CreateBucket | tools/infrasys/src/main.rs:135-142 | result and history are those of `BucketReady`; checks come before the stack, phases 0 then 1; a success passed both key checks and the root check and ends with the stack wait |
| Infra.CreateKeySets | tools/infrasys/src/main.rs:150-153 | creates the publication keys, then the root keys; each set becomes what key creation returned for it; a set whose creation failed or was not reached stays as it was; phase-3 events only |
| Infra.RootPreparedExtends | tools/infrasys/src/main.rs:147-157 | preparing root.json only appends events and never fails for a missing setting |
| Infra.RootPreparedOk | tools/infrasys/src/main.rs:147-157 | once preparing root.json succeeds, a policy whose last statement is the read grant for the prefix and endpoint was put on the bucket, and `root expire` was issued |
| Infra.RootPreparedKeys | tools/infrasys/src/main.rs:148-153 | each returned key set is either the one given or what key creation returned for it; after a success both are what key creation returned; a failed bucket policy leaves both as they were |
| Infra.PrepareRoot | tools/infrasys/src/main.rs:147-157 | result, both key sets and history are those of `RootPrepared`, whose properties `RootPreparedOk` and `RootPreparedKeys` state; phases 2 to 4 in order |
| Infra.RoleKeysAddedContract | tools/infrasys/src/main.rs:158-180 | a missing publication threshold fails with its `MissingConfig` message before any command; a missing root threshold fails, with the message and timing `Infra.RoleKeysAddedRootMissing` states; a success had both thresholds; the root key set is never changed; a non-KMS publication set is unchanged; a KMS one keeps its `config`, gets a key id only when unset and then an available key, and has one after a success; after a success every available key of a KMS publication set was added for publication and every available key of a KMS root set for root, with each role's thresholds set |
| Infra.RoleKeysAddedRootMissing | tools/infrasys/src/main.rs:158-180 | with the publication threshold set and its keys added, a missing root threshold fails with `MissingConfig` naming `root_key_threshold` for the repository; the publication set is what adding its keys left, every available key of a KMS publication set was added for publication, and the root set is unchanged |
| Infra.AddRoleKeys | tools/infrasys/src/main.rs:158-180 | result, both key sets and history are those of `RoleKeysAdded`, whose properties `RoleKeysAddedContract` states; phase-5 events only |
| Infra.SignedThenUploaded | tools/infrasys/src/main.rs:181-186 | after signing and uploading succeed, every available root key of a KMS set has signed and the upload of `root.json` into `bucket + prefix` is the last event |
| Infra.RootPublishedOk | tools/infrasys/src/main.rs:147-186 | publishing root.json only appends events; a success had both thresholds, stored a policy on the bucket, expired root.json, leaves a KMS publication set with its `config` and a key id, and added every available key of each KMS set for its role |
| Infra.RootPublishedSigned | tools/infrasys/src/main.rs:181-186 | a success was signed with every available root key of a KMS root set and ends with the upload into the bucket under the prefix |
| Infra.RootPublishedErrors | tools/infrasys/src/main.rs:147-169 | a failure while preparing root.json is the outcome and never a missing setting; a missing publication threshold gives its `MissingConfig` error only after the policy was stored and root.json expired; a missing root threshold gives its own `MissingConfig` error only after that and after every available key of a KMS publication set was added for publication |
| Infra.PublishRoot | tools/infrasys/src/main.rs:147-186 | result, both key sets and history are those of `RootPublished`; phases 2 to 7 in order; a missing threshold fails before any signing or upload |
| Infra.OutputsRecordedContract | tools/infrasys/src/main.rs:188-214 | only output fields change and set ones are kept; a success leaves all three URLs; each one filled in is the parse of `bucket_url + prefix` with `/metadata/`, `/targets/` or `/root.json`; a filled-in root role URL comes with the SHA-512 of root.json as read then; the file is read only then; errors are `ParseUrl` or `FileRead` |
| Infra.RecordOutputs | tools/infrasys/src/main.rs:188-214 | result, entry and history are those of `OutputsRecorded`; phase-8 events only |
| Infra.ResolveIgnoresOutputs | tools/infrasys/src/main.rs:102-122 | writing stack outputs into the storage entries does not change how any repository resolves |
| Infra.WithStackOutputs | tools/infrasys/src/main.rs:143-145 | the stack's entry gets the bucket's ARN and name; every other entry and every other field is unchanged |
| Infra.PublishRepo | tools/infrasys/src/main.rs:147-214 | result, entry and history are those of `RepoPublished`; phases 2 to 8 in order |
| Infra.RepoPublishedContract | tools/infrasys/src/main.rs:147-214 | the entry's settings and set outputs are kept; a success stored a policy ending with the read grant, expired root.json, added every available key of each KMS set for its role with the entry's thresholds, signed root.json with every available root key of a KMS set and uploaded it, and leaves all three URLs, each filled-in one under the bucket URL and prefix |
| Infra.RepoProvisionedKeeps | tools/infrasys/src/main.rs:93-215 | an iteration only appends events, keeps the entry's settings and set outputs, changes the storage configuration only in stack outputs, changes nothing when the entry does not resolve, and leaves all three URLs after a success |
| Infra.RepoProvisionedOk | tools/infrasys/src/main.rs:95-142 | a successful iteration resolved the entry and got a bucket from its stack |
| Infra.RepoProvisionedBucket | tools/infrasys/src/main.rs:139-215 | once the entry resolved and the stack yielded a bucket, the storage configuration holds that bucket's ARN and name in the stack's entry, and the rest is steps 2 to 6 on that bucket |
| Infra.PublishedAfterStack | tools/infrasys/src/main.rs:139-186 | a stored policy ending with the read grant, an expired root.json, the entry's keys added and signing done, and the upload, all after a stack wait whose outputs named the bucket, are evidence that the repository was published into that bucket |
| Infra.RepoPublishedAfterStack | tools/infrasys/src/main.rs:139-214 | steps 2 to 6 run right after the stack wait leave, after a success, the evidence that the repository was published into that stack's bucket |
| Infra.RepoProvisionedPublished | tools/infrasys/src/main.rs:93-215 | a successful iteration left the evidence that the repository was published into the bucket of its awaited stack |
| Infra.RepoStep | tools/infrasys/src/main.rs:93-215 | the loop's iteration equals `RepoProvisioned` at every argument |
| Infra.RepoStepKeeps | tools/infrasys/src/main.rs:93-215 | every iteration keeps what `IterationKeeps` names |
| Infra.ProvisionAll | tools/infrasys/src/main.rs:93-215 | the loop keeps the set of repository names |
| Infra.ProvisionAllStops | tools/infrasys/src/main.rs:93-215 | once a repository has failed, the loop does nothing more |
| Infra.ProvisionAllStep | tools/infrasys/src/main.rs:93-215 | when the loop succeeds, each iteration started from a successful run over the repositories before it and succeeded |
| Infra.ProvisionAllExtends | tools/infrasys/src/main.rs:93-215 | the loop only appends events and changes the storage configuration only in stack outputs |
| Infra.ProvisionAllKeeps | tools/infrasys/src/main.rs:93-215 | the loop keeps every repository's settings and set outputs |
| Infra.ProvisionAllUntouched | tools/infrasys/src/main.rs:93-215 | the repositories the loop has not reached are unchanged |
| Infra.ProvisionAllLater | tools/infrasys/src/main.rs:93-215 | the repositories after the first k leave the entries of all others as the first k left them |
| Infra.ProvisionAllProvisioned | tools/infrasys/src/main.rs:93-215 | when the loop succeeds, every repository it went through has all three URLs |
| Infra.ProvisionAllPrefix | tools/infrasys/src/main.rs:93-215 | the loop over all repositories extends the history of the loop over the first k |
| Infra.ProvisionAllPublished | tools/infrasys/src/main.rs:93-215 | when the loop succeeds, the j-th repository resolved, got a bucket from its stack and left the evidence of its publication |
| Infra.ProvisionAllEntryPublished | tools/infrasys/src/main.rs:93-215 | when the loop succeeds, a repository it took once resolves with its initial settings, its final entry has root keys, and the loop's events hold a wait for its stack whose outputs named a bucket, a policy on that bucket ending with the read grant for its prefix and endpoint, an expired root.json, every available key of its final KMS key sets added for their roles with the entry's thresholds, signing by every available key of its final KMS root set, and the upload into that bucket under its prefix |
| Infra.ProvisionAllEveryPublished | tools/infrasys/src/main.rs:93-215 | when the loop over an enumeration of the map succeeds, every repository resolved, and the loop's events hold the evidence above for each, with the key sets and thresholds of its final entry and the bucket its stack reported |
| Infra.InfraCreatedPublished | tools/infrasys/src/main.rs:93-227 | the final configuration is the one the loop left; after the loop the only further event is the lock write, which comes only after a successful loop, and then every repository has, among the events before it, the evidence of its publication with the key sets and thresholds of the entry written to the lock, into the bucket its stack reported, under a policy ending with its read grant |
| Infra.InfraConfig.constructor | tools/infrasys/src/main.rs:87 | the object holds the parsed configuration |
| Infra.InfraConfig.ProvisionRepo | tools/infrasys/src/main.rs:93-215 | the entry, the storage configuration and the history are what `RepoStep` gives for the entry; other entries are unchanged; phases 0 to 8 in order |
| Infra.InfraConfig.ProvisionEach | tools/infrasys/src/main.rs:93-215 | the repositories, the storage configuration, the outcome and the history are those of `ProvisionAll` with `RepoStep`; no lock write |
| Infra.InfraConfig.CreateInfra | tools/infrasys/src/main.rs:85-231 | no `repo` table fails with no effect; outcome, final configuration and history are those of `InfraCreated`, so the entries are taken in the map's order; settings and set outputs are kept and storage changes only in stack outputs; the lock is written at most once, as the last event, next to the input file, with the final configuration, after a successful loop, when every entry is provisioned; success ends with a lock write that succeeded |
| Effects.Chain | tools/infrasys/src/main.rs:135-186 | two runs in phase order, the later no earlier in the pipeline, form one run in phase order |
| Effects.InPhaseTrans | tools/infrasys/src/main.rs:158-180 | two stretches of events of one phase form one stretch of that phase |

## Left out

- Waiting for the stack: `shared::get_stack_outputs` polls CloudFormation on a fixed interval and can wait forever. The model has one `AwaitStack` event whose oracle answer is final: failed describe, no stacks, no outputs, or the output values. Fewer than two outputs is an index panic in the source, so `World.stackOutputs` is required to list two (`Effects.TwoOutputs`). An empty `stacks` list is also an index panic (the `[0]` at shared.rs lines 47 and 69). That panic is not modelled: the answer `NoStacks` stands only for a response without a `stacks` list, which gives `ParseResponse("stacks")`.
- Environment lookup: `BUILDSYS_TOOLS_DIR` comes from `World.toolsDir`. A missing variable is the `Environment` error.
- Region parsing: `Region::from_str` is the oracle `World.knownRegion`, and `Region::default()` is `World.defaultRegion`.
- Command-line splitting: `tuftool!` formats a string and splits it with `shell_words::split`. The model keeps the argument words directly. So the `CommandSplit` error, and what quotes inside a path or key id would do, are not modelled.
- Exit codes: a process killed by a signal has its code reported as the string `<unknown>`. In the model it is `None`.
- S3.NewStatement: the source builds the statement by filling a JSON template and parsing it. The model stands in the approximation `JsonLiteralSafe` (no quote, backslash or control character) for "the filled-in text parses". Re-serialising the policy with `serde_json::to_string` is taken not to fail.
- S3.AddBucketPolicy: the fetched policy text is already classified by the oracle (`FetchedPolicy`), and JSON parsing of it is not modelled.
- Key creation and checks: `keys.rs` is not part of this model. `check_signing_key_config` and `create_keys` are oracle events. Their errors are collapsed into `Keys(operation)`, and a failed `create_keys` leaves the key set as it was.
- Configuration files: the TOML parsing of `Infra.toml` (`error::Config`) and the YAML rendering of the lock file (`InvalidYaml`) are not modelled. The constructor receives the parsed state, and the lock write records the directory and the state, not the text. The file name `Infra.lock` is implicit in the `WriteLock` event.
- Digest and URLs: SHA-512 with hex encoding and `Url::parse` are oracle functions (`World.sha512Hex`, `World.parseUrl`).
- Command-line front end: argument parsing, logging, the async runtime and `check_infra_lock` are outside the pipeline and are not modelled.
- Root.ParseUsize: `usize` is taken to be 64 bits wide.
- Hash-map order: the order in which `repos.iter_mut()` and `available_keys.iter()` yield entries is `World.keyOrder`, a function of the key set alone. Two maps with the same keys are taken to iterate alike.
- Shared root role path: every repository uses the same `root_role_path`. After the first repository's `root init` has created the file, `check_root` for the next one would find it and fail with `FileExists`. `World.isFile` is an oracle of the history and is not tied to earlier `MakeDir`/`root init` events, so the model does not derive that second-repository failure; it allows it but does not force it.
- Key sets written in place: the source mutates `signing_keys` and `root_keys` through references into the entry during steps 3 and 4. The model returns the new key sets from those steps and writes them back into the entry once, after step 5 (`Infra.RepoPublished`), on success and on failure alike. The final entry is the same; a reader of the entry between those steps is not modelled.
