/** The effects the provisioning steps have on the outside world, and the answers they get.

    Every effect the core performs (a tuftool invocation, a cloud call, a file access) is an
    `Event` appended to a `History`. What the world answers is decided by a `World`: a
    collection of functions of the history up to and including the event just issued, so an
    answer may depend on everything that happened before. */
module Effects {
  import opened Wrappers
  import opened Config
  import opened BucketPolicy
  import opened Enumeration

  /** Which `tuftool root` sub-command an invocation runs. */
  datatype CmdKind = Init | Expire | SetThreshold | AddKey | Sign

  /** One tuftool invocation: the AWS_REGION its environment carries, the sub-command, and its
      argument words. */
  datatype Cmd = Cmd(region: string, kind: CmdKind, args: seq<string>)

  /** The error kinds of the tool (the variants of its error enumeration that the core raises). */
  datatype Error =
    | MissingConfig(missing: string)
    | FileExists(path: string)
    | ParseInt(what: string)
    | InvalidThreshold(threshold: string, numKeys: nat)
    | KeyCreation
    | TuftoolSpawn
    | TuftoolResult(command: Cmd, code: Option<int>)
    | PathError(path: string, thing: string)
    | Mkdir(path: string)
    | ParseRegion(what: string)
    | Environment(variable: string)
    | FileRead(path: string)
    | FileOpen(path: string)
    | CreateStack(stackName: string, region: string)
    | DescribeStack(stackName: string, region: string)
    | ParseResponse(what: string, resourceName: string)
    | InvalidJson(what: string)
    | GetPolicyStatement(bucketName: string)
    | PutPolicy(bucketName: string)
    | PutObject(bucketName: string)
    | ParseUrl(input: string)
    | Parent(path: string)
    | FileWrite(path: string)
    | Keys(operation: string)   // a failure inside the key-management steps

  datatype Result<T> = Ok(value: T) | Err(error: Error)

  /** What a step returns together with the history it leaves behind. */
  datatype Outcome<T> = Outcome(result: Result<T>, history: History)

  /** An effect on the world, in the order it was performed. */
  datatype Event =
    | CheckKeyConfig(keys: SigningKeyConfig)           // keys::check_signing_key_config
    | ReadTemplate(path: string)                        // read of the CloudFormation template
    | SubmitStack(region: string, stackName: string)    // CloudFormation create_stack
    | AwaitStack(region: string, stackName: string)     // polling until the stack is ready
    | FetchPolicy(region: string, bucket: string)       // S3 get_bucket_policy
    | StorePolicy(region: string, bucket: string, policy: Policy)  // S3 put_bucket_policy
    | CreateKeys(keys: SigningKeyConfig)                // keys::create_keys
    | MakeDir(path: string)                             // create_dir_all
    | Tuftool(cmd: Cmd)                                 // one tuftool subprocess
    | ReadForUpload(path: string)                       // open and read of root.json before upload
    | StoreObject(region: string, bucket: string, key: string, body: string)  // S3 put_object
    | ReadForDigest(path: string)                       // read of root.json for its digest
    | WriteLock(dir: string, state: LockState)          // write of Infra.lock into dir

  type History = seq<Event>

  /** How a subprocess ended: it could not be spawned, or it exited with a code (None when it
      was ended by a signal). */
  datatype ProcStatus = SpawnFailed | Exited(code: Option<int>)

  datatype FileContent = OpenFailed | ReadFailed | Content(data: string)

  datatype StackCreation = CreateRejected | Created(stackId: Option<string>)

  /** The outcome of waiting for a stack: a describe call failed, a response had no `stacks`
      or the complete stack no `outputs`, or the stack's output values once it reached
      CREATE_COMPLETE. */
  datatype StackOutputs = DescribeFailed | NoStacks | NoOutputs | Ready(values: seq<Option<string>>)

  datatype FetchedPolicy = FetchRejected | NoPolicyText | MalformedPolicy | Fetched(policy: Policy)

  /** The world outside the core. Each history-indexed function answers for the last event of
      the history it is given. */
  datatype World = World(
    defaultRegion: string,                    // the region of rusoto's `Region::default()`
    knownRegion: string -> bool,              // `Region::from_str` accepts the name
    toolsDir: Option<string>,                 // BUILDSYS_TOOLS_DIR
    parentDir: string -> Option<string>,      // `Path::parent`
    isFile: (History, string) -> bool,        // a file exists at the path at that point
    succeeds: History -> bool,                // a key check, mkdir, put or write succeeded
    tuftool: History -> ProcStatus,
    readFile: History -> FileContent,
    stackCreation: History -> StackCreation,
    stackOutputs: History -> StackOutputs,
    bucketPolicy: History -> FetchedPolicy,
    createdKeys: History -> Option<SigningKeyConfig>,  // the key configuration after create_keys
    keyOrder: set<string> -> seq<string>,     // the order a hash map with these keys yields them
    parseUrl: string -> Option<Url>,
    sha512Hex: string -> string)

  /** The CloudFormation template of the bucket stack declares two outputs (bucket name and
      URL), so a ready stack always reports at least two output values. */
  ghost predicate TwoOutputs(w: World) {
    forall h :: w.stackOutputs(h).Ready? ==> |w.stackOutputs(h).values| >= 2
  }

  /** A hash map yields each of its keys exactly once. */
  ghost predicate MapOrders(w: World) {
    forall keys: set<string> :: Enumerates(w.keyOrder(keys), keys)
  }

  predicate Extends(h: History, h': History) {
    |h| <= |h'| && h'[..|h|] == h
  }

  lemma ExtendsTrans(h0: History, h1: History, h2: History)
    requires Extends(h0, h1) && Extends(h1, h2)
    ensures Extends(h0, h2)
  {
    assert h2[..|h0|] == h2[..|h1|][..|h0|];
  }

  /** The phase of the per-repository pipeline an event belongs to. */
  function Phase(e: Event): nat {
    match e
    case CheckKeyConfig(_) => 0
    case ReadTemplate(_) => 1
    case SubmitStack(_, _) => 1
    case AwaitStack(_, _) => 1
    case FetchPolicy(_, _) => 2
    case StorePolicy(_, _, _) => 2
    case CreateKeys(_) => 3
    case MakeDir(_) => 4
    case Tuftool(c) =>
      (match c.kind
       case Init => 4
       case Expire => 4
       case SetThreshold => 5
       case AddKey => 5
       case Sign => 6)
    case ReadForUpload(_) => 7
    case StoreObject(_, _, _, _) => 7
    case ReadForDigest(_) => 8
    case WriteLock(_, _) => 9
  }

  /** h' extends h by events of phase k only. */
  predicate InPhase(h: History, h': History, k: nat) {
    Extends(h, h') && forall i | |h| <= i < |h'| :: Phase(h'[i]) == k
  }

  /** Two stretches of events of phase k are one stretch of phase k. */
  lemma InPhaseTrans(h0: History, h1: History, h2: History, k: nat)
    requires InPhase(h0, h1, k) && InPhase(h1, h2, k)
    ensures InPhase(h0, h2, k)
  {
    ExtendsTrans(h0, h1, h2);
    forall i | |h0| <= i < |h2| ensures Phase(h2[i]) == k {
      if i < |h1| {
        assert h2[i] == h2[..|h1|][i];
      }
    }
  }

  /** The events h adds to h0 are in pipeline order and all belong to phases lo to hi. */
  predicate Ordered(h0: History, h: History, lo: nat, hi: nat) {
    && Extends(h0, h)
    && (forall i | |h0| < i < |h| :: Phase(h[i - 1]) <= Phase(h[i]))
    && (forall i | |h0| <= i < |h| :: lo <= Phase(h[i]) <= hi)
  }

  lemma OrderedStep(h: History, h': History, k: nat)
    requires InPhase(h, h', k)
    ensures Ordered(h, h', k, k)
  {
  }

  /** Runs performed one after the other, the later one in no earlier phase, are in
      pipeline order together. */
  lemma Chain(h0: History, h1: History, h2: History, lo: nat, mid: nat, mid': nat, hi: nat)
    requires Ordered(h0, h1, lo, mid) && Ordered(h1, h2, mid', hi)
    requires mid <= mid' && lo <= mid' && mid <= hi
    ensures Ordered(h0, h2, lo, hi)
  {
    assert h2[..|h0|] == h1[..|h0|];
    forall i | |h0| < i < |h2| ensures Phase(h2[i - 1]) <= Phase(h2[i]) {
      if i < |h1| {
        assert h2[i - 1] == h1[i - 1] && h2[i] == h1[i];
      } else if i == |h1| {
        assert h2[i - 1] == h1[i - 1];
      }
    }
    forall i | |h0| <= i < |h2| ensures lo <= Phase(h2[i]) <= hi {
      if i < |h1| {
        assert h2[i] == h1[i];
      }
    }
  }

  /** One more phase, no earlier in the pipeline than the ones before it. */
  lemma Then(h0: History, h1: History, h2: History, lo: nat, mid: nat, k: nat)
    requires Ordered(h0, h1, lo, mid) && InPhase(h1, h2, k) && mid <= k && lo <= k
    ensures Ordered(h0, h2, lo, k)
  {
    OrderedStep(h1, h2, k);
    Chain(h0, h1, h2, lo, mid, k, k);
  }

  /** No lock file write among the events h' adds to h. */
  predicate NoLockWrite(h: History, h': History) {
    forall i | |h| <= i < |h'| :: !h'[i].WriteLock?
  }

  /** Phases that stop before the lock write add no lock write. */
  lemma NoLockWriteExtend(h0: History, h1: History, h2: History, lo: nat)
    requires Extends(h0, h1) && NoLockWrite(h0, h1) && Ordered(h1, h2, lo, 8)
    ensures Extends(h0, h2) && NoLockWrite(h0, h2)
  {
    ExtendsTrans(h0, h1, h2);
    forall i | |h0| <= i < |h2| ensures !h2[i].WriteLock? {
      if i < |h1| {
        assert h2[i] == h2[..|h1|][i];
      } else {
        assert Phase(h2[i]) <= 8;
      }
    }
  }
}
