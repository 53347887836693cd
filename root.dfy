/** Creating, populating and signing root.json by driving tuftool (tools/infrasys/src/root.rs).

    Each tuftool invocation is a `Cmd` appended to the history as a `Tuftool` event; the world
    answers with the process status. The first invocation that does not exit with status 0
    ends the step with an error, and nothing after it is issued. */
module Root {
  import opened Wrappers
  import opened Shared
  import opened Config
  import opened Effects
  import opened Enumeration

  /** The expiry tuftool gives a freshly initialised root.json. */
  const Expiration := "in 52 weeks"

  /** What the errors of this step say is missing. */
  const RootRoleItem := "root role"
  const KmsConfigItem := "config field for a kms key"
  const KmsDetailsItem := "KMS key details"

  /** usize is 64 bits wide on the platforms the tool runs on. */
  const UsizeLimit: nat := 0x1_0000_0000_0000_0000

  // ---------------------------------------------------------------- commands

  /** The words of tuftool's command line. */
  const RootCommand := "root"
  const InitSubcommand := "init"
  const ExpireSubcommand := "expire"
  const SetThresholdSubcommand := "set-threshold"
  const AddKeySubcommand := "add-key"
  const SignSubcommand := "sign"
  const RoleFlag := "--role"
  const KeyFlag := "-k"
  const KmsScheme := "aws-kms:///"

  /** The TUF roles root.json sets thresholds and adds keys for. */
  const RootRoleName := "root"
  const SnapshotRoleName := "snapshot"
  const TargetsRoleName := "targets"
  const TimestampRoleName := "timestamp"

  function KmsUri(keyId: string): string {
    KmsScheme + keyId
  }

  function InitCmd(region: string, path: string): Cmd {
    Cmd(region, Init, [RootCommand, InitSubcommand, path])
  }

  function ExpireCmd(region: string, path: string): Cmd {
    Cmd(region, Expire, [RootCommand, ExpireSubcommand, path, Expiration])
  }

  function SetThresholdCmd(region: string, path: string, role: string, threshold: string): Cmd {
    Cmd(region, SetThreshold, [RootCommand, SetThresholdSubcommand, path, role, threshold])
  }

  function RoleFlags(role: KeyRole): seq<string> {
    match role
    case Root => [RoleFlag, RootRoleName]
    case Publication => [RoleFlag, SnapshotRoleName, RoleFlag, TargetsRoleName, RoleFlag, TimestampRoleName]
  }

  /** What a per-key command does with its key. */
  datatype KeyOp = Adding(role: KeyRole) | Signing

  /** `root add-key` of a KMS key for a role, or `root sign` with it, run in `region`. */
  function KeyCmd(op: KeyOp, region: string, path: string, keyId: string): Cmd {
    match op
    case Adding(role) => Cmd(region, AddKey, [RootCommand, AddKeySubcommand, path, KmsUri(keyId)] + RoleFlags(role))
    case Signing => Cmd(region, Sign, [RootCommand, SignSubcommand, path, KeyFlag, KmsUri(keyId)])
  }

  /** The threshold commands of a role, all run in the same region. */
  function ThresholdCmds(region: string, path: string, role: KeyRole, threshold: string): seq<Cmd> {
    match role
    case Root => [SetThresholdCmd(region, path, RootRoleName, threshold)]
    case Publication =>
      [SetThresholdCmd(region, path, SnapshotRoleName, threshold),
       SetThresholdCmd(region, path, TargetsRoleName, threshold),
       SetThresholdCmd(region, path, TimestampRoleName, threshold)]
  }

  /** One per-key command for each key of `order`, each run in that key's own region. */
  function KeyCmds(op: KeyOp, path: string, keys: map<string, string>, order: seq<string>): seq<Cmd>
    requires forall k | k in order :: k in keys
  {
    seq(|order|, i requires 0 <= i < |order| => KeyCmd(op, keys[order[i]], path, order[i]))
  }

  lemma KeyCmdsSnoc(op: KeyOp, path: string, keys: map<string, string>, order: seq<string>, k: string)
    requires forall x | x in order :: x in keys
    requires k in keys
    ensures KeyCmds(op, path, keys, order + [k]) == KeyCmds(op, path, keys, order) + [KeyCmd(op, keys[k], path, k)]
  {
  }

  lemma KeyCmdsConcat(op: KeyOp, path: string, keys: map<string, string>, a: seq<string>, b: seq<string>)
    requires forall x | x in a :: x in keys
    requires forall x | x in b :: x in keys
    ensures KeyCmds(op, path, keys, a + b) == KeyCmds(op, path, keys, a) + KeyCmds(op, path, keys, b)
  {
  }

  /** A per-key command names its key: two equal commands are for the same key. */
  lemma KeyCmdNamesKey(op: KeyOp, r1: string, r2: string, path: string, a: string, b: string)
    requires KeyCmd(op, r1, path, a) == KeyCmd(op, r2, path, b)
    ensures a == b
  {
    var i := if op.Adding? then 3 else 4;
    assert KeyCmd(op, r1, path, a).args[i] == KmsUri(a);
    assert KeyCmd(op, r2, path, b).args[i] == KmsUri(b);
    assert KmsUri(a)[11..] == a && KmsUri(b)[11..] == b;
  }

  /** Every available key has its per-key command. */
  lemma KeyCmdsCover(op: KeyOp, path: string, keys: map<string, string>, order: seq<string>)
    requires Enumerates(order, keys.Keys)
    ensures forall k | k in keys :: KeyCmd(op, keys[k], path, k) in KeyCmds(op, path, keys, order)
  {
    var cmds := KeyCmds(op, path, keys, order);
    forall k | k in keys ensures KeyCmd(op, keys[k], path, k) in cmds {
      var i :| 0 <= i < |order| && order[i] == k;
      assert cmds[i] == KeyCmd(op, keys[k], path, k);
    }
  }

  /** No per-key command is issued twice. */
  lemma KeyCmdsDistinct(op: KeyOp, path: string, keys: map<string, string>, order: seq<string>)
    requires Enumerates(order, keys.Keys)
    ensures var cmds := KeyCmds(op, path, keys, order);
      forall i, j | 0 <= i < j < |cmds| :: cmds[i] != cmds[j]
  {
    var cmds := KeyCmds(op, path, keys, order);
    forall i, j | 0 <= i < j < |cmds| ensures cmds[i] != cmds[j] {
      if cmds[i] == cmds[j] {
        KeyCmdNamesKey(op, keys[order[i]], keys[order[j]], path, order[i], order[j]);
      }
    }
  }

  /** Every per-key command belongs to an available key. */
  lemma KeyCmdsOnly(op: KeyOp, path: string, keys: map<string, string>, order: seq<string>)
    requires Enumerates(order, keys.Keys)
    ensures forall c | c in KeyCmds(op, path, keys, order) :: exists k | k in keys :: c == KeyCmd(op, keys[k], path, k)
  {
    var cmds := KeyCmds(op, path, keys, order);
    forall c | c in cmds ensures exists k | k in keys :: c == KeyCmd(op, keys[k], path, k) {
      var i :| 0 <= i < |cmds| && cmds[i] == c;
      assert order[i] in keys;
    }
  }

  /** Whatever the iteration order, the per-key commands issue exactly one command for every
      available key, in that key's region, and nothing else. */
  lemma KeyCmdsShape(op: KeyOp, path: string, keys: map<string, string>, order: seq<string>)
    requires Enumerates(order, keys.Keys)
    ensures var cmds := KeyCmds(op, path, keys, order);
      && |cmds| == |keys|
      && (forall k | k in keys :: KeyCmd(op, keys[k], path, k) in cmds)
      && (forall i, j | 0 <= i < j < |cmds| :: cmds[i] != cmds[j])
      && (forall c | c in cmds :: exists k | k in keys :: c == KeyCmd(op, keys[k], path, k))
  {
    EnumerationSize(order, keys.Keys);
    KeyCmdsCover(op, path, keys, order);
    KeyCmdsDistinct(op, path, keys, order);
    KeyCmdsOnly(op, path, keys, order);
  }

  /** Everything add_keys_kms asks tuftool to do once the threshold check has passed, when the
      key map is iterated in `order`: the role's threshold commands in the default region,
      then one add-key per available key. */
  function KmsCmds(region: string, path: string, keys: map<string, string>, role: KeyRole,
                   threshold: string, order: seq<string>): seq<Cmd>
    requires Enumerates(order, keys.Keys)
  {
    ThresholdCmds(region, path, role, threshold) + KeyCmds(Adding(role), path, keys, order)
  }

  // ---------------------------------------------------------------- running tuftool

  /** The error a tuftool invocation that did not exit with status 0 raises. */
  function TuftoolFailure(status: ProcStatus, c: Cmd): Error {
    match status
    case SpawnFailed => TuftoolSpawn
    case Exited(code) => TuftoolResult(c, code)
  }

  predicate ExitedOk(w: World, h: History) {
    w.tuftool(h) == Exited(Some(0))
  }

  /** One invocation of the `tuftool!` macro. */
  function Invoke(w: World, h: History, c: Cmd): (o: Outcome<()>)
    ensures o.history == h + [Tuftool(c)]
    ensures o.result.Ok? <==> ExitedOk(w, o.history)
    ensures o.result.Err? ==> o.result.error == TuftoolFailure(w.tuftool(o.history), c)
  {
    var h' := h + [Tuftool(c)];
    if ExitedOk(w, h') then Outcome(Ok(()), h') else Outcome(Err(TuftoolFailure(w.tuftool(h'), c)), h')
  }

  /** Invoking `cmds` one after the other, stopping at the first that fails. */
  function Run(w: World, h: History, cmds: seq<Cmd>): Outcome<()>
    decreases |cmds|
  {
    if cmds == [] then Outcome(Ok(()), h)
    else
      var before := Run(w, h, cmds[..|cmds| - 1]);
      if before.result.Err? then before else Invoke(w, before.history, cmds[|cmds| - 1])
  }

  /** The history a run leaves is its input followed by the issued commands, a prefix of
      `cmds`; every issued command but the last exited with status 0; the run succeeded
      exactly when all of `cmds` were issued and the last of them exited with 0, and
      otherwise its error is the failure of the last command issued. */
  lemma {:induction false} RunTrace(w: World, h: History, cmds: seq<Cmd>)
    ensures var s := Run(w, h, cmds);
      && Extends(h, s.history) && |s.history| <= |h| + |cmds|
      && (forall i | |h| <= i < |s.history| :: s.history[i] == Tuftool(cmds[i - |h|]))
      && (forall j | |h| < j < |s.history| :: ExitedOk(w, s.history[..j]))
      && (s.result.Ok? ==> |s.history| == |h| + |cmds| && (cmds != [] ==> ExitedOk(w, s.history)))
      && (s.result.Err? ==>
            && |h| < |s.history|
            && !ExitedOk(w, s.history)
            && s.result.error == TuftoolFailure(w.tuftool(s.history), cmds[|s.history| - |h| - 1]))
    decreases |cmds|
  {
    if cmds != [] {
      var init := cmds[..|cmds| - 1];
      RunTrace(w, h, init);
      var before := Run(w, h, init);
      if before.result.Ok? {
        var s := Invoke(w, before.history, cmds[|cmds| - 1]);
        assert s.history[..|before.history|] == before.history;
        assert forall j | |h| < j <= |before.history| :: s.history[..j] == before.history[..j];
      }
    }
  }

  /** Every event a run adds is a tuftool invocation of one of its commands. */
  lemma RunIssuesOnly(w: World, h: History, cmds: seq<Cmd>)
    ensures var s := Run(w, h, cmds);
      Extends(h, s.history) && forall i | |h| <= i < |s.history| :: s.history[i].Tuftool? && s.history[i].cmd in cmds
  {
    RunTrace(w, h, cmds);
  }

  lemma RunSnoc(w: World, h: History, cmds: seq<Cmd>, c: Cmd)
    ensures Run(w, h, cmds + [c]) ==
            (var before := Run(w, h, cmds);
             if before.result.Err? then before else Invoke(w, before.history, c))
  {
    assert (cmds + [c])[..|cmds|] == cmds;
  }

  /** Running two command lists one after the other is running the second from where the
      first left off, unless the first failed: then nothing of the second is issued. */
  lemma {:induction false} RunConcat(w: World, h: History, cmds: seq<Cmd>, more: seq<Cmd>)
    ensures Run(w, h, cmds + more) ==
            (var s := Run(w, h, cmds); if s.result.Err? then s else Run(w, s.history, more))
    decreases |more|
  {
    if more == [] {
      assert cmds + more == cmds;
    } else {
      var init, last := more[..|more| - 1], more[|more| - 1];
      RunConcat(w, h, cmds, init);
      assert more == init + [last];
      assert cmds + more == (cmds + init) + [last];
      RunSnoc(w, h, cmds + init, last);
      var s := Run(w, h, cmds);
      if s.result.Ok? {
        RunSnoc(w, s.history, init, last);
      }
    }
  }

  /** The events of issuing every command of `cmds`, in order. */
  function Issued(cmds: seq<Cmd>): (r: seq<Event>)
    ensures |r| == |cmds| && forall i | 0 <= i < |cmds| :: r[i] == Tuftool(cmds[i])
  {
    seq(|cmds|, i requires 0 <= i < |cmds| => Tuftool(cmds[i]))
  }

  /** A run that succeeds has issued all of its commands, in order, and nothing else. */
  lemma RunIssuedAll(w: World, h: History, cmds: seq<Cmd>)
    ensures Run(w, h, cmds).result.Ok? ==> Run(w, h, cmds).history == h + Issued(cmds)
  {
    var s := Run(w, h, cmds);
    RunTrace(w, h, cmds);
    if s.result.Ok? {
      assert forall i | 0 <= i < |s.history| :: s.history[i] == (h + Issued(cmds))[i] by {
        forall i | 0 <= i < |s.history| ensures s.history[i] == (h + Issued(cmds))[i] {
          if i < |h| {
            assert s.history[i] == s.history[..|h|][i];
          }
        }
      }
    }
  }

  /** A command of `cmds` is among the events of issuing them. */
  lemma IssuedContains(h: History, cmds: seq<Cmd>, c: Cmd)
    requires c in cmds
    ensures exists i | |h| <= i < |h + Issued(cmds)| :: (h + Issued(cmds))[i] == Tuftool(c)
  {
    var j :| 0 <= j < |cmds| && cmds[j] == c;
    assert (h + Issued(cmds))[|h| + j] == Tuftool(c);
  }

  // ---------------------------------------------------------------- threshold parsing

  predicate IsDigit(c: char) {
    '0' <= c <= '9'
  }

  predicate AllDigits(s: string) {
    forall i :: 0 <= i < |s| ==> IsDigit(s[i])
  }

  function DigitsValue(s: string): nat
    requires AllDigits(s)
    decreases |s|
  {
    if s == [] then 0
    else DigitsValue(s[..|s| - 1]) * 10 + (s[|s| - 1] as int - '0' as int)
  }

  /** `str::parse::<usize>`: an optional '+', then at least one decimal digit, with a value
      that fits in 64 bits. */
  function ParseUsize(s: string): (r: Option<nat>)
    ensures s == [] || s == "+" ==> r.None?
    ensures |s| > 0 && s[0] == '-' ==> r.None?
    ensures r.Some? ==> r.value < UsizeLimit
    ensures r.Some? ==> forall i | 0 <= i < |s| :: IsDigit(s[i]) || (i == 0 && s[i] == '+')
  {
    var digits := if |s| > 0 && s[0] == '+' then s[1..] else s;
    if digits != [] && AllDigits(digits) && DigitsValue(digits) < UsizeLimit then
      assert forall i | 1 <= i < |s| && s[0] == '+' :: s[i] == digits[i - 1];
      Some(DigitsValue(digits))
    else None
  }

  /** Decimal notation of a number. */
  function Decimal(n: nat): string
    decreases n
  {
    if n < 10 then [('0' as int + n) as char] else Decimal(n / 10) + [('0' as int + n % 10) as char]
  }

  lemma {:induction false} DecimalValue(n: nat)
    ensures Decimal(n) != [] && AllDigits(Decimal(n)) && DigitsValue(Decimal(n)) == n
    decreases n
  {
    if n >= 10 {
      DecimalValue(n / 10);
      var d := Decimal(n);
      assert d[..|d| - 1] == Decimal(n / 10);
    }
  }

  /** A number written in decimal, with or without '+', parses back to its value exactly when
      it fits in 64 bits; larger numbers are refused. */
  lemma ParseUsizeDecimal(n: nat)
    ensures ParseUsize(Decimal(n)) == if n < UsizeLimit then Some(n) else None
    ensures ParseUsize("+" + Decimal(n)) == if n < UsizeLimit then Some(n) else None
  {
    DecimalValue(n);
    assert IsDigit(Decimal(n)[0]);
    assert ("+" + Decimal(n))[1..] == Decimal(n);
  }

  /** The check add_keys_kms makes before issuing any command: the threshold must parse as a
      usize and must not exceed the number of available keys. */
  function ThresholdCheck(threshold: string, numKeys: nat): (r: Result<()>)
    ensures r.Ok? <==> ParseUsize(threshold).Some? && ParseUsize(threshold).value <= numKeys
    ensures ParseUsize(threshold).None? ==> r == Err(ParseInt(threshold))
    ensures ParseUsize(threshold).Some? && r.Err? ==> r == Err(InvalidThreshold(threshold, numKeys))
  {
    match ParseUsize(threshold)
    case None => Err(ParseInt(threshold))
    case Some(n) => if numKeys < n then Err(InvalidThreshold(threshold, numKeys)) else Ok(())
  }

  /** A threshold written in decimal passes exactly when it is a usize no larger than the
      number of available keys; a threshold of 0 passes. */
  lemma ThresholdCheckDecimal(n: nat, numKeys: nat)
    ensures ThresholdCheck(Decimal(n), numKeys).Ok? <==> n < UsizeLimit && n <= numKeys
    ensures n >= UsizeLimit ==> ThresholdCheck(Decimal(n), numKeys) == Err(ParseInt(Decimal(n)))
  {
    ParseUsizeDecimal(n);
  }

  // ---------------------------------------------------------------- the steps

  /** check_root: refuses to go on when root.json already exists. */
  function CheckRoot(w: World, h: History, path: string): (r: Result<()>)
    ensures r.Err? <==> w.isFile(h, path)
    ensures r.Err? ==> r.error == FileExists(path)
  {
    if w.isFile(h, path) then Err(FileExists(path)) else Ok(())
  }

  /** What create_root does: the directory of root.json, then `root init`, then `root expire`
      once init has exited with 0. */
  function RootCreated(w: World, h: History, path: string): Outcome<()> {
    match w.parentDir(path)
    case None => Outcome(Err(PathError(path, RootRoleItem)), h)
    case Some(dir) =>
      var h1 := h + [MakeDir(dir)];
      if !w.succeeds(h1) then Outcome(Err(Mkdir(dir)), h1)
      else
        var init := Invoke(w, h1, InitCmd(w.defaultRegion, path));
        if init.result.Err? then init else Invoke(w, init.history, ExpireCmd(w.defaultRegion, path))
  }

  /** Creating root.json only appends events and never fails for a missing setting. */
  lemma RootCreatedAppends(w: World, h: History, path: string)
    ensures var o := RootCreated(w, h, path);
      Extends(h, o.history) && (o.result.Err? ==> !o.result.error.MissingConfig?)
  {
  }

  /** create_root: makes root.json's directory, then `root init` and `root expire`, both in
      the default region; `root expire` is issued only when `root init` exited with 0. */
  method CreateRoot(w: World, h: History, path: string) returns (r: Result<()>, h': History)
    ensures Outcome(r, h') == RootCreated(w, h, path)
    ensures InPhase(h, h', 4)
    ensures r.Err? ==> r.error.PathError? || r.error.Mkdir? || r.error.TuftoolSpawn? || r.error.TuftoolResult?
    ensures w.parentDir(path).None? ==> r == Err(PathError(path, RootRoleItem)) && h' == h
    ensures w.parentDir(path).Some? ==>
              var dir := w.parentDir(path).value;
              var h1 := h + [MakeDir(dir)];
              var h2 := h1 + [Tuftool(InitCmd(w.defaultRegion, path))];
              && (!w.succeeds(h1) ==> r == Err(Mkdir(dir)) && h' == h1)
              && (w.succeeds(h1) && !ExitedOk(w, h2) ==> Outcome(r, h') == Invoke(w, h1, InitCmd(w.defaultRegion, path)))
              && (w.succeeds(h1) && ExitedOk(w, h2) ==> Outcome(r, h') == Invoke(w, h2, ExpireCmd(w.defaultRegion, path)))
    ensures r.Ok? ==> |h'| > |h| && h'[|h'| - 1] == Tuftool(ExpireCmd(w.defaultRegion, path))
  {
    var dir := w.parentDir(path);
    if dir.None? {
      return Err(PathError(path, RootRoleItem)), h;
    }
    h' := h + [MakeDir(dir.value)];
    if !w.succeeds(h') {
      return Err(Mkdir(dir.value)), h';
    }
    var s := Invoke(w, h', InitCmd(w.defaultRegion, path));
    if s.result.Err? {
      return s.result, s.history;
    }
    s := Invoke(w, s.history, ExpireCmd(w.defaultRegion, path));
    r, h' := s.result, s.history;
  }

  /** Among the events h' adds to h, every threshold command of the role was issued in
      `region`, and every key of `keys` was added for the role in its own region. */
  predicate AddedByAll(h: History, h': History, region: string, keys: map<string, string>, role: KeyRole,
                       threshold: string, path: string) {
    && (forall c | c in ThresholdCmds(region, path, role, threshold) :: exists i | |h| <= i < |h'| :: h'[i] == Tuftool(c))
    && (forall k | k in keys :: exists i | |h| <= i < |h'| :: h'[i] == Tuftool(KeyCmd(Adding(role), keys[k], path, k)))
  }

  /** What was added between h and h' is still added between an earlier start and a later
      end. */
  lemma StillAdded(h0: History, h: History, h': History, h'': History, region: string, keys: map<string, string>,
                   role: KeyRole, threshold: string, path: string)
    requires |h0| <= |h| && Extends(h', h'')
    requires AddedByAll(h, h', region, keys, role, threshold, path)
    ensures AddedByAll(h0, h'', region, keys, role, threshold, path)
  {
    forall c | c in ThresholdCmds(region, path, role, threshold)
      ensures exists i | |h0| <= i < |h''| :: h''[i] == Tuftool(c)
    {
      var i :| |h| <= i < |h'| && h'[i] == Tuftool(c);
      assert h''[i] == h''[..|h'|][i];
    }
    forall k | k in keys
      ensures exists i | |h0| <= i < |h''| :: h''[i] == Tuftool(KeyCmd(Adding(role), keys[k], path, k))
    {
      var i :| |h| <= i < |h'| && h'[i] == Tuftool(KeyCmd(Adding(role), keys[k], path, k));
      assert h''[i] == h''[..|h'|][i];
    }
  }

  datatype KmsOutcome = KmsOutcome(result: Result<()>, keyId: Option<string>, history: History)

  /** What add_keys_kms does: the threshold check, then the role's threshold commands and one
      add-key per available key in the order the key map yields them, then, for the
      publication role without a key id, the first key the map yields becomes the key id. */
  function KmsAddKeys(w: World, h: History, keys: map<string, string>, role: KeyRole, threshold: string,
                      path: string, keyId: Option<string>): KmsOutcome
    requires MapOrders(w)
  {
    var order := w.keyOrder(keys.Keys);
    var check := ThresholdCheck(threshold, |keys|);
    if check.Err? then KmsOutcome(check, keyId, h)
    else
      var ran := Run(w, h, KmsCmds(w.defaultRegion, path, keys, role, threshold, order));
      if ran.result.Err? then KmsOutcome(ran.result, keyId, ran.history)
      else if role.Root? || keyId.Some? then KmsOutcome(Ok(()), keyId, ran.history)
      else if order == [] then KmsOutcome(Err(KeyCreation), keyId, ran.history)
      else KmsOutcome(Ok(()), Some(order[0]), ran.history)
  }

  /** Per-key commands are all of the kind their operation names. */
  lemma KeyCmdsKind(op: KeyOp, path: string, keys: map<string, string>, order: seq<string>)
    requires forall k | k in order :: k in keys
    ensures forall c | c in KeyCmds(op, path, keys, order) :: c.kind == (if op.Signing? then Sign else AddKey)
  {
    var cmds := KeyCmds(op, path, keys, order);
    forall c | c in cmds ensures c.kind == (if op.Signing? then Sign else AddKey) {
      var i :| 0 <= i < |cmds| && cmds[i] == c;
    }
  }

  /** The events add_keys_kms issues: nothing before the threshold check passes, then only
      threshold and add-key commands. */
  lemma KmsAddKeysTrace(w: World, h: History, keys: map<string, string>, role: KeyRole, threshold: string,
                        path: string, keyId: Option<string>)
    requires MapOrders(w)
    ensures var o := KmsAddKeys(w, h, keys, role, threshold, path, keyId);
      && (ParseUsize(threshold).None? ==> o == KmsOutcome(Err(ParseInt(threshold)), keyId, h))
      && (ParseUsize(threshold).Some? && |keys| < ParseUsize(threshold).value ==>
            o == KmsOutcome(Err(InvalidThreshold(threshold, |keys|)), keyId, h))
      && Extends(h, o.history)
      && (forall i | |h| <= i < |o.history| ::
            o.history[i].Tuftool? && (o.history[i].cmd.kind == SetThreshold || o.history[i].cmd.kind == AddKey))
  {
    var order := w.keyOrder(keys.Keys);
    assert Enumerates(order, keys.Keys);
    var cmds := KmsCmds(w.defaultRegion, path, keys, role, threshold, order);
    RunIssuesOnly(w, h, cmds);
    KmsCmdsKind(w.defaultRegion, path, keys, role, threshold, order);
  }

  /** The commands of add_keys_kms are threshold and add-key commands only. */
  lemma KmsCmdsKind(region: string, path: string, keys: map<string, string>, role: KeyRole,
                    threshold: string, order: seq<string>)
    requires Enumerates(order, keys.Keys)
    ensures forall c | c in KmsCmds(region, path, keys, role, threshold, order) :: c.kind == SetThreshold || c.kind == AddKey
  {
    var pre := ThresholdCmds(region, path, role, threshold);
    var per := KeyCmds(Adding(role), path, keys, order);
    KeyCmdsKind(Adding(role), path, keys, order);
    forall c: Cmd | c in pre + per ensures c.kind == SetThreshold || c.kind == AddKey {
      if c !in per {
        assert c in pre;
      }
    }
  }

  /** The key id add_keys_kms leaves: unchanged for the root role or when one was set; set
      exactly on success otherwise, and then to an available key; with no available keys
      an unset publication key id is an error. */
  lemma KmsAddKeysKeyId(w: World, h: History, keys: map<string, string>, role: KeyRole, threshold: string,
                        path: string, keyId: Option<string>)
    requires MapOrders(w)
    ensures var o := KmsAddKeys(w, h, keys, role, threshold, path, keyId);
      && (role.Root? || keyId.Some? ==> o.keyId == keyId)
      && (role.Publication? && keyId.None? ==> (o.keyId.Some? <==> o.result.Ok?))
      && (o.keyId != keyId ==> o.keyId.Some? && o.keyId.value in keys)
      && (role.Publication? && keyId.None? && keys == map[] && ThresholdCheck(threshold, 0).Ok? ==>
            o.result.Err? && (o.result.error == KeyCreation || o.result.error.TuftoolSpawn? || o.result.error.TuftoolResult?))
  {
    var order := w.keyOrder(keys.Keys);
    assert Enumerates(order, keys.Keys);
    RunTrace(w, h, KmsCmds(w.defaultRegion, path, keys, role, threshold, order));
    if keys == map[] {
      EnumerationSize(order, keys.Keys);
    }
  }

  /** A successful add_keys_kms issued exactly its commands, in order: the role's threshold
      commands in the default region, then one add-key per available key in that key's own
      region; so every available key was added for the role. */
  lemma KmsAddKeysIssued(w: World, h: History, keys: map<string, string>, role: KeyRole, threshold: string,
                         path: string, keyId: Option<string>)
    requires MapOrders(w)
    ensures var o := KmsAddKeys(w, h, keys, role, threshold, path, keyId);
            var order := w.keyOrder(keys.Keys);
      o.result.Ok? ==>
        && Enumerates(order, keys.Keys)
        && o.history == h + Issued(KmsCmds(w.defaultRegion, path, keys, role, threshold, order))
        && AddedByAll(h, o.history, w.defaultRegion, keys, role, threshold, path)
  {
    var o := KmsAddKeys(w, h, keys, role, threshold, path, keyId);
    var order := w.keyOrder(keys.Keys);
    assert Enumerates(order, keys.Keys);
    var pre := ThresholdCmds(w.defaultRegion, path, role, threshold);
    var per := KeyCmds(Adding(role), path, keys, order);
    var cmds := KmsCmds(w.defaultRegion, path, keys, role, threshold, order);
    RunIssuedAll(w, h, cmds);
    if o.result.Ok? {
      assert o.history == h + Issued(cmds);
      forall c | c in pre ensures exists i | |h| <= i < |o.history| :: o.history[i] == Tuftool(c) {
        assert c in cmds;
        IssuedContains(h, cmds, c);
      }
      KeyCmdsCover(Adding(role), path, keys, order);
      forall k | k in keys
        ensures exists i | |h| <= i < |o.history| :: o.history[i] == Tuftool(KeyCmd(Adding(role), keys[k], path, k))
      {
        assert KeyCmd(Adding(role), keys[k], path, k) in cmds;
        IssuedContains(h, cmds, KeyCmd(Adding(role), keys[k], path, k));
      }
    }
  }

  /** What add_keys_kms guarantees whatever order the key map yields: the threshold is checked
      before anything is issued; only threshold and add-key commands are issued, and a success
      issued all of them, adding every available key; the
      publication key id is written at most once and only with an available key; with no
      available keys an unset publication key id is an error. */
  lemma KmsAddKeysContract(w: World, h: History, keys: map<string, string>, role: KeyRole, threshold: string,
                           path: string, keyId: Option<string>)
    requires MapOrders(w)
    ensures var o := KmsAddKeys(w, h, keys, role, threshold, path, keyId);
      && (ParseUsize(threshold).None? ==> o == KmsOutcome(Err(ParseInt(threshold)), keyId, h))
      && (ParseUsize(threshold).Some? && |keys| < ParseUsize(threshold).value ==>
            o == KmsOutcome(Err(InvalidThreshold(threshold, |keys|)), keyId, h))
      && Extends(h, o.history)
      && (forall i | |h| <= i < |o.history| ::
            o.history[i].Tuftool? && (o.history[i].cmd.kind == SetThreshold || o.history[i].cmd.kind == AddKey))
      && (role.Root? || keyId.Some? ==> o.keyId == keyId)
      && (role.Publication? && keyId.None? ==> (o.keyId.Some? <==> o.result.Ok?))
      && (o.keyId != keyId ==> o.keyId.Some? && o.keyId.value in keys)
      && (role.Publication? && keyId.None? && keys == map[] && ThresholdCheck(threshold, 0).Ok? ==>
            o.result.Err? && (o.result.error == KeyCreation || o.result.error.TuftoolSpawn? || o.result.error.TuftoolResult?))
      && (o.result.Ok? ==>
            && Enumerates(w.keyOrder(keys.Keys), keys.Keys)
            && o.history == h + Issued(KmsCmds(w.defaultRegion, path, keys, role, threshold, w.keyOrder(keys.Keys)))
            && AddedByAll(h, o.history, w.defaultRegion, keys, role, threshold, path))
  {
    KmsAddKeysTrace(w, h, keys, role, threshold, path, keyId);
    KmsAddKeysKeyId(w, h, keys, role, threshold, path, keyId);
    KmsAddKeysIssued(w, h, keys, role, threshold, path, keyId);
  }

  /** add_keys_kms issues phase-5 events only. */
  lemma KmsAddKeysPhase(w: World, h: History, keys: map<string, string>, role: KeyRole, threshold: string,
                        path: string, keyId: Option<string>)
    requires MapOrders(w)
    ensures InPhase(h, KmsAddKeys(w, h, keys, role, threshold, path, keyId).history, 5)
  {
    KmsAddKeysTrace(w, h, keys, role, threshold, path, keyId);
  }

  /** The threshold commands of add_keys_kms, one statement each as in the source. */
  method SetThresholds(w: World, h: History, role: KeyRole, threshold: string, path: string)
    returns (r: Result<()>, h': History)
    ensures Outcome(r, h') == Run(w, h, ThresholdCmds(w.defaultRegion, path, role, threshold))
  {
    var region := w.defaultRegion;
    match role {
      case Root =>
        var c := SetThresholdCmd(region, path, RootRoleName, threshold);
        RunSnoc(w, h, [], c);
        var s := Invoke(w, h, c);
        r, h' := s.result, s.history;
      case Publication =>
        var c0 := SetThresholdCmd(region, path, SnapshotRoleName, threshold);
        var c1 := SetThresholdCmd(region, path, TargetsRoleName, threshold);
        var c2 := SetThresholdCmd(region, path, TimestampRoleName, threshold);
        RunSnoc(w, h, [], c0);
        RunSnoc(w, h, [c0], c1);
        RunSnoc(w, h, [c0, c1], c2);
        assert [c0] + [c1] == [c0, c1];
        assert [c0, c1] + [c2] == [c0, c1, c2];
        var s := Invoke(w, h, c0);
        if s.result.Err? {
          r, h' := s.result, s.history;
          return;
        }
        s := Invoke(w, s.history, c1);
        if s.result.Err? {
          r, h' := s.result, s.history;
          return;
        }
        s := Invoke(w, s.history, c2);
        r, h' := s.result, s.history;
    }
  }

  /** One more key of the loop add_keys_kms and sign_root share. */
  lemma IssueStep(w: World, h: History, op: KeyOp, path: string, keys: map<string, string>,
                  done: seq<string>, k: string)
    requires forall x | x in done :: x in keys
    requires k in keys
    ensures Run(w, h, KeyCmds(op, path, keys, done + [k])) ==
            (var before := Run(w, h, KeyCmds(op, path, keys, done));
             if before.result.Err? then before else Invoke(w, before.history, KeyCmd(op, keys[k], path, k)))
  {
    KeyCmdsSnoc(op, path, keys, done, k);
    RunSnoc(w, h, KeyCmds(op, path, keys, done), KeyCmd(op, keys[k], path, k));
  }

  /** Once a per-key command has failed, the keys after it change nothing. */
  lemma StopEarly(w: World, h: History, op: KeyOp, path: string, keys: map<string, string>,
                  order: seq<string>, n: nat)
    requires forall x | x in order :: x in keys
    requires n <= |order|
    requires Run(w, h, KeyCmds(op, path, keys, order[..n])).result.Err?
    ensures Run(w, h, KeyCmds(op, path, keys, order)) == Run(w, h, KeyCmds(op, path, keys, order[..n]))
  {
    assert order == order[..n] + order[n..];
    KeyCmdsConcat(op, path, keys, order[..n], order[n..]);
    RunConcat(w, h, KeyCmds(op, path, keys, order[..n]), KeyCmds(op, path, keys, order[n..]));
  }

  /** The loop add_keys_kms and sign_root share: one per-key command for each available key,
      in the order the key map yields them, stopping at the first failure. */
  method IssuePerKey(w: World, h: History, op: KeyOp, path: string, keys: map<string, string>)
    returns (r: Result<()>, h': History)
    requires MapOrders(w)
    ensures Outcome(r, h') == Run(w, h, KeyCmds(op, path, keys, w.keyOrder(keys.Keys)))
  {
    var order := w.keyOrder(keys.Keys);
    assert Enumerates(order, keys.Keys);
    r, h' := Ok(()), h;
    var i := 0;
    while i < |order|
      invariant 0 <= i <= |order|
      invariant r == Ok(()) && Run(w, h, KeyCmds(op, path, keys, order[..i])) == Outcome(r, h')
    {
      var k := order[i];
      var s := Invoke(w, h', KeyCmd(op, keys[k], path, k));
      IssueStep(w, h, op, path, keys, order[..i], k);
      assert order[..i + 1] == order[..i] + [k];
      if s.result.Err? {
        StopEarly(w, h, op, path, keys, order, i + 1);
        return s.result, s.history;
      }
      h' := s.history;
      i := i + 1;
    }
    assert order[..|order|] == order;
  }

  /** add_keys_kms: checks the threshold against the number of available keys, sets the
      role's thresholds, adds every available key for the role, and for the publication role
      records a key id when none is recorded yet. */
  method AddKeysKms(w: World, h: History, keys: map<string, string>, role: KeyRole, threshold: string,
                    path: string, keyId: Option<string>)
    returns (r: Result<()>, keyId': Option<string>, h': History)
    requires MapOrders(w)
    ensures KmsOutcome(r, keyId', h') == KmsAddKeys(w, h, keys, role, threshold, path, keyId)
  {
    keyId' := keyId;
    var check := ThresholdCheck(threshold, |keys|);
    if check.Err? {
      return check, keyId, h;
    }
    var order := w.keyOrder(keys.Keys);
    assert Enumerates(order, keys.Keys);
    ghost var pre := ThresholdCmds(w.defaultRegion, path, role, threshold);
    ghost var per := KeyCmds(Adding(role), path, keys, order);
    assert KmsCmds(w.defaultRegion, path, keys, role, threshold, order) == pre + per;
    RunConcat(w, h, pre, per);
    var h1;
    r, h1 := SetThresholds(w, h, role, threshold, path);
    if r.Err? {
      return r, keyId, h1;
    }
    r, h' := IssuePerKey(w, h1, Adding(role), path, keys);
    assert Run(w, h, KmsCmds(w.defaultRegion, path, keys, role, threshold, order)) == Outcome(r, h');
    if r.Ok? && role.Publication? && keyId.None? {
      if order == [] {
        r := Err(KeyCreation);
      } else {
        keyId' := Some(order[0]);
      }
    }
  }

  datatype KeysOutcome = KeysOutcome(result: Result<()>, keys: SigningKeyConfig, history: History)

  /** What add_keys does with a key configuration: only KMS keys with their `config` table are
      added, and add_keys_kms may record a key id in the configuration. */
  function KeysAdded(w: World, h: History, cfg: SigningKeyConfig, role: KeyRole, threshold: string,
                     path: string): KeysOutcome
    requires MapOrders(w)
  {
    match cfg
    case Kms(keyId, config) =>
      if config.None? then KeysOutcome(Err(MissingConfig(KmsConfigItem)), cfg, h)
      else
        var o := KmsAddKeys(w, h, config.value.availableKeys, role, threshold, path, keyId);
        KeysOutcome(o.result, cfg.(keyId := o.keyId), o.history)
    case _ => KeysOutcome(Ok(()), cfg, h)
  }

  /** What add_keys does to the key configuration: file and SSM keys are left alone; a KMS
      configuration without its `config` table is an error; otherwise it keeps its `config` table; the key id changes only for the publication
      role when it was unset, and then to one of the available keys; a successful add of
      publication keys always leaves a key id; a successful add of KMS keys set the role's
      thresholds and added every available key. */
  lemma KeysAddedContract(w: World, h: History, cfg: SigningKeyConfig, role: KeyRole, threshold: string,
                          path: string)
    requires MapOrders(w)
    ensures var o := KeysAdded(w, h, cfg, role, threshold, path);
      && Extends(h, o.history)
      && (!cfg.Kms? ==> o == KeysOutcome(Ok(()), cfg, h))
      && (cfg.Kms? && cfg.config.None? ==> o == KeysOutcome(Err(MissingConfig(KmsConfigItem)), cfg, h))
      && (cfg.Kms? ==> o.keys.Kms? && o.keys.config == cfg.config)
      && (cfg.Kms? && (role.Root? || cfg.keyId.Some?) ==> o.keys == cfg)
      && (cfg.Kms? && o.keys.keyId != cfg.keyId ==>
            cfg.config.Some? && o.keys.keyId.Some? && o.keys.keyId.value in cfg.config.value.availableKeys)
      && (cfg.Kms? && role.Publication? && o.result.Ok? ==> o.keys.keyId.Some?)
      && (cfg.Kms? && o.result.Ok? ==>
            cfg.config.Some? && AddedByAll(h, o.history, w.defaultRegion, cfg.config.value.availableKeys, role, threshold, path))
  {
    if cfg.Kms? && cfg.config.Some? {
      KmsAddKeysContract(w, h, cfg.config.value.availableKeys, role, threshold, path, cfg.keyId);
    }
  }

  /** add_keys: only KMS keys are added to root.json; a KMS key set without its `config`
      table is an error. */
  method AddKeys(w: World, h: History, cfg: SigningKeyConfig, role: KeyRole, threshold: string, path: string)
    returns (r: Result<()>, cfg': SigningKeyConfig, h': History)
    requires MapOrders(w)
    ensures KeysOutcome(r, cfg', h') == KeysAdded(w, h, cfg, role, threshold, path)
    ensures InPhase(h, h', 5)
  {
    match cfg {
      case File =>
        r, cfg', h' := Ok(()), cfg, h;
      case Ssm =>
        r, cfg', h' := Ok(()), cfg, h;
      case Kms(keyId, config) =>
        if config.None? {
          return Err(MissingConfig(KmsConfigItem)), cfg, h;
        }
        var id;
        r, id, h' := AddKeysKms(w, h, config.value.availableKeys, role, threshold, path, keyId);
        KmsAddKeysPhase(w, h, config.value.availableKeys, role, threshold, path, keyId);
        cfg' := cfg.(keyId := id);
    }
  }

  /** What sign_root does: one `root sign` with every available root key, each in its key's
      region, in the order the key map yields them, stopping at the first failure. */
  function RootSigned(w: World, h: History, cfg: SigningKeyConfig, path: string): Outcome<()>
    requires MapOrders(w)
  {
    match cfg
    case Kms(_, config) =>
      if config.None? then Outcome(Err(MissingConfig(KmsDetailsItem)), h)
      else
        var keys := config.value.availableKeys;
        assert Enumerates(w.keyOrder(keys.Keys), keys.Keys);
        Run(w, h, KeyCmds(Signing, path, keys, w.keyOrder(keys.Keys)))
    case _ => Outcome(Ok(()), h)
  }

  /** Every key of `keys` signed root.json among the events h' adds to h. */
  predicate SignedByAll(h: History, h': History, keys: map<string, string>, path: string) {
    forall k | k in keys :: exists i | |h| <= i < |h'| :: h'[i] == Tuftool(KeyCmd(Signing, keys[k], path, k))
  }

  /** A run of the signing commands that succeeds has issued the command of every key. */
  lemma SigningCoversKeys(w: World, h: History, path: string, keys: map<string, string>, order: seq<string>)
    requires Enumerates(order, keys.Keys)
    requires Run(w, h, KeyCmds(Signing, path, keys, order)).result.Ok?
    ensures SignedByAll(h, Run(w, h, KeyCmds(Signing, path, keys, order)).history, keys, path)
  {
    var cmds := KeyCmds(Signing, path, keys, order);
    var o := Run(w, h, cmds);
    RunTrace(w, h, cmds);
    KeyCmdsShape(Signing, path, keys, order);
    forall k | k in keys ensures exists i | |h| <= i < |o.history| :: o.history[i] == Tuftool(KeyCmd(Signing, keys[k], path, k)) {
      var j :| 0 <= j < |cmds| && cmds[j] == KeyCmd(Signing, keys[k], path, k);
      assert o.history[|h| + j] == Tuftool(cmds[j]);
    }
  }

  /** sign_root leaves file and SSM keys alone, refuses a KMS configuration without its
      `config` table, issues nothing but `root sign` commands, and once it succeeds for a KMS
      configuration has signed with every available root key. */
  lemma RootSignedByAll(w: World, h: History, cfg: SigningKeyConfig, path: string)
    requires MapOrders(w)
    ensures var o := RootSigned(w, h, cfg, path);
      && Extends(h, o.history)
      && (!cfg.Kms? ==> o == Outcome(Ok(()), h))
      && (cfg.Kms? && cfg.config.None? ==> o == Outcome(Err(MissingConfig(KmsDetailsItem)), h))
      && (forall i | |h| <= i < |o.history| :: o.history[i].Tuftool? && o.history[i].cmd.kind == Sign)
      && (o.result.Ok? && cfg.Kms? ==> cfg.config.Some? && SignedByAll(h, o.history, cfg.config.value.availableKeys, path))
  {
    if cfg.Kms? && cfg.config.Some? {
      var keys := cfg.config.value.availableKeys;
      var order := w.keyOrder(keys.Keys);
      assert Enumerates(order, keys.Keys);
      var cmds := KeyCmds(Signing, path, keys, order);
      RunIssuesOnly(w, h, cmds);
      KeyCmdsKind(Signing, path, keys, order);
      if Run(w, h, cmds).result.Ok? {
        SigningCoversKeys(w, h, path, keys, order);
      }
    }
  }

  /** sign_root: signs root.json once with every available root key, each in its own region. */
  method SignRoot(w: World, h: History, cfg: SigningKeyConfig, path: string)
    returns (r: Result<()>, h': History)
    requires MapOrders(w)
    ensures Outcome(r, h') == RootSigned(w, h, cfg, path)
    ensures InPhase(h, h', 6)
  {
    r, h' := Ok(()), h;
    if !cfg.Kms? {
      return;
    }
    if cfg.config.None? {
      return Err(MissingConfig(KmsDetailsItem)), h;
    }
    r, h' := IssuePerKey(w, h, Signing, path, cfg.config.value.availableKeys);
    RootSignedByAll(w, h, cfg, path);
  }
}
