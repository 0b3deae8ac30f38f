/**
 Runs of the keychain client in which a change of the master password may be killed at any write, with
 lookups, stores, removals, restarts and logins between the attempts.
 */
module Recovery {
  import opened Options
  import opened KeyNames
  import opened PasswordChange
  import opened KeyClient

  /** Every change attempted is from oldPW to newPW. */
  predicate Attempts(op: Op, oldPW: Password, newPW: Password) {
    op.Change? ==> op.oldPW == oldPW && op.newPW == newPW
  }

  /** The disk is before, during or after the change, and what the client holds in memory is the
      password that the hash verifies. */
  ghost predicate OnCourse(s: State, oldPW: Password, newPW: Password) {
    && Safe(s.disk, oldPW, newPW)
    && (s.masterPW == "" || s.disk.hash == HashOf(s.masterPW))
    && (Captured(s) == "" || Captured(s) == s.masterPW)
  }

  /** What an operation that succeeds does to the secrets of the file store. */
  function Effect(secrets: map<string, string>, s: State, op: Op): map<string, string> {
    if s.cached.Some? && !s.cached.value.FileRing? then secrets
    else match op
      case Set(provider, secret) => secrets[SanitizeKey(provider) := secret]
      case Remove(provider) => secrets - {SanitizeKey(provider)}
      case _ => secrets
  }

  lemma StoreStaysOnCourse(v: Verdict, s: State, provider: string, secret: string, oldPW: Password, newPW: Password)
    requires OnCourse(s, oldPW, newPW)
    ensures OnCourse(Step(v, s, Set(provider, secret)).0, oldPW, newPW)
  {
  }

  lemma StepStaysOnCourse(v: Verdict, s: State, op: Op, oldPW: Password, newPW: Password)
    requires Legal(s, op) && Attempts(op, oldPW, newPW) && OnCourse(s, oldPW, newPW)
    ensures OnCourse(Step(v, s, op).0, oldPW, newPW)
  {
    if op.Set? {
      StoreStaysOnCourse(v, s, op.provider, op.secret, oldPW, newPW);
    } else if op.Change? {
      ChangeStaysOnCourse(v, s, op, oldPW, newPW);
    }
  }

  lemma ChangeStaysOnCourse(v: Verdict, s: State, op: Op, oldPW: Password, newPW: Password)
    requires op.Change? && Legal(s, op) && Attempts(op, oldPW, newPW) && OnCourse(s, oldPW, newPW)
    ensures OnCourse(Step(v, s, op).0, oldPW, newPW)
  {
    ChangeKeepsSafe(s.disk, oldPW, newPW, op.keys, op.lives);
    EveryCrashKeepsSecrets(s.disk, oldPW, newPW, op.keys, op.lives);
  }

  lemma StoredSecrets(v: Verdict, s: State, provider: string, secret: string)
    ensures var (s', reply) := Step(v, s, Set(provider, secret));
            Secrets(s'.disk.items) ==
            if reply == Done then Effect(Secrets(s.disk.items), Opened(v, s), Set(provider, secret))
            else Secrets(s.disk.items)
  {
  }

  lemma RemovedSecrets(v: Verdict, s: State, provider: string)
    ensures var (s', reply) := Step(v, s, Remove(provider));
            Secrets(s'.disk.items) ==
            if reply == Done then Effect(Secrets(s.disk.items), Opened(v, s), Remove(provider))
            else Secrets(s.disk.items)
  {
  }

  /** Secrets change only by a store or a removal that succeeds, and then at that provider alone. */
  lemma SecretsChangeOnlyByTheUser(v: Verdict, s: State, op: Op)
    requires Legal(s, op)
    ensures var (s', reply) := Step(v, s, op);
            Secrets(s'.disk.items) ==
            if reply == Done then Effect(Secrets(s.disk.items), Opened(v, s), op) else Secrets(s.disk.items)
  {
    match op {
      case Set(provider, secret) => StoredSecrets(v, s, provider, secret);
      case Remove(provider) => RemovedSecrets(v, s, provider);
      case Change(oldPW, newPW, keys, lives) => EveryCrashKeepsSecrets(s.disk, oldPW, newPW, keys, lives);
      case _ =>
    }
  }

  predicate Touches(op: Op, provider: string) {
    (op.Set? || op.Remove?) && op.provider == provider
  }

  /** A secret that the user leaves alone survives any run, whatever is attempted, killed and retried. */
  lemma {:induction false} UntouchedSecretSurvives(v: Verdict, s: State, ops: seq<Op>, provider: string)
    requires LegalRun(v, s, ops) && SanitizeKey(provider) in s.disk.items
    requires forall op | op in ops :: !Touches(op, provider)
    ensures var key, items := SanitizeKey(provider), Run(v, s, ops).disk.items;
            key in items && items[key].secret == s.disk.items[key].secret
    decreases |ops|
  {
    if ops != [] {
      SecretStays(v, s, ops[0], provider);
      UntouchedSecretSurvives(v, Step(v, s, ops[0]).0, ops[1..], provider);
    }
  }

  lemma SecretStays(v: Verdict, s: State, op: Op, provider: string)
    requires Legal(s, op) && SanitizeKey(provider) in s.disk.items && !Touches(op, provider)
    ensures var key, items := SanitizeKey(provider), Step(v, s, op).0.disk.items;
            key in items && items[key].secret == s.disk.items[key].secret
  {
    SecretsChangeOnlyByTheUser(v, s, op);
    if op.Set? || op.Remove? {
      NamesDoNotCollide(op.provider, provider);
    }
    assert SanitizeKey(provider) in Secrets(s.disk.items);
    assert SanitizeKey(provider) in Secrets(Step(v, s, op).0.disk.items);
  }

  ghost predicate OnlyAttempts(ops: seq<Op>, oldPW: Password, newPW: Password) {
    forall op | op in ops :: Attempts(op, oldPW, newPW)
  }

  lemma {:induction false} RunStaysOnCourse(v: Verdict, s: State, ops: seq<Op>, oldPW: Password, newPW: Password)
    requires LegalRun(v, s, ops) && OnlyAttempts(ops, oldPW, newPW) && OnCourse(s, oldPW, newPW)
    ensures OnCourse(Run(v, s, ops), oldPW, newPW)
    decreases |ops|
  {
    if ops != [] {
      StepStaysOnCourse(v, s, ops[0], oldPW, newPW);
      RunStaysOnCourse(v, Step(v, s, ops[0]).0, ops[1..], oldPW, newPW);
    }
  }

  /** Retrying completes the job. After any run, killed attempts included, an attempt with the same two
      passwords that is not killed leaves every item under the new password and every secret in place. If
      the change was already complete the retry is refused, and the same holds. */
  lemma RetryCompletes(v: Verdict, s: State, ops: seq<Op>, oldPW: Password, newPW: Password, keys: seq<string>,
                       lives: nat)
    requires LegalRun(v, s, ops) && OnlyAttempts(ops, oldPW, newPW) && OnCourse(s, oldPW, newPW)
    requires newPW != ""
    requires Lists(keys, Run(v, s, ops).disk.items) && lives > |keys|
    ensures var before := Run(v, s, ops);
            var (after, reply) := Step(v, before, Change(oldPW, newPW, keys, lives));
            && after.disk.hash == HashOf(newPW) && OnlyUnder(after.disk.items, newPW, newPW)
            && Secrets(after.disk.items) == Secrets(before.disk.items)
            && (reply == Done <==> before.disk.hash == HashOf(oldPW))
  {
    RunStaysOnCourse(v, s, ops, oldPW, newPW);
    var before := Run(v, s, ops);
    CompletesIff(before.disk, oldPW, newPW, keys, lives);
    MovesAtMostAll(before.disk.items, oldPW, keys, 0);
    ChangeKeepsSafe(before.disk, oldPW, newPW, keys, lives);
    EveryCrashKeepsSecrets(before.disk, oldPW, newPW, keys, lives);
  }

  /** Then everything is readable after a login. */
  lemma ReadableAfterLogin(s: State, newPW: Password, provider: string)
    requires s.disk.hash == HashOf(newPW) && newPW != "" && OnlyUnder(s.disk.items, newPW, newPW)
    ensures var s' := Step(OnlyFiles, s, Verify(newPW)).0;
            Step(OnlyFiles, s', Get(provider)).1 ==
            Value(if SanitizeKey(provider) in s.disk.items then Secrets(s.disk.items)[SanitizeKey(provider)] else "")
  {
  }

  /** What the user stored before the first attempt and has left alone since is read back under the new
      password, after any run of killed attempts, a retry and a login. */
  lemma OriginalSecretsReadable(s: State, ops: seq<Op>, oldPW: Password, newPW: Password, keys: seq<string>, lives: nat,
                                provider: string)
    requires LegalRun(OnlyFiles, s, ops) && OnlyAttempts(ops, oldPW, newPW) && OnCourse(s, oldPW, newPW)
    requires newPW != "" && Lists(keys, Run(OnlyFiles, s, ops).disk.items) && lives > |keys|
    requires SanitizeKey(provider) in s.disk.items && forall op | op in ops :: !Touches(op, provider)
    ensures var retried := Step(OnlyFiles, Run(OnlyFiles, s, ops), Change(oldPW, newPW, keys, lives)).0;
            var loggedIn := Step(OnlyFiles, retried, Verify(newPW)).0;
            Step(OnlyFiles, loggedIn, Get(provider)).1 == Value(s.disk.items[SanitizeKey(provider)].secret)
  {
    var key, before := SanitizeKey(provider), Run(OnlyFiles, s, ops);
    var retried := Step(OnlyFiles, before, Change(oldPW, newPW, keys, lives)).0;
    UntouchedSecretSurvives(OnlyFiles, s, ops, provider);
    RetryCompletes(OnlyFiles, s, ops, oldPW, newPW, keys, lives);
    assert key in Secrets(before.disk.items) && key in Secrets(retried.disk.items);
    ReadableAfterLogin(retried, newPW, provider);
  }

  /** Between a killed attempt and its retry, exactly the moved items cannot be read. */
  lemma HalfMovedReads(s: State, oldPW: Password, newPW: Password, provider: string)
    requires s.disk.hash == HashOf(oldPW) && oldPW != "" && OnlyUnder(s.disk.items, oldPW, newPW)
    requires SanitizeKey(provider) in s.disk.items
    ensures var s' := Step(OnlyFiles, s, Verify(oldPW)).0;
            var item := s.disk.items[SanitizeKey(provider)];
            Step(OnlyFiles, s', Get(provider)).1 ==
            if item.under == oldPW then Value(item.secret) else Failed(CannotDecrypt(SanitizeKey(provider)))
  {
  }

  // ----- a retry with another new password -----

  /** A killed attempt, a login, a new provider, and an attempt with another new password. */
  function StrayRun(oldPW: Password, newPW: Password, otherPW: Password, k: string, k': string, secret: string):
    seq<Op>
  {
    [Change(oldPW, newPW, [k], 1), Verify(oldPW), Set(k', secret), Change(oldPW, otherPW, [k', k], 1)]
  }

  ghost predicate PlainKey(key: string) {
    forall c | c in key :: !Unsafe(c)
  }

  lemma ListsOne(k: string, item: Item)
    ensures Lists([k], map[k := item])
  {
    assert KeySet([k], 1) == KeySet([k], 0) + {k};
  }

  lemma ListsTwo(k: string, k': string, item: Item, item': Item)
    requires k != k'
    ensures Lists([k', k], map[k := item, k' := item'])
  {
    assert KeySet([k', k], 2) == KeySet([k', k], 1) + {k};
    assert KeySet([k', k], 1) == KeySet([k', k], 0) + {k'};
  }

  /** No operation of the run stores or removes under key k. */
  ghost predicate LeavesKey(ops: seq<Op>, k: string) {
    forall op | op in ops && (op.Set? || op.Remove?) :: SanitizeKey(op.provider) != k
  }

  ghost predicate NoChangeSucceeds(v: Verdict, s: State, ops: seq<Op>)
    requires LegalRun(v, s, ops)
    decreases |ops|
  {
    ops == []
    || ((ops[0].Change? ==> Step(v, s, ops[0]).1 != Done) && NoChangeSucceeds(v, Step(v, s, ops[0]).0, ops[1..]))
  }

  lemma StepKeepsStrays(v: Verdict, s: State, op: Op, k: string, k': string)
    requires Legal(s, op) && Strays(s.disk, k, k') && LeavesKey([op], k) && LeavesKey([op], k')
    ensures Strays(Step(v, s, op).0.disk, k, k') && (op.Change? ==> Step(v, s, op).1 != Done)
  {
    assert op in [op];
    if op.Change? {
      StraysBlockAChange(s.disk, k, k', op.oldPW, op.newPW, op.keys, op.lives);
    }
  }

  /** From two strays no change of the password succeeds any more, in any run that leaves the two items
      alone: changes with any passwords, logins, restarts, lookups, other providers stored and removed. */
  lemma {:induction false} StraysBlockEveryRun(v: Verdict, s: State, ops: seq<Op>, k: string, k': string)
    requires LegalRun(v, s, ops) && Strays(s.disk, k, k') && LeavesKey(ops, k) && LeavesKey(ops, k')
    ensures NoChangeSucceeds(v, s, ops)
    decreases |ops|
  {
    if ops != [] {
      assert ops[0] in ops;
      StepKeepsStrays(v, s, ops[0], k, k');
      StraysBlockEveryRun(v, Step(v, s, ops[0]).0, ops[1..], k, k');
    }
  }

  /** The retry has to name the same new password. Otherwise two items can end under two passwords that
      are both not the current one, and then no change of the password succeeds any more, whatever follows
      but storing or removing those items. */
  lemma OtherPasswordBlocks(d: Disk, oldPW: Password, newPW: Password, otherPW: Password, k: string, k': string,
                            item: Item, secret: string, later: seq<Op>)
    requires oldPW != "" && newPW != "" && otherPW != "" && oldPW != newPW && oldPW != otherPW && newPW != otherPW
    requires PlainKey(k) && PlainKey(k') && k != k' && item.under == oldPW && d == Disk(HashOf(oldPW), map[k := item])
    ensures var s, ops := State(map[], d, "", None), StrayRun(oldPW, newPW, otherPW, k, k', secret);
            && LegalRun(OnlyFiles, s, ops)
            && Run(OnlyFiles, s, ops).disk ==
               Disk(HashOf(oldPW), map[k := Item(newPW, item.secret), k' := Item(otherPW, secret)])
            && (LegalRun(OnlyFiles, Run(OnlyFiles, s, ops), later) && LeavesKey(later, k) && LeavesKey(later, k') ==>
                  NoChangeSucceeds(OnlyFiles, Run(OnlyFiles, s, ops), later))
  {
    StrayRunStrays(d, oldPW, newPW, otherPW, k, k', item, secret);
    var s := Run(OnlyFiles, State(map[], d, "", None), StrayRun(oldPW, newPW, otherPW, k, k', secret));
    if LegalRun(OnlyFiles, s, later) && LeavesKey(later, k) && LeavesKey(later, k') {
      StraysBlockEveryRun(OnlyFiles, s, later, k, k');
    }
  }

  lemma StrayRunStrays(d: Disk, oldPW: Password, newPW: Password, otherPW: Password, k: string, k': string,
                       item: Item, secret: string)
    requires oldPW != "" && newPW != "" && otherPW != "" && oldPW != newPW && oldPW != otherPW && newPW != otherPW
    requires PlainKey(k') && k != k' && item.under == oldPW && d == Disk(HashOf(oldPW), map[k := item])
    ensures var s, ops := State(map[], d, "", None), StrayRun(oldPW, newPW, otherPW, k, k', secret);
            && LegalRun(OnlyFiles, s, ops)
            && Run(OnlyFiles, s, ops).disk ==
               Disk(HashOf(oldPW), map[k := Item(newPW, item.secret), k' := Item(otherPW, secret)])
  {
    var ops := StrayRun(oldPW, newPW, otherPW, k, k', secret);
    var s, moved := State(map[], d, "", None), Item(newPW, item.secret);
    ListsOne(k, item);
    FirstKilled(d, oldPW, newPW, k, item);
    var s1 := s.(disk := Disk(HashOf(oldPW), map[k := moved]));
    var s2 := s1.(masterPW := oldPW);
    StoredAfterLogin(s2, oldPW, k', secret);
    var s3 := Step(OnlyFiles, s2, ops[2]).0;
    assert s3.disk.items == map[k := moved, k' := Item(oldPW, secret)];
    ListsTwo(k, k', moved, Item(oldPW, secret));
    SecondFails(s3.disk, oldPW, newPW, otherPW, k, k');
    RunFour(OnlyFiles, s, ops);
  }

  lemma StoredAfterLogin(s: State, pw: Password, key: string, secret: string)
    requires s.cached == None && s.masterPW == pw != "" && PlainKey(key)
    ensures Step(OnlyFiles, s, Set(key, secret)).0.disk == s.disk.(items := s.disk.items[key := Item(pw, secret)])
  {
    UnchangedIffPlain(key);
  }

  lemma RunFour(v: Verdict, s: State, ops: seq<Op>)
    requires |ops| == 4 && Legal(s, ops[0])
    requires Legal(Step(v, s, ops[0]).0, ops[1])
    requires var s2 := Step(v, Step(v, s, ops[0]).0, ops[1]).0;
             Legal(s2, ops[2]) && Legal(Step(v, s2, ops[2]).0, ops[3])
    ensures var s2 := Step(v, Step(v, s, ops[0]).0, ops[1]).0;
            LegalRun(v, s, ops) && Run(v, s, ops) == Step(v, Step(v, s2, ops[2]).0, ops[3]).0
  {
    var s1 := Step(v, s, ops[0]).0;
    var s2 := Step(v, s1, ops[1]).0;
    var s3 := Step(v, s2, ops[2]).0;
    assert LegalRun(v, s3, ops[3..]) && Run(v, s3, ops[3..]) == Step(v, s3, ops[3]).0;
    assert ops[2..][1..] == ops[3..] && ops[1..][1..] == ops[2..];
    assert LegalRun(v, s2, ops[2..]) && Run(v, s2, ops[2..]) == Run(v, s3, ops[3..]);
    assert LegalRun(v, s1, ops[1..]) && Run(v, s1, ops[1..]) == Run(v, s2, ops[2..]);
  }

  lemma FirstKilled(d: Disk, oldPW: Password, newPW: Password, k: string, item: Item)
    requires oldPW != newPW && newPW != "" && item.under == oldPW && d == Disk(HashOf(oldPW), map[k := item])
    requires Lists([k], d.items)
    ensures Changed(d, oldPW, newPW, [k], 1) ==
            (Disk(HashOf(oldPW), map[k := Item(newPW, item.secret)]), Failed(WriteFailed))
  {
    assert [k][0] == k;
    assert StopAt(d.items, oldPW, newPW, [k], 0, 1) == StopAt(d.items, oldPW, newPW, [k], 1, 0) == 1;
    assert Moves(d.items, oldPW, [k], 0) == 1 + Moves(d.items, oldPW, [k], 1) == 1;
    assert Moved(d.items, oldPW, newPW, [k], 0) == d.items;
    assert Moved(d.items, oldPW, newPW, [k], 1) == d.items[k := Item(newPW, item.secret)];
    assert d.items[k := Item(newPW, item.secret)] == map[k := Item(newPW, item.secret)];
  }

  lemma SecondFails(d: Disk, oldPW: Password, newPW: Password, otherPW: Password, k: string, k': string)
    requires oldPW != newPW && oldPW != otherPW && newPW != otherPW && otherPW != ""
    requires k in d.items && k' in d.items && d.items[k].under == newPW && d.items[k'].under == oldPW
    requires d.hash == HashOf(oldPW) && k != k' && Lists([k', k], d.items)
    ensures Changed(d, oldPW, otherPW, [k', k], 1) ==
            (Disk(HashOf(oldPW), d.items[k' := Item(otherPW, d.items[k'].secret)]), Failed(CannotDecrypt(k)))
  {
    assert StopAt(d.items, oldPW, otherPW, [k', k], 1, 0) == 1;
    assert Moved(d.items, oldPW, otherPW, [k', k], 1) ==
           Moved(d.items, oldPW, otherPW, [k', k], 0)[k' := Item(otherPW, d.items[k'].secret)];
  }
}
