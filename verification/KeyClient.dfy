/**
 The keychain client of services/keychain/keychain.go: the keyring is opened once and memoized, over the
 operating system's store or over the encrypted files, and the master password that unlocks the files
 is held in memory. The library's keyrings are abstract.
 */
module KeyClient {
  import opened Options
  import opened KeyNames
  import opened PasswordChange

  const PROBE_KEY := "pairadmin_probe"

  /** What opening finds, the same every time: a working store of the operating system, only the files, or
      an error. */
  datatype Verdict = OsWorks | OnlyFiles | NothingOpens

  /** An opened keyring. The file keyring captures the password when it is first unlocked. */
  datatype Ring = OsRing | FileRing(captured: Password) | OpenError

  datatype State = State(osItems: map<string, string>, disk: Disk, masterPW: Password, cached: Option<Ring>)

  datatype Op =
    | Get(provider: string)
    | Set(provider: string, secret: string)
    | Remove(provider: string)
    | SetMaster(pw: Password, lives: nat)
    | Verify(pw: Password)
    | Change(oldPW: Password, newPW: Password, keys: seq<string>, lives: nat)
    | Restart

  // ----- what each operation does -----

  /** Opening a store of the operating system probes it with a canary item, which is removed. */
  function Opened(v: Verdict, s: State): State {
    if s.cached.Some? then s
    else match v
      case OsWorks => s.(osItems := s.osItems - {PROBE_KEY}, cached := Some(OsRing))
      case OnlyFiles => s.(cached := Some(FileRing("")))
      case NothingOpens => s.(cached := Some(OpenError))
  }

  /** The file keyring asks for the password once; no password in memory is an error and not captured. */
  function Unlocked(s: State): State {
    match s.cached
    case Some(FileRing("")) => s.(cached := Some(FileRing(s.masterPW)))
    case _ => s
  }

  function Captured(s: State): Password {
    match s.cached
    case Some(FileRing(pw)) => pw
    case _ => ""
  }

  function GetOpened(s: State, key: string): (State, Reply)
    requires s.cached.Some?
  {
    match s.cached.value
    case OpenError => (s, Failed(OpenFailed))
    case OsRing => (s, Value(if key in s.osItems then s.osItems[key] else ""))
    case FileRing(_) =>
      if key !in s.disk.items then (s, Value(""))
      else
        var u := Unlocked(s);
        (u, if Captured(u) == "" then Failed(NoMasterPassword)
            else if s.disk.items[key].under != Captured(u) then Failed(CannotDecrypt(key))
            else Value(s.disk.items[key].secret))
  }

  function SetOpened(s: State, key: string, secret: string): (State, Reply)
    requires s.cached.Some?
  {
    match s.cached.value
    case OpenError => (s, Failed(OpenFailed))
    case OsRing => (s.(osItems := s.osItems[key := secret]), Done)
    case FileRing(_) =>
      var u := Unlocked(s);
      if Captured(u) == "" then (u, Failed(NoMasterPassword))
      else (u.(disk := u.disk.(items := u.disk.items[key := Item(Captured(u), secret)])), Done)
  }

  function RemoveOpened(s: State, key: string): (State, Reply)
    requires s.cached.Some?
  {
    match s.cached.value
    case OpenError => (s, Failed(OpenFailed))
    case OsRing => if key in s.osItems then (s.(osItems := s.osItems - {key}), Done) else (s, Failed(NotFound))
    case FileRing(_) =>
      if key in s.disk.items then (s.(disk := s.disk.(items := s.disk.items - {key})), Done)
      else (s, Failed(NotFound))
  }

  ghost predicate Legal(s: State, op: Op) {
    op.Change? ==> Lists(op.keys, s.disk.items)
  }

  ghost function Step(v: Verdict, s: State, op: Op): (State, Reply)
    requires Legal(s, op)
  {
    match op
    case Get(provider) => GetOpened(Opened(v, s), SanitizeKey(provider))
    case Set(provider, secret) => SetOpened(Opened(v, s), SanitizeKey(provider), secret)
    case Remove(provider) => RemoveOpened(Opened(v, s), SanitizeKey(provider))
    case SetMaster(pw, lives) =>
      if pw == "" then (s, Failed(EmptyPassword))
      else if !s.disk.hash.NoHash? then (s, Failed(MasterPasswordExists))
      else if lives == 0 then (s, Failed(WriteFailed))
      else (s.(disk := s.disk.(hash := HashOf(pw)), masterPW := pw, cached := None), Done)
    case Verify(pw) =>
      if s.disk.hash.Malformed? then (s, Failed(BadHashFile))
      else if s.disk.hash == HashOf(pw) then (s.(masterPW := pw, cached := None), Verified(true))
      else (s, Verified(false))
    case Change(oldPW, newPW, keys, lives) =>
      var (disk, reply) := Changed(s.disk, oldPW, newPW, keys, lives);
      (if reply == Done then s.(disk := disk, masterPW := newPW, cached := None) else s.(disk := disk), reply)
    case Restart => (s.(masterPW := "", cached := None), Done)
  }

  class Client {
    const verdict: Verdict
    const files: FileStore
    var osItems: map<string, string>
    var masterPW: Password
    var cached: Option<Ring>

    ghost function StateOf(): State
      reads this, files
    {
      State(osItems, files.disk, masterPW, cached)
    }

    constructor (verdict: Verdict, osItems: map<string, string>, files: FileStore)
      ensures this.verdict == verdict && this.files == files
      ensures StateOf() == State(osItems, files.disk, "", None)
    {
      this.verdict, this.osItems, this.files := verdict, osItems, files;
      masterPW, cached := "", None;
    }

    method OpenRing() returns (ring: Ring)
      modifies this
      ensures StateOf() == Opened(verdict, old(StateOf())) && cached == Some(ring)
    {
      if cached.Some? {
        return cached.value;
      }
      match verdict {
        case OsWorks => {
          osItems := osItems[PROBE_KEY := "pairadmin"];
          osItems := osItems - {PROBE_KEY};
          ring := OsRing;
        }
        case OnlyFiles => ring := FileRing("");
        case NothingOpens => ring := OpenError;
      }
      cached := Some(ring);
    }

    method InvalidateRingCache()
      modifies this`cached
      ensures cached == None
    {
      cached := None;
    }

    /** The library's unlock. */
    method Unlock() returns (pw: Password)
      requires cached.Some? && cached.value.FileRing?
      modifies this`cached
      ensures StateOf() == Unlocked(old(StateOf())) && pw == Captured(StateOf())
    {
      if cached.value.captured == "" {
        cached := Some(FileRing(masterPW));
      }
      pw := cached.value.captured;
    }

    method Get(provider: string) returns (reply: Reply)
      modifies this
      ensures (StateOf(), reply) == Step(verdict, old(StateOf()), Op.Get(provider))
    {
      var ring := OpenRing();
      var key := SanitizeKey(provider);
      match ring {
        case OpenError => reply := Failed(OpenFailed);
        case OsRing => reply := Value(if key in osItems then osItems[key] else "");
        case FileRing(_) => {
          if key !in files.disk.items {
            return Value("");
          }
          var pw := Unlock();
          var item := files.disk.items[key];
          reply := if pw == "" then Failed(NoMasterPassword)
                   else if item.under != pw then Failed(CannotDecrypt(key)) else Value(item.secret);
        }
      }
    }

    method Set(provider: string, secret: string) returns (reply: Reply)
      modifies this, files
      ensures (StateOf(), reply) == Step(verdict, old(StateOf()), Op.Set(provider, secret))
    {
      var ring := OpenRing();
      var key := SanitizeKey(provider);
      match ring {
        case OpenError => reply := Failed(OpenFailed);
        case OsRing => {
          osItems := osItems[key := secret];
          reply := Done;
        }
        case FileRing(_) => {
          var pw := Unlock();
          if pw == "" {
            return Failed(NoMasterPassword);
          }
          files.disk := files.disk.(items := files.disk.items[key := Item(pw, secret)]);
          reply := Done;
        }
      }
    }

    method Remove(provider: string) returns (reply: Reply)
      modifies this, files
      ensures (StateOf(), reply) == Step(verdict, old(StateOf()), Op.Remove(provider))
    {
      var ring := OpenRing();
      var key := SanitizeKey(provider);
      match ring {
        case OpenError => reply := Failed(OpenFailed);
        case OsRing => {
          if key !in osItems {
            return Failed(NotFound);
          }
          osItems := osItems - {key};
          reply := Done;
        }
        case FileRing(_) => {
          if key !in files.disk.items {
            return Failed(NotFound);
          }
          files.disk := files.disk.(items := files.disk.items - {key});
          reply := Done;
        }
      }
    }

    method SetMasterPassword(pw: Password, lives: nat) returns (reply: Reply)
      modifies this, files
      ensures (StateOf(), reply) == Step(verdict, old(StateOf()), SetMaster(pw, lives))
    {
      if pw == "" {
        return Failed(EmptyPassword);
      }
      if !files.disk.hash.NoHash? {
        return Failed(MasterPasswordExists);
      }
      if lives == 0 {
        return Failed(WriteFailed);
      }
      files.disk := files.disk.(hash := HashOf(pw));
      masterPW := pw;
      InvalidateRingCache();
      reply := Done;
    }

    method VerifyMasterPassword(pw: Password) returns (reply: Reply)
      modifies this
      ensures (StateOf(), reply) == Step(verdict, old(StateOf()), Verify(pw))
    {
      if files.disk.hash.Malformed? {
        return Failed(BadHashFile);
      }
      var ok := files.disk.hash == HashOf(pw);
      if ok {
        masterPW := pw;
        InvalidateRingCache();
      }
      reply := Verified(ok);
    }

    method ChangeMasterPassword(oldPW: Password, newPW: Password, keys: seq<string>, lives: nat) returns (reply: Reply)
      requires Lists(keys, files.disk.items)
      modifies this, files
      ensures (StateOf(), reply) == Step(verdict, old(StateOf()), Change(oldPW, newPW, keys, lives))
    {
      reply := files.ChangeMasterPassword(oldPW, newPW, keys, lives);
      if reply == Done {
        masterPW := newPW;
        InvalidateRingCache();
      }
    }
  }

  // ----- the memoized keyring against one opened afresh -----

  /** The same step, with the keyring opened again for it. */
  ghost function FreshStep(v: Verdict, s: State, op: Op): (State, Reply)
    requires Legal(s, op)
  {
    Step(v, s.(cached := None), op)
  }

  /** A cached keyring is of the kind that opening would give, and a password it has captured is the one in
      memory. */
  ghost predicate Fitting(v: Verdict, s: State) {
    s.cached.Some? ==>
      match v
      case OsWorks => s.cached.value == OsRing
      case OnlyFiles =>
        s.cached.value.FileRing? && (s.cached.value.captured == "" || s.cached.value.captured == s.masterPW)
      case NothingOpens => s.cached.value == OpenError
  }

  /** And opening would change nothing: no value is stored under the canary's key. */
  ghost predicate Coherent(v: Verdict, s: State) {
    Fitting(v, s) && (s.cached == Some(OsRing) ==> PROBE_KEY !in s.osItems)
  }

  lemma OpeningAgrees(v: Verdict, s: State)
    requires Coherent(v, s)
    ensures Opened(v, s.(cached := None)).osItems == Opened(v, s).osItems
  {
    if s.cached.Some? && v.OsWorks? {
      assert s.osItems - {PROBE_KEY} == s.osItems;
    }
  }

  /** From a coherent state the memoized keyring gives the reply and the state that opening afresh gives. */
  lemma CacheIsTransparent(v: Verdict, s: State, op: Op)
    requires Legal(s, op) && Coherent(v, s)
    ensures Step(v, s, op).1 == FreshStep(v, s, op).1
    ensures Step(v, s, op).0.(cached := None) == FreshStep(v, s, op).0.(cached := None)
  {
    OpeningAgrees(v, s);
  }

  lemma PlainKeyIsItsOwnName(provider: string, key: string)
    requires forall c | c in key :: !Unsafe(c)
    ensures SanitizeKey(provider) == key <==> provider == key
  {
    UnchangedIffPlain(key);
    NamesDoNotCollide(provider, key);
  }

  lemma ProbeNameIsPlain(provider: string)
    ensures SanitizeKey(provider) == PROBE_KEY <==> provider == PROBE_KEY
  {
    PlainKeyIsItsOwnName(provider, PROBE_KEY);
  }

  lemma StoringKeepsCoherentIff(v: Verdict, s: State, provider: string, secret: string)
    requires Coherent(v, s)
    ensures Coherent(v, Step(v, s, Set(provider, secret)).0) <==> !(v.OsWorks? && provider == PROBE_KEY)
  {
    ProbeNameIsPlain(provider);
    var key, ready := SanitizeKey(provider), Opened(v, s);
    if v.OsWorks? {
      assert PROBE_KEY !in ready.osItems;
      assert PROBE_KEY in ready.osItems[key := secret] <==> key == PROBE_KEY;
    }
  }

  lemma OthersKeepCoherent(v: Verdict, s: State, op: Op)
    requires Legal(s, op) && Coherent(v, s) && !op.Set?
    ensures Coherent(v, Step(v, s, op).0)
  {
  }

  /** Coherence is kept by every operation but one: storing under the canary's own name in a store of the
      operating system. */
  lemma StaysCoherentIff(v: Verdict, s: State, op: Op)
    requires Legal(s, op) && Coherent(v, s)
    ensures Coherent(v, Step(v, s, op).0) <==> !(v.OsWorks? && op.Set? && op.provider == PROBE_KEY)
  {
    match op {
      case Set(provider, secret) => StoringKeepsCoherentIff(v, s, provider, secret);
      case _ => OthersKeepCoherent(v, s, op);
    }
  }

  lemma StoredUnderCanary(s: State, provider: string, secret: string)
    requires Fitting(OsWorks, s) && provider == PROBE_KEY
    ensures var s' := Step(OsWorks, s, Set(provider, secret)).0;
            s'.cached == Some(OsRing) && PROBE_KEY in s'.osItems && s'.osItems[PROBE_KEY] == secret
  {
    ProbeNameIsPlain(provider);
  }

  /** With a value under the canary's key, a removal tells the two apart, and so does a lookup if the value
      is not empty. */
  lemma CanaryNameTellsApart(s: State, provider: string)
    requires s.cached == Some(OsRing) && PROBE_KEY in s.osItems && provider == PROBE_KEY
    ensures Step(OsWorks, s, Remove(provider)).1 == Done
    ensures FreshStep(OsWorks, s, Remove(provider)).1 == Failed(NotFound)
    ensures Step(OsWorks, s, Get(provider)).1 == Value(s.osItems[PROBE_KEY])
    ensures FreshStep(OsWorks, s, Get(provider)).1 == Value("")
  {
    ProbeNameIsPlain(provider);
    TellsApartUnder(s, provider, PROBE_KEY);
  }

  lemma TellsApartUnder(s: State, provider: string, key: string)
    requires s.cached == Some(OsRing) && key in s.osItems && SanitizeKey(provider) == key == PROBE_KEY
    ensures Step(OsWorks, s, Remove(provider)).1 == Done
    ensures FreshStep(OsWorks, s, Remove(provider)).1 == Failed(NotFound)
    ensures Step(OsWorks, s, Get(provider)).1 == Value(s.osItems[key])
    ensures FreshStep(OsWorks, s, Get(provider)).1 == Value("")
  {
    KeyTellsApart(s, key);
  }

  lemma KeyTellsApart(s: State, key: string)
    requires s.cached == Some(OsRing) && key in s.osItems
    ensures RemoveOpened(s, key).1 == Done && GetOpened(s, key).1 == Value(s.osItems[key])
    ensures var s' := s.(osItems := s.osItems - {key});
            RemoveOpened(s', key).1 == Failed(NotFound) && GetOpened(s', key).1 == Value("")
  {
  }

  // ----- exactly when the two can be told apart -----

  /** A value is stored under the canary's key, and the operation removes it or finds it not empty. */
  predicate NoticesProbe(s: State, op: Op) {
    && s.cached == Some(OsRing) && PROBE_KEY in s.osItems
    && ((op.Get? && op.provider == PROBE_KEY && s.osItems[PROBE_KEY] != "") || (op.Remove? && op.provider == PROBE_KEY))
  }

  /** A lookup or a removal under one key, before and after another key is removed. */
  lemma WithoutKey(s: State, key: string, gone: string)
    requires s.cached == Some(OsRing)
    ensures var s' := s.(osItems := s.osItems - {gone});
            && (GetOpened(s, key).1 == GetOpened(s', key).1 <==>
                !(key == gone && gone in s.osItems && s.osItems[gone] != ""))
            && (RemoveOpened(s, key).1 == RemoveOpened(s', key).1 <==> !(key == gone && gone in s.osItems))
  {
    assert key in s.osItems - {gone} <==> key in s.osItems && key != gone;
  }

  lemma GetNoticedIff(v: Verdict, s: State, provider: string)
    requires Fitting(v, s)
    ensures Step(v, s, Get(provider)).1 == FreshStep(v, s, Get(provider)).1 <==> !NoticesProbe(s, Get(provider))
  {
    if s.cached == Some(OsRing) {
      ProbeNameIsPlain(provider);
      WithoutKey(s, SanitizeKey(provider), PROBE_KEY);
    }
  }

  lemma RemoveNoticedIff(v: Verdict, s: State, provider: string)
    requires Fitting(v, s)
    ensures Step(v, s, Remove(provider)).1 == FreshStep(v, s, Remove(provider)).1 <==>
            !NoticesProbe(s, Remove(provider))
  {
    if s.cached == Some(OsRing) {
      ProbeNameIsPlain(provider);
      WithoutKey(s, SanitizeKey(provider), PROBE_KEY);
    }
  }

  /** One operation replies as it does with the keyring opened again, if and only if it does not notice. */
  lemma NoticedIff(v: Verdict, s: State, op: Op)
    requires Legal(s, op) && Fitting(v, s)
    ensures Step(v, s, op).1 == FreshStep(v, s, op).1 <==> !NoticesProbe(s, op)
  {
    match op {
      case Get(provider) => GetNoticedIff(v, s, provider);
      case Remove(provider) => RemoveNoticedIff(v, s, provider);
      case _ =>
    }
  }

  /** All operations do so from a state with an opened keyring of the operating system, if and only if
      nothing is stored under the canary's key. */
  lemma AllRepliesAgreeIff(s: State)
    requires s.cached == Some(OsRing)
    ensures (forall op | Legal(s, op) :: Step(OsWorks, s, op).1 == FreshStep(OsWorks, s, op).1) <==>
            PROBE_KEY !in s.osItems
  {
    if PROBE_KEY in s.osItems {
      NoticedIff(OsWorks, s, Remove(PROBE_KEY));
      assert Legal(s, Remove(PROBE_KEY));
    } else {
      forall op | Legal(s, op)
        ensures Step(OsWorks, s, op).1 == FreshStep(OsWorks, s, op).1
      {
        NoticedIff(OsWorks, s, op);
      }
    }
  }

  /** What remains of a state when the cache and the canary's key are disregarded. */
  function Essence(s: State): State {
    s.(osItems := s.osItems - {PROBE_KEY}, cached := None)
  }

  lemma EssenceOfItems(items: map<string, string>, key: string, secret: string)
    ensures items[key := secret] - {PROBE_KEY} == (items - {PROBE_KEY})[key := secret] - {PROBE_KEY}
    ensures items - {key} - {PROBE_KEY} == items - {PROBE_KEY} - {key} - {PROBE_KEY}
    ensures items - {PROBE_KEY} == items - {PROBE_KEY} - {PROBE_KEY}
    ensures key !in items ==> items - {PROBE_KEY} - {key} == items - {PROBE_KEY}
  {
  }

  /** Cached or fresh, a step leaves the same essence. */
  lemma SameEssence(v: Verdict, s: State, op: Op)
    requires Legal(s, op) && Fitting(v, s)
    ensures Essence(Step(v, s, op).0) == Essence(FreshStep(v, s, op).0)
  {
    match op {
      case Get(provider) => EssenceOfItems(s.osItems, SanitizeKey(provider), "");
      case Set(provider, secret) => EssenceOfItems(s.osItems, SanitizeKey(provider), secret);
      case Remove(provider) => RemoveKeepsEssence(v, s, provider);
      case _ =>
    }
  }

  lemma RemoveKeepsEssence(v: Verdict, s: State, provider: string)
    requires Fitting(v, s)
    ensures Essence(Step(v, s, Remove(provider)).0) == Essence(FreshStep(v, s, Remove(provider)).0)
  {
    var key := SanitizeKey(provider);
    EssenceOfItems(s.osItems, key, "");
    assert key in s.osItems - {PROBE_KEY} <==> key in s.osItems && key != PROBE_KEY;
  }

  /** A fresh step depends on the essence only. */
  lemma FreshStepOfEssence(v: Verdict, s: State, f: State, op: Op)
    requires Legal(s, op) && Essence(s) == Essence(f)
    ensures Legal(f, op) && FreshStep(v, s, op).1 == FreshStep(v, f, op).1
    ensures Essence(FreshStep(v, s, op).0) == Essence(FreshStep(v, f, op).0)
  {
    assert s.osItems - {PROBE_KEY} == f.osItems - {PROBE_KEY};
    assert s.disk == f.disk && s.masterPW == f.masterPW;
  }

  lemma StepKeepsFitting(v: Verdict, s: State, op: Op)
    requires Legal(s, op) && Fitting(v, s)
    ensures Fitting(v, Step(v, s, op).0)
  {
  }

  // ----- runs -----

  ghost predicate LegalRun(v: Verdict, s: State, ops: seq<Op>)
    decreases |ops|
  {
    ops == [] || (Legal(s, ops[0]) && LegalRun(v, Step(v, s, ops[0]).0, ops[1..]))
  }

  ghost function Run(v: Verdict, s: State, ops: seq<Op>): State
    requires LegalRun(v, s, ops)
    decreases |ops|
  {
    if ops == [] then s else Run(v, Step(v, s, ops[0]).0, ops[1..])
  }

  ghost function Replies(v: Verdict, s: State, ops: seq<Op>): seq<Reply>
    requires LegalRun(v, s, ops)
    decreases |ops|
  {
    if ops == [] then [] else [Step(v, s, ops[0]).1] + Replies(v, Step(v, s, ops[0]).0, ops[1..])
  }

  /** The replies of a client that never caches: every step starts by forgetting the keyring. */
  ghost predicate FreshReplies(v: Verdict, s: State, ops: seq<Op>, replies: seq<Reply>)
    decreases |ops|
  {
    if ops == [] then replies == []
    else
      && replies != [] && Legal(s, ops[0]) && FreshStep(v, s, ops[0]).1 == replies[0]
      && FreshReplies(v, FreshStep(v, s, ops[0]).0.(cached := None), ops[1..], replies[1..])
  }

  predicate AvoidsCanary(v: Verdict, ops: seq<Op>) {
    v.OsWorks? ==> forall op | op in ops :: op.Set? ==> op.provider != PROBE_KEY
  }

  /** Over a whole run, memoizing the keyring cannot be noticed. */
  lemma {:induction false} CacheCannotBeNoticed(v: Verdict, s: State, ops: seq<Op>)
    requires LegalRun(v, s, ops) && Coherent(v, s) && AvoidsCanary(v, ops)
    ensures FreshReplies(v, s.(cached := None), ops, Replies(v, s, ops))
    ensures Coherent(v, Run(v, s, ops))
    decreases |ops|
  {
    if ops != [] {
      CacheIsTransparent(v, s, ops[0]);
      StaysCoherentIff(v, s, ops[0]);
      CacheCannotBeNoticed(v, Step(v, s, ops[0]).0, ops[1..]);
    }
  }

  ghost predicate NeverNotices(v: Verdict, s: State, ops: seq<Op>)
    requires LegalRun(v, s, ops)
    decreases |ops|
  {
    ops == [] || (!NoticesProbe(s, ops[0]) && NeverNotices(v, Step(v, s, ops[0]).0, ops[1..]))
  }

  /** Over a whole run the replies are those of a client that never caches, if and only if no operation
      removes, or finds not empty, a value stored under the canary's key. */
  lemma {:induction false} RunNoticedIff(v: Verdict, s: State, f: State, ops: seq<Op>)
    requires LegalRun(v, s, ops) && Fitting(v, s) && Essence(f) == Essence(s) && f.cached == None
    ensures FreshReplies(v, f, ops, Replies(v, s, ops)) <==> NeverNotices(v, s, ops)
    decreases |ops|
  {
    if ops != [] {
      NoticedIff(v, s, ops[0]);
      FreshStepOfEssence(v, s, f, ops[0]);
      SameEssence(v, s, ops[0]);
      StepKeepsFitting(v, s, ops[0]);
      var s', f' := Step(v, s, ops[0]).0, FreshStep(v, f, ops[0]).0.(cached := None);
      assert Essence(f') == Essence(FreshStep(v, f, ops[0]).0);
      RunNoticedIff(v, s', f', ops[1..]);
    }
  }

  /** A run that is noticed: from a client that has opened nothing yet, a value stored under the canary's
      key and removed again. */
  lemma CanaryRunIsNoticed(s: State, provider: string, secret: string)
    requires s.cached == None && provider == PROBE_KEY
    ensures var ops := [Set(provider, secret), Remove(provider)];
            && LegalRun(OsWorks, s, ops)
            && !FreshReplies(OsWorks, s, ops, Replies(OsWorks, s, ops))
  {
    var ops := [Set(provider, secret), Remove(provider)];
    var s' := Step(OsWorks, s, ops[0]).0;
    StoredUnderCanary(s, provider, secret);
    RunOfTwo(OsWorks, s, ops);
    assert NoticesProbe(s', ops[1]);
    RunNoticedIff(OsWorks, s, s, ops);
  }

  lemma RunOfTwo(v: Verdict, s: State, ops: seq<Op>)
    requires |ops| == 2 && Legal(s, ops[0]) && Legal(Step(v, s, ops[0]).0, ops[1])
    ensures LegalRun(v, s, ops)
    ensures NoticesProbe(Step(v, s, ops[0]).0, ops[1]) ==> !NeverNotices(v, s, ops)
  {
    assert ops[1..][0] == ops[1] && ops[1..][1..] == [];
  }

  // ----- what was stored is what is read -----

  /** Under one keyring: a stored secret is read back, and no other provider is affected. */
  lemma StoreThenRead(v: Verdict, s: State, provider: string, secret: string, other: string)
    requires Coherent(v, s) && Step(v, s, Set(provider, secret)).1 == Done
    requires v.OsWorks? ==> provider != PROBE_KEY
    ensures var s' := Step(v, s, Set(provider, secret)).0;
            && Step(v, s', Get(provider)).1 == Value(secret)
            && (other != provider ==> Step(v, s', Get(other)).1 == Step(v, Opened(v, s), Get(other)).1)
  {
    NamesDoNotCollide(provider, other);
  }

  // ----- the login -----

  /** A login is answered by the hash file alone: true exactly for the password that it verifies, an error
      exactly if it is malformed, and otherwise false, with nothing changed. */
  lemma LoginIff(v: Verdict, s: State, pw: Password)
    ensures var (s', reply) := Step(v, s, Verify(pw));
            && (reply == Verified(true) <==> s.disk.hash == HashOf(pw))
            && (reply == Failed(BadHashFile) <==> s.disk.hash == Malformed)
            && (s.disk.hash != HashOf(pw) && s.disk.hash != Malformed ==> reply == Verified(false))
            && (reply != Verified(true) ==> s' == s)
            && (reply == Verified(true) ==> s'.masterPW == pw && s'.disk == s.disk && s'.osItems == s.osItems)
  {
  }

  /** After it, over files, every item stored under that password reads back. */
  lemma LoginUnlocks(s: State, pw: Password, provider: string)
    requires pw != "" && Step(OnlyFiles, s, Verify(pw)).1 == Verified(true)
    requires SanitizeKey(provider) in s.disk.items && s.disk.items[SanitizeKey(provider)].under == pw
    ensures Step(OnlyFiles, Step(OnlyFiles, s, Verify(pw)).0, Get(provider)).1 ==
            Value(s.disk.items[SanitizeKey(provider)].secret)
  {
  }

  /** The password that an operation sets, if it succeeds. */
  function SetBy(op: Op): Option<Password> {
    match op
    case SetMaster(pw, _) => Some(pw)
    case Change(_, newPW, _, _) => Some(newPW)
    case _ => None
  }

  /** The password last set over a run, or `last` if none was. */
  ghost function LastSet(v: Verdict, s: State, ops: seq<Op>, last: Option<Password>): Option<Password>
    requires LegalRun(v, s, ops)
    decreases |ops|
  {
    if ops == [] then last
    else
      var (s', reply) := Step(v, s, ops[0]);
      LastSet(v, s', ops[1..], if SetBy(ops[0]).Some? && reply == Done then SetBy(ops[0]) else last)
  }

  function HashFor(pw: Option<Password>): HashFile {
    match pw case None => NoHash case Some(p) => HashOf(p)
  }

  lemma StepSetsHash(v: Verdict, s: State, op: Op)
    requires Legal(s, op)
    ensures var (s', reply) := Step(v, s, op);
            s'.disk.hash == if SetBy(op).Some? && reply == Done then HashFor(SetBy(op)) else s.disk.hash
  {
    if op.Change? {
      EveryCrashKeepsSecrets(s.disk, op.oldPW, op.newPW, op.keys, op.lives);
    }
  }

  lemma {:induction false} HashIsOfLastSet(v: Verdict, s: State, ops: seq<Op>, last: Option<Password>)
    requires LegalRun(v, s, ops) && s.disk.hash == HashFor(last)
    ensures Run(v, s, ops).disk.hash == HashFor(LastSet(v, s, ops, last))
    decreases |ops|
  {
    if ops != [] {
      var (s', reply) := Step(v, s, ops[0]);
      StepSetsHash(v, s, ops[0]);
      HashIsOfLastSet(v, s', ops[1..], if SetBy(ops[0]).Some? && reply == Done then SetBy(ops[0]) else last);
    }
  }

  /** Over any run from a store without a hash file, a login is answered with true exactly for the password
      that was set or changed to last, and with false for every other. */
  lemma LoginIsForLastSet(v: Verdict, s: State, ops: seq<Op>, pw: Password)
    requires LegalRun(v, s, ops) && s.disk.hash == NoHash
    ensures Step(v, Run(v, s, ops), Verify(pw)).1 == Verified(LastSet(v, s, ops, None) == Some(pw))
  {
    HashIsOfLastSet(v, s, ops, None);
  }

  function HeldAfter(op: Op, reply: Reply, held: Password): Password {
    match op
    case Restart => ""
    case Verify(pw) => if reply == Verified(true) then pw else held
    case _ => if SetBy(op).Some? && reply == Done then SetBy(op).value else held
  }

  /** What is held in memory after a run: the password of the last login, setting or change that succeeded
      since the last start, or none. */
  ghost function LastHeld(v: Verdict, s: State, ops: seq<Op>, held: Password): Password
    requires LegalRun(v, s, ops)
    decreases |ops|
  {
    if ops == [] then held
    else
      var (s', reply) := Step(v, s, ops[0]);
      LastHeld(v, s', ops[1..], HeldAfter(ops[0], reply, held))
  }

  lemma StepHolds(v: Verdict, s: State, op: Op)
    requires Legal(s, op)
    ensures Step(v, s, op).0.masterPW == HeldAfter(op, Step(v, s, op).1, s.masterPW)
  {
  }

  lemma {:induction false} MemoryIsLastHeld(v: Verdict, s: State, ops: seq<Op>)
    requires LegalRun(v, s, ops)
    ensures Run(v, s, ops).masterPW == LastHeld(v, s, ops, s.masterPW)
    decreases |ops|
  {
    if ops != [] {
      StepHolds(v, s, ops[0]);
      MemoryIsLastHeld(v, Step(v, s, ops[0]).0, ops[1..]);
    }
  }

  // ----- over files, the password in memory decides -----

  /** What a lookup, a store and a removal do over files depends on the items and the password in memory, and
      not on what is cached. Without a password nothing that is stored can be read and nothing stored; a
      removal needs none. */
  lemma FilesNeedThePassword(s: State, provider: string, secret: string)
    requires Fitting(OnlyFiles, s)
    ensures var (key, items, pw) := (SanitizeKey(provider), s.disk.items, s.masterPW);
            && Step(OnlyFiles, s, Get(provider)).1 ==
               (if key !in items then Value("")
                else if pw == "" then Failed(NoMasterPassword)
                else if items[key].under == pw then Value(items[key].secret)
                else Failed(CannotDecrypt(key)))
            && Step(OnlyFiles, s, Get(provider)).0.disk == s.disk
            && (var (s', reply) := Step(OnlyFiles, s, Set(provider, secret));
                if pw == "" then reply == Failed(NoMasterPassword) && s'.disk == s.disk
                else reply == Done && s'.disk == Disk(s.disk.hash, items[key := Item(pw, secret)]))
            && (var (s', reply) := Step(OnlyFiles, s, Remove(provider));
                && reply == (if key in items then Done else Failed(NotFound))
                && s'.disk == Disk(s.disk.hash, items - {key}))
  {
    assert SanitizeKey(provider) !in s.disk.items ==> s.disk.items - {SanitizeKey(provider)} == s.disk.items;
  }

  /** If nothing opens, every one of them fails and nothing changes. */
  lemma NothingOpensFailsAll(s: State, op: Op)
    requires Fitting(NothingOpens, s) && (op.Get? || op.Set? || op.Remove?)
    ensures var (s', reply) := Step(NothingOpens, s, op);
            reply == Failed(OpenFailed) && s'.disk == s.disk && s'.osItems == s.osItems && s'.masterPW == s.masterPW
  {
  }

  /** The first password is set only where there is none yet, and not the empty one. */
  lemma SetMasterIff(v: Verdict, s: State, pw: Password, lives: nat)
    ensures var (s', reply) := Step(v, s, SetMaster(pw, lives));
            && (reply == Done <==> pw != "" && s.disk.hash == NoHash && lives > 0)
            && (reply == Failed(EmptyPassword) <==> pw == "")
            && (reply == Failed(MasterPasswordExists) <==> pw != "" && s.disk.hash != NoHash)
            && (reply == Failed(WriteFailed) <==> pw != "" && s.disk.hash == NoHash && lives == 0)
            && s'.disk == (if reply == Done then Disk(HashOf(pw), s.disk.items) else s.disk)
            && (reply != Done ==> s' == s)
  {
  }
}
