/**
 The change of the master password in services/keychain/keychain.go: the items of the file store are
 re-encrypted one by one, then the hash file is replaced. What is on disk is modelled; an item decrypts
 under its own password only, and the write of one file is atomic.
 */
module PasswordChange {
  import opened Options

  type Password = string

  datatype Item = Item(under: Password, secret: string)

  type Items = map<string, Item>

  /** The hash file: absent, verifying one password, or not readable as a hash line. */
  datatype HashFile = NoHash | HashOf(pw: Password) | Malformed

  /** What survives a crash: the hash file and the item files. */
  datatype Disk = Disk(hash: HashFile, items: Items)

  datatype Error =
    | NoMasterPassword
    | WrongMasterPassword
    | BadHashFile
    | MasterPasswordExists
    | EmptyPassword
    | OpenFailed
    | NotFound
    | CannotDecrypt(key: string)
    | WriteFailed

  datatype Reply = Done | Value(text: string) | Verified(ok: bool) | Failed(error: Error)

  function KeySet(keys: seq<string>, n: nat): set<string>
    requires n <= |keys|
  {
    if n == 0 then {} else KeySet(keys, n - 1) + {keys[n - 1]}
  }

  predicate NoRepeats(keys: seq<string>, n: nat)
    requires n <= |keys|
  {
    n == 0 || (NoRepeats(keys, n - 1) && keys[n - 1] !in KeySet(keys, n - 1))
  }

  /** A directory listing: every key once, in any order. */
  ghost predicate Lists(keys: seq<string>, items: Items) {
    KeySet(keys, |keys|) == items.Keys && NoRepeats(keys, |keys|) && InItems(keys, items)
  }

  lemma {:induction false} KeyAt(keys: seq<string>, n: nat, i: nat)
    requires i < n <= |keys|
    ensures keys[i] in KeySet(keys, n)
  {
    if i < n - 1 {
      KeyAt(keys, n - 1, i);
    }
  }

  lemma {:induction false} PlaceOf(keys: seq<string>, n: nat, k: string) returns (i: nat)
    requires n <= |keys| && k in KeySet(keys, n)
    ensures i < n && keys[i] == k
  {
    if keys[n - 1] == k {
      i := n - 1;
    } else {
      i := PlaceOf(keys, n - 1, k);
    }
  }

  lemma {:induction false} NoRepeatsAt(keys: seq<string>, n: nat, i: nat, j: nat)
    requires i < j < n <= |keys| && NoRepeats(keys, n)
    ensures keys[i] != keys[j]
  {
    if j == n - 1 {
      KeyAt(keys, n - 1, i);
    } else {
      NoRepeatsAt(keys, n - 1, i, j);
    }
  }

  ghost predicate InItems(keys: seq<string>, items: Items) {
    forall i | 0 <= i < |keys| :: keys[i] in items
  }

  /** How many items from key i on have to be rewritten. */
  ghost function Moves(items: Items, oldPW: Password, keys: seq<string>, i: nat): nat
    requires i <= |keys| && InItems(keys, items)
    decreases |keys| - i
  {
    if i == |keys| then 0
    else (if items[keys[i]].under == oldPW then 1 else 0) + Moves(items, oldPW, keys, i + 1)
  }

  /** The place in the listing where the pass stops: its end, an item under neither password, or a
      rewrite that the process does not live to make. */
  ghost function StopAt(items: Items, oldPW: Password, newPW: Password, keys: seq<string>, i: nat, lives: nat): (n: nat)
    requires i <= |keys| && InItems(keys, items)
    ensures i <= n <= |keys|
    decreases |keys| - i
  {
    if i == |keys| then i
    else if items[keys[i]].under == oldPW then
      if lives == 0 then i else StopAt(items, oldPW, newPW, keys, i + 1, lives - 1)
    else if items[keys[i]].under == newPW then StopAt(items, oldPW, newPW, keys, i + 1, lives)
    else i
  }

  /** The item once it is moved, if it is under the old password. */
  function Rewritten(item: Item, oldPW: Password, newPW: Password): Item {
    if item.under == oldPW then Item(newPW, item.secret) else item
  }

  /** The items once the first n keys are done. */
  ghost function Moved(items: Items, oldPW: Password, newPW: Password, keys: seq<string>, n: nat): (moved: Items)
    requires n <= |keys| && InItems(keys, items)
    ensures moved.Keys == items.Keys
  {
    if n == 0 then items
    else Moved(items, oldPW, newPW, keys, n - 1)[keys[n - 1] := Rewritten(items[keys[n - 1]], oldPW, newPW)]
  }

  lemma {:induction false} MovedAt(items: Items, oldPW: Password, newPW: Password, keys: seq<string>, n: nat, i: nat)
    requires InItems(keys, items) && NoRepeats(keys, |keys|) && n <= |keys| && i < |keys|
    ensures Moved(items, oldPW, newPW, keys, n)[keys[i]] ==
            if i < n then Rewritten(items[keys[i]], oldPW, newPW) else items[keys[i]]
  {
    if n > 0 && i != n - 1 {
      NoRepeatsAt(keys, |keys|, if i < n - 1 then i else n - 1, if i < n - 1 then n - 1 else i);
      MovedAt(items, oldPW, newPW, keys, n - 1, i);
    }
  }

  /** The whole change by a process that lives to make `lives` more writes. */
  ghost function Changed(d: Disk, oldPW: Password, newPW: Password, keys: seq<string>, lives: nat): (Disk, Reply)
    requires Lists(keys, d.items)
  {
    if newPW == "" then (d, Failed(EmptyPassword))
    else if d.hash.Malformed? then (d, Failed(BadHashFile))
    else if d.hash != HashOf(oldPW) then (d, Failed(WrongMasterPassword))
    else
      var n := StopAt(d.items, oldPW, newPW, keys, 0, lives);
      var items := Moved(d.items, oldPW, newPW, keys, n);
      if n < |keys| && d.items[keys[n]].under != oldPW then (Disk(d.hash, items), Failed(CannotDecrypt(keys[n])))
      else if n < |keys| || lives == Moves(d.items, oldPW, keys, 0) then (Disk(d.hash, items), Failed(WriteFailed))
      else (Disk(HashOf(newPW), items), Done)
  }

  class FileStore {
    var disk: Disk

    constructor (disk: Disk)
      ensures this.disk == disk
    {
      this.disk := disk;
    }

    /** reencryptFileItems: `left` is what remains of `lives`. */
    method ReencryptFileItems(oldPW: Password, newPW: Password, keys: seq<string>, lives: nat)
      returns (failure: Option<Error>, left: nat)
      requires Lists(keys, disk.items)
      modifies this
      ensures var n := StopAt(old(disk.items), oldPW, newPW, keys, 0, lives);
              && disk == old(disk).(items := Moved(old(disk.items), oldPW, newPW, keys, n))
              && (failure.None? <==> n == |keys|)
              && (failure.None? ==> lives == left + Moves(old(disk.items), oldPW, keys, 0))
              && (failure.Some? ==> failure == Some(
                    if old(disk.items)[keys[n]].under == oldPW then WriteFailed else CannotDecrypt(keys[n])))
    {
      ghost var items := disk.items;
      left := lives;
      for i := 0 to |keys|
        invariant disk == old(disk).(items := Moved(items, oldPW, newPW, keys, i))
        invariant StopAt(items, oldPW, newPW, keys, i, left) == StopAt(items, oldPW, newPW, keys, 0, lives)
        invariant left + Moves(items, oldPW, keys, 0) == lives + Moves(items, oldPW, keys, i)
      {
        var key := keys[i];
        MovedAt(items, oldPW, newPW, keys, i, i);
        var item := disk.items[key];
        if item.under != oldPW {
          if item.under == newPW {
            assert disk.items[key := item] == disk.items;
            continue;
          }
          return Some(CannotDecrypt(key)), left;
        }
        if left == 0 {
          return Some(WriteFailed), 0;
        }
        disk := disk.(items := disk.items[key := Item(newPW, item.secret)]);
        left := left - 1;
      }
      failure := None;
    }

    /** ChangeMasterPassword, as far as the disk goes. */
    method ChangeMasterPassword(oldPW: Password, newPW: Password, keys: seq<string>, lives: nat) returns (reply: Reply)
      requires Lists(keys, disk.items)
      modifies this
      ensures (disk, reply) == Changed(old(disk), oldPW, newPW, keys, lives)
    {
      if newPW == "" {
        return Failed(EmptyPassword);
      }
      if disk.hash.Malformed? {
        return Failed(BadHashFile);
      }
      if disk.hash != HashOf(oldPW) {
        return Failed(WrongMasterPassword);
      }
      var failure, left := ReencryptFileItems(oldPW, newPW, keys, lives);
      if failure.Some? {
        return Failed(failure.value);
      }
      if left == 0 {
        return Failed(WriteFailed);
      }
      disk := disk.(hash := HashOf(newPW));
      reply := Done;
    }
  }

  // ----- what every crash leaves -----

  ghost predicate OnlyUnder(items: Items, pw: Password, pw': Password) {
    forall k | k in items :: items[k].under == pw || items[k].under == pw'
  }

  /** Before the change or during it, or after it. */
  ghost predicate Safe(d: Disk, oldPW: Password, newPW: Password) {
    || (d.hash == HashOf(oldPW) && OnlyUnder(d.items, oldPW, newPW))
    || (d.hash == HashOf(newPW) && OnlyUnder(d.items, newPW, newPW))
  }

  function Secrets(items: Items): map<string, string> {
    map k | k in items :: items[k].secret
  }

  /** Wherever the process dies or a write fails: no key and no plaintext is lost, an item keeps its
      password or moves from the old to the new, and the hash changes only together with success. */
  lemma EveryCrashKeepsSecrets(d: Disk, oldPW: Password, newPW: Password, keys: seq<string>, lives: nat)
    requires Lists(keys, d.items)
    ensures var (d', reply) := Changed(d, oldPW, newPW, keys, lives);
            && Secrets(d'.items) == Secrets(d.items) && d'.items.Keys == d.items.Keys
            && (forall k | k in d.items :: d'.items[k] == d.items[k]
                                           || (d.items[k].under == oldPW && d'.items[k].under == newPW))
            && d'.hash == if reply == Done then HashOf(newPW) else d.hash
  {
    forall k | k in d.items
      ensures var d' := Changed(d, oldPW, newPW, keys, lives).0;
              d'.items[k] == d.items[k] || d'.items[k] == Rewritten(d.items[k], oldPW, newPW)
    {
      var i := PlaceOf(keys, |keys|, k);
      if newPW != "" && d.hash == HashOf(oldPW) {
        MovedAt(d.items, oldPW, newPW, keys, StopAt(d.items, oldPW, newPW, keys, 0, lives), i);
      }
    }
  }

  lemma {:induction false} StopsAtEndIff(items: Items, oldPW: Password, newPW: Password, keys: seq<string>, i: nat,
                                         lives: nat)
    requires i <= |keys| && InItems(keys, items)
    ensures StopAt(items, oldPW, newPW, keys, i, lives) == |keys| <==>
            Moves(items, oldPW, keys, i) <= lives
            && forall j | i <= j < |keys| :: items[keys[j]].under == oldPW || items[keys[j]].under == newPW
    decreases |keys| - i
  {
    if i < |keys| {
      var lives' := if items[keys[i]].under == oldPW && lives > 0 then lives - 1 else lives;
      StopsAtEndIff(items, oldPW, newPW, keys, i + 1, lives');
    }
  }

  /** The change succeeds exactly when the old password is right, the new one is not empty, no item is
      under a third password, and the process lives for the rewrites and the hash. */
  lemma CompletesIff(d: Disk, oldPW: Password, newPW: Password, keys: seq<string>, lives: nat)
    requires Lists(keys, d.items)
    ensures Changed(d, oldPW, newPW, keys, lives).1 == Done <==>
            && newPW != "" && d.hash == HashOf(oldPW) && OnlyUnder(d.items, oldPW, newPW)
            && lives > Moves(d.items, oldPW, keys, 0)
  {
    StopsAtEndIff(d.items, oldPW, newPW, keys, 0, lives);
    OnlyUnderByPlace(d.items, oldPW, newPW, keys);
  }

  lemma OnlyUnderByPlace(items: Items, pw: Password, pw': Password, keys: seq<string>)
    requires Lists(keys, items)
    ensures OnlyUnder(items, pw, pw') <==>
            forall j | 0 <= j < |keys| :: items[keys[j]].under == pw || items[keys[j]].under == pw'
  {
    forall k | k in items
      ensures exists j | 0 <= j < |keys| :: keys[j] == k
    {
      var i := PlaceOf(keys, |keys|, k);
    }
  }

  lemma ChangeKeepsSafe(d: Disk, oldPW: Password, newPW: Password, keys: seq<string>, lives: nat)
    requires Lists(keys, d.items) && Safe(d, oldPW, newPW)
    ensures Safe(Changed(d, oldPW, newPW, keys, lives).0, oldPW, newPW)
    ensures Changed(d, oldPW, newPW, keys, lives).1 == Done ==>
              OnlyUnder(Changed(d, oldPW, newPW, keys, lives).0.items, newPW, newPW)
  {
    EveryCrashKeepsSecrets(d, oldPW, newPW, keys, lives);
    if Changed(d, oldPW, newPW, keys, lives).1 == Done {
      DoneMovesAll(d, oldPW, newPW, keys, lives);
    }
  }

  lemma DoneMovesAll(d: Disk, oldPW: Password, newPW: Password, keys: seq<string>, lives: nat)
    requires Lists(keys, d.items) && Changed(d, oldPW, newPW, keys, lives).1 == Done
    ensures OnlyUnder(Changed(d, oldPW, newPW, keys, lives).0.items, newPW, newPW)
  {
    CompletesIff(d, oldPW, newPW, keys, lives);
    forall k | k in d.items
      ensures Moved(d.items, oldPW, newPW, keys, |keys|)[k].under == newPW
    {
      var i := PlaceOf(keys, |keys|, k);
      MovedAt(d.items, oldPW, newPW, keys, |keys|, i);
    }
  }

  lemma {:induction false} MovesAtMostAll(items: Items, oldPW: Password, keys: seq<string>, i: nat)
    requires i <= |keys| && InItems(keys, items)
    ensures Moves(items, oldPW, keys, i) <= |keys| - i
    decreases |keys| - i
  {
    if i < |keys| {
      MovesAtMostAll(items, oldPW, keys, i + 1);
    }
  }

  lemma {:induction false} StopUsesAllLives(items: Items, oldPW: Password, newPW: Password, keys: seq<string>, i: nat,
                                            lives: nat)
    requires i <= |keys| && InItems(keys, items)
    ensures var n := StopAt(items, oldPW, newPW, keys, i, lives);
            n < |keys| && items[keys[n]].under == oldPW ==>
              Moves(items, oldPW, keys, i) == lives + Moves(items, oldPW, keys, n)
    decreases |keys| - i
  {
    if i < |keys| {
      var lives' := if items[keys[i]].under == oldPW && lives > 0 then lives - 1 else lives;
      StopUsesAllLives(items, oldPW, newPW, keys, i + 1, lives');
    }
  }

  lemma {:induction false} MovesLeft(items: Items, oldPW: Password, newPW: Password, keys: seq<string>, n: nat, i: nat)
    requires Lists(keys, items) && oldPW != newPW && n <= |keys| && i <= |keys|
    ensures Moves(Moved(items, oldPW, newPW, keys, n), oldPW, keys, i) ==
            Moves(items, oldPW, keys, if i < n then n else i)
    decreases |keys| - i
  {
    if i < |keys| {
      MovesLeft(items, oldPW, newPW, keys, n, i + 1);
      MovedAt(items, oldPW, newPW, keys, n, i);
    }
  }

  /** A killed attempt is not wasted: every write it made is one fewer for the next attempt. */
  lemma ProgressIsKept(d: Disk, oldPW: Password, newPW: Password, keys: seq<string>, lives: nat)
    requires Lists(keys, d.items) && oldPW != newPW
    requires Changed(d, oldPW, newPW, keys, lives).1 == Failed(WriteFailed)
    ensures var (d', _) := Changed(d, oldPW, newPW, keys, lives);
            Lists(keys, d'.items) && Moves(d'.items, oldPW, keys, 0) + lives == Moves(d.items, oldPW, keys, 0)
  {
    var n := StopAt(d.items, oldPW, newPW, keys, 0, lives);
    StopUsesAllLives(d.items, oldPW, newPW, keys, 0, lives);
    MovesLeft(d.items, oldPW, newPW, keys, n, 0);
  }

  /** What a refusal says, and that it changes nothing. */
  lemma RefusedIff(d: Disk, oldPW: Password, newPW: Password, keys: seq<string>, lives: nat)
    requires Lists(keys, d.items)
    ensures var (d', reply) := Changed(d, oldPW, newPW, keys, lives);
            && (reply == Failed(EmptyPassword) <==> newPW == "")
            && (reply == Failed(BadHashFile) <==> newPW != "" && d.hash == Malformed)
            && (reply == Failed(WrongMasterPassword) <==>
                newPW != "" && d.hash != Malformed && d.hash != HashOf(oldPW))
            && (newPW == "" || d.hash != HashOf(oldPW) ==> d' == d)
  {
  }

  lemma {:induction false} BeforeStop(items: Items, oldPW: Password, newPW: Password, keys: seq<string>, i: nat,
                                      lives: nat)
    requires i <= |keys| && InItems(keys, items)
    ensures forall j | i <= j < StopAt(items, oldPW, newPW, keys, i, lives) ::
              items[keys[j]].under == oldPW || items[keys[j]].under == newPW
    decreases |keys| - i
  {
    if i < |keys| {
      var lives' := if items[keys[i]].under == oldPW && lives > 0 then lives - 1 else lives;
      BeforeStop(items, oldPW, newPW, keys, i + 1, lives');
    }
  }

  /** How far a change gets that is not refused: up to place n of the listing every item is under the new
      password, and from there on nothing is touched. It names the item at n if that is under neither
      password; a failed write comes after exactly as many rewrites as were left. */
  lemma StopsWhere(d: Disk, oldPW: Password, newPW: Password, keys: seq<string>, lives: nat) returns (n: nat)
    requires Lists(keys, d.items) && newPW != "" && d.hash == HashOf(oldPW)
    ensures n <= |keys|
    ensures var items' := Changed(d, oldPW, newPW, keys, lives).0.items;
            && items'.Keys == d.items.Keys
            && (forall j | 0 <= j < n ::
                  && (d.items[keys[j]].under == oldPW || d.items[keys[j]].under == newPW)
                  && items'[keys[j]] == Item(newPW, d.items[keys[j]].secret))
            && (forall j | n <= j < |keys| :: items'[keys[j]] == d.items[keys[j]])
    ensures match Changed(d, oldPW, newPW, keys, lives).1
            case Done => n == |keys|
            case Failed(CannotDecrypt(k)) =>
              n < |keys| && k == keys[n] && d.items[k].under != oldPW && d.items[k].under != newPW
            case Failed(WriteFailed) =>
              Moves(d.items, oldPW, keys, 0) == lives + Moves(d.items, oldPW, keys, n)
            case _ => false
  {
    n := StopAt(d.items, oldPW, newPW, keys, 0, lives);
    BeforeStop(d.items, oldPW, newPW, keys, 0, lives);
    StopUsesAllLives(d.items, oldPW, newPW, keys, 0, lives);
    StopIsAStray(d.items, oldPW, newPW, keys, 0, lives);
    forall j | 0 <= j < |keys|
      ensures Moved(d.items, oldPW, newPW, keys, n)[keys[j]] ==
              if j < n then Rewritten(d.items[keys[j]], oldPW, newPW) else d.items[keys[j]]
    {
      MovedAt(d.items, oldPW, newPW, keys, n, j);
    }
  }

  lemma {:induction false} StopIsAStray(items: Items, oldPW: Password, newPW: Password, keys: seq<string>, i: nat,
                                        lives: nat)
    requires i <= |keys| && InItems(keys, items)
    ensures var n := StopAt(items, oldPW, newPW, keys, i, lives);
            n < |keys| && items[keys[n]].under != oldPW ==> items[keys[n]].under != newPW
    decreases |keys| - i
  {
    if i < |keys| {
      var lives' := if items[keys[i]].under == oldPW && lives > 0 then lives - 1 else lives;
      StopIsAStray(items, oldPW, newPW, keys, i + 1, lives');
    }
  }

  /** Two items under two passwords that are both not the current one. */
  ghost predicate Strays(d: Disk, k: string, k': string) {
    && d.hash.HashOf? && k in d.items && k' in d.items && d.items[k].under != d.items[k'].under
    && d.items[k].under != d.hash.pw && d.items[k'].under != d.hash.pw
  }

  /** From there no change of the password succeeds, and none helps the next one. */
  lemma StraysBlockAChange(d: Disk, k: string, k': string, oldPW: Password, newPW: Password, keys: seq<string>,
                           lives: nat)
    requires Lists(keys, d.items) && Strays(d, k, k')
    ensures var (d', reply) := Changed(d, oldPW, newPW, keys, lives); reply != Done && Strays(d', k, k')
  {
    CompletesIff(d, oldPW, newPW, keys, lives);
    EveryCrashKeepsSecrets(d, oldPW, newPW, keys, lives);
  }

  lemma {:induction false} AllMoveIff(items: Items, pw: Password, keys: seq<string>, i: nat)
    requires i <= |keys| && InItems(keys, items)
    ensures Moves(items, pw, keys, i) == |keys| - i <==> forall j | i <= j < |keys| :: items[keys[j]].under == pw
    decreases |keys| - i
  {
    if i < |keys| {
      AllMoveIff(items, pw, keys, i + 1);
      MovesAtMostAll(items, pw, keys, i + 1);
    }
  }

  /** A retry that may name another password. After an attempt on a store wholly under the old password that
      could not make all its writes, a retry that can make all of its own succeeds if and only if it names
      the same new password, or the first attempt wrote nothing or changed nothing. */
  lemma RetryWithOtherIff(d: Disk, oldPW: Password, newPW: Password, keys: seq<string>, lives: nat,
                          otherPW: Password, keys': seq<string>, lives': nat)
    requires Lists(keys, d.items) && OnlyUnder(d.items, oldPW, oldPW)
    requires Changed(d, oldPW, newPW, keys, lives).1 == Failed(WriteFailed)
    requires otherPW != "" && Lists(keys', Changed(d, oldPW, newPW, keys, lives).0.items) && lives' > |keys'|
    ensures Changed(Changed(d, oldPW, newPW, keys, lives).0, oldPW, otherPW, keys', lives').1 == Done <==>
            otherPW == newPW || lives == 0 || newPW == oldPW
  {
    var after := Changed(d, oldPW, newPW, keys, lives).0;
    EveryCrashKeepsSecrets(d, oldPW, newPW, keys, lives);
    CompletesIff(after, oldPW, otherPW, keys', lives');
    MovesAtMostAll(after.items, oldPW, keys', 0);
    if newPW != oldPW {
      ProgressIsKept(d, oldPW, newPW, keys, lives);
      OnlyUnderByPlace(d.items, oldPW, oldPW, keys);
      OnlyUnderByPlace(after.items, oldPW, oldPW, keys);
      AllMoveIff(d.items, oldPW, keys, 0);
      AllMoveIff(after.items, oldPW, keys, 0);
      assert OnlyUnder(after.items, oldPW, oldPW) <==> lives == 0;
      assert OnlyUnder(after.items, oldPW, otherPW) ==> otherPW == newPW || OnlyUnder(after.items, oldPW, oldPW);
    }
  }
}
