/** The code that walks the crash protocol: begin, commit, abort, recovery, and an import.

    Every write to the disk goes through one of the small methods at the top, which records the
    state it leaves in `trail`.  `Valid` says that the trail is a run of the protocol, so a crash
    between any two writes leaves a state that `CrashProtocol` covers.  A write may fail at any
    time; `faults` counts the failures. */
module TransferStore {
  import opened Wrappers
  import opened CrashProtocol
  import TransferData
  import TransferImport

  datatype Error =
    | PendingRecovery
    | BackupMissing
    | Io
    | InvalidData
    | Import

  datatype RecoveryFile = JournalFile | BackupFile

  /** The undo log entry of one secret: its account and what the account held before. */
  datatype SecretBackup = SecretBackup(account: string, previous: Option<string>)

  function Account(m: Vault, account: string): Option<string> {
    if account in m then Some(m[account]) else None
  }

  function Restored(m: Vault, b: SecretBackup): Vault {
    match b.previous
    case Some(value) => m[b.account := value]
    case None => m - {b.account}
  }

  /** Undoing the last `|log| - n` entries, newest first. */
  function Undone(m: Vault, log: seq<SecretBackup>, n: nat): Vault
    requires n <= |log|
    decreases |log| - n
  {
    if n == |log| then m else Restored(Undone(m, log, n + 1), log[n])
  }

  /** One attempted write of `account`: it took effect with some value, or not at all. */
  predicate MayHaveSet(before: Vault, account: string, m: Vault) {
    m == before || (account in m && m == before[account := m[account]])
  }

  /** `m` came from `start` by writing the logged accounts, each logged just before its write. */
  ghost predicate Logged(start: Vault, log: seq<SecretBackup>, m: Vault)
    decreases |log|, 1
  {
    if log == [] then m == start
    else
      exists before: Vault :: LastLogged(start, log, before, m)
  }

  ghost predicate LastLogged(start: Vault, log: seq<SecretBackup>, before: Vault, m: Vault)
    requires log != []
    decreases |log|, 0
  {
    var last := log[|log| - 1];
    && Logged(start, log[..|log| - 1], before)
    && last.previous == Account(before, last.account)
    && MayHaveSet(before, last.account, m)
  }

  lemma RestoredIsBefore(before: Vault, account: string, m: Vault)
    requires MayHaveSet(before, account, m)
    ensures Restored(m, SecretBackup(account, Account(before, account))) == before
  {
  }

  lemma {:induction false} UndoneShorter(m: Vault, log: seq<SecretBackup>, n: nat)
    requires log != [] && n < |log|
    ensures Undone(m, log, n) == Undone(Restored(m, log[|log| - 1]), log[..|log| - 1], n)
    decreases |log| - n
  {
    if n < |log| - 1 {
      UndoneShorter(m, log, n + 1);
    }
  }

  /** Replaying the undo log newest first gives back exactly the vault the import started from,
      even when accounts repeat and even when the last write failed half way. */
  lemma {:induction false} UndoRestoresStart(start: Vault, log: seq<SecretBackup>, m: Vault)
    requires Logged(start, log, m)
    ensures Undone(m, log, 0) == start
    decreases |log|
  {
    if log != [] {
      var n := |log| - 1;
      var before: Vault :| LastLogged(start, log, before, m);
      RestoredIsBefore(before, log[n].account, m);
      assert log[n] == SecretBackup(log[n].account, Account(before, log[n].account));
      UndoneShorter(m, log, 0);
      UndoRestoresStart(start, log[..n], before);
    }
  }

  lemma LogOneMore(start: Vault, log: seq<SecretBackup>, before: Vault, account: string, m: Vault)
    requires Logged(start, log, before)
    requires MayHaveSet(before, account, m)
    ensures Logged(start, log + [SecretBackup(account, Account(before, account))], m)
  {
    var longer := log + [SecretBackup(account, Account(before, account))];
    assert longer[..|longer| - 1] == log;
    assert LastLogged(start, longer, before, m);
  }

  class Store {
    // on disk
    var rows: Rows
    var marker: Option<TxId>
    var vault: File
    var backup: File
    var journal: Option<Journal>
    // in the process: the unlocked vault
    var secrets: Vault
    // history
    ghost var promised: Pair
    ghost var used: set<TxId>
    ghost var trail: seq<State>
    ghost var faults: nat

    ghost function Now(): State
      reads this
    {
      State(Disk(rows, marker, vault, backup, journal), promised, used)
    }

    ghost predicate Valid()
      reads this
    {
      Run(trail) && Safe(trail[0]) && trail[|trail| - 1] == Now()
    }

    /** A new process over whatever disk the last one left, its vault still locked.  Every state of
        every trail will do (`CrashProtocol.RunKeepsSafe`). */
    constructor (left: State)
      requires Safe(left)
      ensures Valid() && Now() == left && trail == [left] && secrets == map[]
    {
      rows, marker, vault, backup, journal := left.disk.rows, left.disk.marker, left.disk.vault, left.disk.backup, left.disk.journal;
      secrets := map[];
      promised, used, trail, faults := left.promised, left.used, [left], 0;
    }

    ghost method Record()
      requires Run(trail) && Safe(trail[0]) && Step(trail[|trail| - 1], Now())
      modifies `trail
      ensures Valid() && trail == old(trail) + [Now()]
    {
      RunExtends(trail, Now());
      trail := trail + [Now()];
    }

    lemma NowSafe()
      requires Valid()
      ensures Safe(Now())
    {
      RunKeepsSafe(trail, |trail| - 1);
    }

    // ----- single writes -----

    /** `fs::copy` from the vault to the backup. */
    method CopyVaultToBackup() returns (ok: bool)
      requires Valid() && journal.None? && vault.Whole?
      modifies `backup, `trail, `faults
      ensures Valid() && old(trail) <= trail && faults >= old(faults)
      ensures ok ==> backup == vault && faults == old(faults)
      ensures !ok ==> faults > old(faults)
    {
      var started: bool := *;
      if started {
        backup := Torn;
        Record();
        var finished: bool := *;
        if finished {
          backup := vault;
          Record();
          return true;
        }
      }
      faults := faults + 1;
      return false;
    }

    /** `write_json_document` of the journal: it appears whole or not at all. */
    method WriteJournalFile(id: TxId, vaultExisted: bool) returns (ok: bool)
      requires Valid() && journal.None? && id !in used
      requires vaultExisted == vault.Whole? && (vaultExisted ==> backup == vault)
      modifies `journal, `used, `trail, `faults
      ensures Valid() && old(trail) <= trail && faults >= old(faults)
      ensures ok ==> journal == Some(Journal(id, vaultExisted)) && used == old(used) + {id} && faults == old(faults)
      ensures !ok ==> journal == None && used == old(used) && faults > old(faults)
    {
      ok := *;
      if ok {
        journal, used := Some(Journal(id, vaultExisted)), used + {id};
        Record();
      } else {
        faults := faults + 1;
      }
    }

    predicate Exists(f: RecoveryFile)
      reads this
    {
      match f
      case JournalFile => journal.Some?
      case BackupFile => backup != Absent
    }

    method Remove(f: RecoveryFile) returns (ok: bool)
      requires Valid() && Exists(f)
      requires f == JournalFile ==> Committed(Now().disk) || VaultRestored(Now().disk)
      requires f == BackupFile ==> journal.None?
      modifies `journal, `backup, `trail, `faults
      ensures Valid() && old(trail) <= trail && faults >= old(faults)
      ensures !ok ==> journal == old(journal) && backup == old(backup) && faults > old(faults)
      ensures ok && f == JournalFile ==> journal.None? && backup == old(backup) && faults == old(faults)
      ensures ok && f == BackupFile ==> journal == old(journal) && backup == Absent && faults == old(faults)
    {
      ok := *;
      if ok {
        if f == JournalFile {
          journal := None;
        } else {
          backup := Absent;
        }
        Record();
      } else {
        faults := faults + 1;
      }
    }

    /** `fs::copy` from the backup to the vault. */
    method CopyBackupToVault() returns (ok: bool)
      requires Valid() && InFlight(Now().disk) && journal.value.vaultExisted && backup.Whole?
      modifies `vault, `trail, `faults
      ensures Valid() && old(trail) <= trail && faults >= old(faults)
      ensures ok ==> vault == backup && faults == old(faults)
      ensures !ok ==> faults > old(faults)
    {
      var started: bool := *;
      if started {
        vault := Torn;
        Record();
        var finished: bool := *;
        if finished {
          vault := backup;
          Record();
          return true;
        }
      }
      faults := faults + 1;
      return false;
    }

    method RemoveVault() returns (ok: bool)
      requires Valid() && InFlight(Now().disk) && !journal.value.vaultExisted
      modifies `vault, `trail, `faults
      ensures Valid() && old(trail) <= trail && faults >= old(faults)
      ensures ok ==> vault == Absent && faults == old(faults)
      ensures !ok ==> vault == old(vault) && faults > old(faults)
    {
      ok := *;
      if ok {
        vault := Absent;
        Record();
      } else {
        faults := faults + 1;
      }
    }

    /** Writing the unlocked vault to its file, by rename. */
    method Persist() returns (ok: bool)
      requires Valid() && InFlight(Now().disk)
      modifies `vault, `trail, `faults
      ensures Valid() && old(trail) <= trail && faults >= old(faults)
      ensures ok ==> vault == Whole(secrets) && faults == old(faults)
      ensures !ok ==> vault == old(vault) && faults > old(faults)
    {
      ok := *;
      if ok {
        vault := Whole(secrets);
        Record();
      } else {
        faults := faults + 1;
      }
    }

    /** COMMIT of the transaction holding the new rows and the marker. */
    method CommitTransaction(newRows: Rows) returns (ok: bool)
      requires Valid() && InFlight(Now().disk) && vault != Torn
      modifies `rows, `marker, `promised, `trail, `faults
      ensures Valid() && old(trail) <= trail && faults >= old(faults)
      ensures ok ==> rows == newRows && marker == Some(journal.value.id) && promised == Pair(newRows, vault) && faults == old(faults)
      ensures !ok ==> rows == old(rows) && marker == old(marker) && promised == old(promised) && faults > old(faults)
    {
      ok := *;
      if ok {
        rows, marker, promised := newRows, Some(journal.value.id), Pair(newRows, vault);
        Record();
      } else {
        faults := faults + 1;
      }
    }

    // ----- the recovery file -----

    method Begin(id: TxId) returns (r: Result<TxId, Error>)
      requires Valid() && id !in used
      modifies `backup, `journal, `used, `trail, `faults
      ensures Valid() && old(trail) <= trail && faults >= old(faults)
      ensures r == Err(PendingRecovery) <==> old(journal).Some?
      ensures r.Ok? ==> r.value == id && journal == Some(Journal(id, vault.Whole?)) && InFlight(Now().disk)
                        && (vault.Whole? ==> backup == vault)
      ensures r.Err? ==> journal == old(journal) && used == old(used)
      ensures r.Err? && old(journal).None? ==> faults > old(faults)
    {
      if journal.Some? {
        return Err(PendingRecovery);
      }
      NowSafe();
      var vaultExisted := vault != Absent;
      if vaultExisted {
        var copied := CopyVaultToBackup();
        if !copied {
          return Err(Io);
        }
      }
      var written := WriteJournalFile(id, vaultExisted);
      if !written {
        if backup != Absent {
          var _ := Remove(BackupFile);
        }
        return Err(Io);
      }
      NowSafe();
      return Ok(id);
    }

    /** Removes the journal and then the backup. */
    method Cleanup() returns (r: Result<(), Error>)
      requires Valid()
      requires journal.Some? ==> Committed(Now().disk) || VaultRestored(Now().disk)
      modifies `journal, `backup, `trail, `faults
      ensures Valid() && old(trail) <= trail && faults >= old(faults)
      ensures r.Ok? ==> journal.None? && backup == Absent && Pair(rows, vault) == promised
      ensures r.Err? ==> r.error == Io && faults > old(faults)
      ensures journal.Some? ==> journal == old(journal) && backup == old(backup)
    {
      var files := [JournalFile, BackupFile];
      for i := 0 to |files|
        invariant Valid() && old(trail) <= trail && faults == old(faults)
        invariant i == 0 ==> journal == old(journal) && backup == old(backup)
        invariant i >= 1 ==> journal.None?
        invariant i == 2 ==> backup == Absent
      {
        if Exists(files[i]) {
          var ok := Remove(files[i]);
          if !ok {
            return Err(Io);
          }
        }
      }
      NowSafe();
      return Ok(());
    }

    method RestoreVaultBackup(vaultExisted: bool) returns (r: Result<(), Error>)
      requires Valid() && InFlight(Now().disk) && vaultExisted == journal.value.vaultExisted
      modifies `vault, `trail, `faults
      ensures Valid() && old(trail) <= trail && faults >= old(faults)
      ensures r.Ok? ==> vault == promised.vault && VaultRestored(Now().disk)
      ensures r.Err? ==> r.error == Io && faults > old(faults)
    {
      NowSafe();
      if vaultExisted {
        if backup == Absent {
          return Err(BackupMissing);
        }
        var ok := CopyBackupToVault();
        if !ok {
          return Err(Io);
        }
      } else if vault != Absent {
        var ok := RemoveVault();
        if !ok {
          return Err(Io);
        }
      }
      return Ok(());
    }

    /** The commit point is behind: only the recovery files have to go. */
    method CommitRecovery() returns (r: Result<(), Error>)
      requires Valid() && Committed(Now().disk)
      modifies `journal, `backup, `trail, `faults
      ensures Valid() && old(trail) <= trail && faults >= old(faults)
      ensures r.Ok? ==> journal.None? && Pair(rows, vault) == promised
      ensures r.Err? ==> r.error == Io && faults > old(faults)
    {
      r := Cleanup();
    }

    method Abort() returns (r: Result<(), Error>)
      requires Valid() && InFlight(Now().disk)
      modifies `vault, `journal, `backup, `trail, `faults
      ensures Valid() && old(trail) <= trail && faults >= old(faults)
      ensures r.Ok? ==> journal.None? && Pair(rows, vault) == promised
      ensures r.Err? ==> r.error == Io && faults > old(faults)
    {
      r := RestoreVaultBackup(journal.value.vaultExisted);
      if r.Ok? {
        r := Cleanup();
      }
    }

    /** Recovery from whatever a crash left.  It fails only when a read or write fails: the missing
        backup cannot happen.  When it returns normally the disk is the promised pair, the rows are
        untouched, and the vault is untouched exactly when the marker names the journal. */
    method Recover() returns (r: Result<(), Error>)
      requires Valid()
      modifies `vault, `journal, `backup, `trail, `faults
      ensures Valid() && old(trail) <= trail && faults >= old(faults)
      ensures r.Ok? ==> journal.None? && Pair(rows, vault) == promised
      ensures r.Err? ==> r.error == Io && faults > old(faults)
      ensures old(Committed(Now().disk) || journal.None?) ==> vault == old(vault)
      ensures r.Ok? && old(InFlight(Now().disk)) && old(journal).value.vaultExisted ==> vault == old(backup)
      ensures r.Ok? && old(InFlight(Now().disk)) && !old(journal).value.vaultExisted ==> vault == Absent
    {
      NowSafe();
      if journal.None? {
        return Ok(());
      }
      var readable: bool := *;
      if !readable {
        faults := faults + 1;
        return Err(Io);
      }
      var committed := marker.Some? && marker.value == journal.value.id;
      if !committed {
        r := RestoreVaultBackup(journal.value.vaultExisted);
        if r.Err? {
          return;
        }
      }
      r := Cleanup();
    }

    /** Unlocking the vault finishes any pending import first, then opens or creates the vault file.
        Afterwards the unlocked vault is the promised one, and a created one is empty. */
    method Unlock() returns (r: Result<(), Error>)
      requires Valid()
      modifies this
      ensures Valid() && old(trail) <= trail && faults >= old(faults)
      ensures r.Ok? ==> journal.None? && vault == Whole(secrets) && Pair(rows, vault) == promised
      ensures r.Ok? ==> rows == old(rows) && (promised == old(promised) || (old(promised).vault == Absent && secrets == map[]))
      ensures r.Err? ==> r.error == Io && faults > old(faults) && promised == old(promised)
    {
      r := Recover();
      if r.Err? {
        return;
      }
      NowSafe();
      if vault.Whole? {
        secrets := vault.content;
      } else {
        var written: bool := *;
        if !written {
          faults := faults + 1;
          return Err(Io);
        }
        secrets := map[];
        vault, promised := Whole(secrets), Pair(rows, Whole(secrets));
        Record();
      }
    }

    // ----- secrets -----

    /** The account changes in memory before the file is written, so a failed write leaves it changed. */
    method SetSecret(account: string, value: string) returns (ok: bool)
      requires Valid() && InFlight(Now().disk)
      modifies `secrets, `vault, `trail, `faults
      ensures Valid() && old(trail) <= trail && faults >= old(faults)
      ensures secrets == old(secrets)[account := value]
      ensures ok ==> vault == Whole(secrets) && faults == old(faults)
      ensures !ok ==> vault == old(vault) && faults > old(faults)
    {
      secrets := secrets[account := value];
      ok := Persist();
    }

    method DeleteSecret(account: string) returns (ok: bool)
      requires Valid() && InFlight(Now().disk)
      modifies `secrets, `vault, `trail, `faults
      ensures Valid() && old(trail) <= trail && faults >= old(faults)
      ensures secrets == old(secrets) - {account}
      ensures ok ==> vault == Whole(secrets) && faults == old(faults)
      ensures !ok ==> vault == old(vault) && faults > old(faults)
    {
      secrets := secrets - {account};
      ok := Persist();
    }

    method RestoreSecretBackups(log: seq<SecretBackup>) returns (ok: bool)
      requires Valid() && InFlight(Now().disk)
      modifies `secrets, `vault, `trail, `faults
      ensures Valid() && old(trail) <= trail && faults >= old(faults)
      ensures ok ==> secrets == Undone(old(secrets), log, 0) && faults == old(faults)
      ensures ok && log != [] ==> vault == Whole(secrets)
      ensures ok && log == [] ==> vault == old(vault)
      ensures !ok ==> faults > old(faults)
    {
      var i := |log|;
      while i > 0
        invariant 0 <= i <= |log|
        invariant Valid() && InFlight(Now().disk) && old(trail) <= trail && faults == old(faults)
        invariant secrets == Undone(old(secrets), log, i)
        invariant if i < |log| then vault == Whole(secrets) else vault == old(vault)
      {
        i := i - 1;
        match log[i].previous {
          case Some(value) => ok := SetSecret(log[i].account, value);
          case None => ok := DeleteSecret(log[i].account);
        }
        if !ok {
          return;
        }
      }
      ok := true;
    }

    // ----- an import -----

    /** Undoes the secrets in memory and the vault on disk after a failure before the commit.
        The database transaction is rolled back by not being committed. */
    method GiveUp(log: seq<SecretBackup>, ghost start: Vault) returns (e: Error)
      requires Valid() && InFlight(Now().disk) && Logged(start, log, secrets)
      modifies `secrets, `vault, `journal, `backup, `trail, `faults
      ensures Valid() && old(trail) <= trail && faults >= old(faults)
      ensures e == Io || e == Import
      ensures e == Import ==> journal.None? && Pair(rows, vault) == promised && secrets == start
      ensures e == Io ==> faults > old(faults)
    {
      UndoRestoresStart(start, log, secrets);
      var restored := RestoreSecretBackups(log);
      if !restored {
        return Io;
      }
      var aborted := Abort();
      if aborted.Err? {
        return aborted.error;
      }
      return Import;
    }

    /** Reads what the account holds, logs it, and writes the new secret. */
    method WriteSecret(secret: TransferData.Secret, log: seq<SecretBackup>, ghost start: Vault)
      returns (ok: bool, longer: seq<SecretBackup>)
      requires Valid() && InFlight(Now().disk) && Logged(start, log, secrets)
      modifies `secrets, `vault, `trail, `faults
      ensures Valid() && old(trail) <= trail && faults >= old(faults)
      ensures Logged(start, longer, secrets)
      ensures ok ==> secrets == old(secrets)[secret.slot := secret.value] && vault == Whole(secrets)
      ensures !ok ==> faults > old(faults)
    {
      longer := log;
      var readable: bool := *;
      if !readable {
        faults := faults + 1;
        return false, longer;
      }
      longer := log + [SecretBackup(secret.slot, Account(secrets, secret.slot))];
      ok := SetSecret(secret.slot, secret.value);
      LogOneMore(start, log, old(secrets), secret.slot, secrets);
    }

    /** Writes the secrets of the written records, logging each account before its write. */
    method WriteSecrets(bundle: seq<TransferData.Secret>, slots: set<string>)
      returns (ok: bool, log: seq<SecretBackup>, count: nat)
      requires Valid() && InFlight(Now().disk)
      modifies `secrets, `vault, `trail, `faults
      ensures Valid() && old(trail) <= trail && faults >= old(faults)
      ensures Logged(old(secrets), log, secrets)
      ensures ok ==> secrets == Wrote(old(secrets), Active(bundle, slots, |bundle|)) && count == |Active(bundle, slots, |bundle|)|
      ensures ok ==> vault == if count == 0 then old(vault) else Whole(secrets)
      ensures !ok ==> faults > old(faults)
    {
      log, count := [], 0;
      ghost var start := secrets;
      for i := 0 to |bundle|
        invariant Valid() && InFlight(Now().disk) && old(trail) <= trail && faults >= old(faults)
        invariant Logged(start, log, secrets)
        invariant secrets == Wrote(start, Active(bundle, slots, i)) && count == |Active(bundle, slots, i)|
        invariant vault == if count == 0 then old(vault) else Whole(secrets)
      {
        var secret := bundle[i];
        if secret.slot !in slots {
          assert Active(bundle, slots, i + 1) == Active(bundle, slots, i);
          continue;
        }
        ok, log := WriteSecret(secret, log, start);
        if !ok {
          return;
        }
        WroteOneMore(start, Active(bundle, slots, i), secret);
        count := count + 1;
      }
      ok := true;
    }

    /** The import went through: its rows, its secrets in memory, and both promised together. */
    ghost predicate Imported(before: Rows, start: Vault, index: map<string, string>, data: TransferData.Data,
                             bundle: seq<TransferData.Secret>, strategy: TransferData.Strategy)
      reads this
    {
      && TransferImport.IsNameIndex(before.groups, index)
      && var done := TransferImport.ImportRows(before, index, data, strategy);
      && done.Ok?
      && rows == done.value.rows
      && secrets == Wrote(start, Active(bundle, done.value.slots, |bundle|))
      && promised == Pair(rows, vault)
    }

    /** The secrets, the COMMIT and the clean-up of an import whose statements have run. */
    method CommitImport(newRows: Rows, bundle: seq<TransferData.Secret>, slots: set<string>)
      returns (r: Result<nat, Error>)
      requires Valid() && InFlight(Now().disk) && vault != Torn
      modifies this
      ensures Valid() && old(trail) <= trail && faults >= old(faults)
      ensures r.Ok? ==>
                && journal.None? && rows == newRows && promised == Pair(rows, vault)
                && secrets == Wrote(old(secrets), Active(bundle, slots, |bundle|))
                && r.value == |Active(bundle, slots, |bundle|)|
                && vault == (if r.value == 0 then old(vault) else Whole(secrets))
      ensures r.Err? ==> r.error == Io || r.error == Import
      ensures r == Err(Import) ==>
                journal.None? && promised == old(promised) && Pair(rows, vault) == promised && secrets == old(secrets)
      ensures r == Err(Io) ==>
                && faults > old(faults)
                && (|| promised == old(promised)
                    || (rows == newRows && promised == Pair(rows, vault) && secrets == Wrote(old(secrets), Active(bundle, slots, |bundle|))))
    {
      ghost var start := secrets;
      var written, log, count := WriteSecrets(bundle, slots);
      if !written {
        var e := GiveUp(log, start);
        return Err(e);
      }
      var committed := CommitTransaction(newRows);
      if !committed {
        var e := GiveUp(log, start);
        return Err(e);
      }
      var cleaned := CommitRecovery();
      if cleaned.Err? {
        return Err(cleaned.error);
      }
      return Ok(count);
    }

    /** The import proper, after the bundle has been validated. */
    method ApplyTransferData(data: TransferData.Data, bundle: seq<TransferData.Secret>,
            strategy: TransferData.Strategy, id: TxId)
      returns (r: Result<nat, Error>, ghost index: map<string, string>)
      requires Valid() && id !in used && TransferImport.UniqueNames(rows.groups)
      modifies this
      ensures Valid() && old(trail) <= trail
      ensures r.Ok? ==>
                && journal.None? && Imported(old(rows), old(secrets), index, data, bundle, strategy)
                && vault == (if r.value == 0 then old(vault) else Whole(secrets))
      ensures r.Err? && r.error != Io ==>
                && rows == old(rows) && vault == old(vault) && secrets == old(secrets)
                && journal == old(journal) && promised == old(promised)
      ensures r == Err(Io) ==>
                && faults > old(faults)
                && (promised == old(promised) || Imported(old(rows), old(secrets), index, data, bundle, strategy))
      ensures r == Err(PendingRecovery) <==> old(journal).Some?
    {
      hide Run, Safe, Wrote, Active, TransferImport.ImportRows, TransferImport.IsNameIndex, TransferImport.UniqueNames;
      index := map[];
      NowSafe();
      var begun := Begin(id);
      if begun.Err? {
        return Err(begun.error), index;
      }
      var txOpen: bool := *;
      if !txOpen {
        faults := faults + 1;
        return Err(Io), index;
      }
      var imported, names := TransferImport.ApplyRows(rows, data, strategy);
      index := names;
      var statementsRan: bool := *;
      if imported.Err? || !statementsRan {
        var aborted := Abort();
        if aborted.Err? {
          return Err(aborted.error), index;
        }
        return Err(if imported.Err? then InvalidData else Import), index;
      }
      r := CommitImport(imported.value.rows, bundle, imported.value.slots);
    }

    /** One import of a decrypted bundle.  It ends in one of three ways: everything is in place; or
        nothing has changed, in the process or on disk; or a read or write failed where the code gives
        up at once, and what is on disk is what the protocol lets recovery finish. */
    method ApplyBundle(data: TransferData.Data, bundle: seq<TransferData.Secret>,
            strategy: TransferData.Strategy, id: TxId)
      returns (r: Result<nat, Error>, ghost index: map<string, string>)
      requires Valid() && id !in used && TransferImport.UniqueNames(rows.groups)
      modifies this
      ensures Valid() && old(trail) <= trail
      ensures r.Ok? ==>
                && journal.None? && Imported(old(rows), old(secrets), index, data, bundle, strategy)
                && vault == (if r.value == 0 then old(vault) else Whole(secrets))
                && TransferData.ValidData(data) && TransferData.ValidSecrets(data, bundle)
      ensures r.Err? && r.error != Io ==>
                && rows == old(rows) && vault == old(vault) && secrets == old(secrets)
                && journal == old(journal) && promised == old(promised)
      ensures r == Err(Io) ==>
                && faults > old(faults)
                && (promised == old(promised) || Imported(old(rows), old(secrets), index, data, bundle, strategy))
      ensures old(journal).Some? || !TransferData.ValidData(data) || !TransferData.ValidSecrets(data, bundle) ==> r.Err?
    {
      index := map[];
      var validData := TransferData.ValidateData(data);
      if !validData {
        return Err(InvalidData), index;
      }
      var validSecrets := TransferData.ValidateSecrets(data, bundle);
      if !validSecrets {
        return Err(InvalidData), index;
      }
      r, index := ApplyTransferData(data, bundle, strategy, id);
    }
  }

  /** The secrets among the first `n` whose slot belongs to a written record. */
  function Active(bundle: seq<TransferData.Secret>, slots: set<string>, n: nat): seq<TransferData.Secret>
    requires n <= |bundle|
  {
    if n == 0 then []
    else
      Active(bundle, slots, n - 1) + if bundle[n - 1].slot in slots then [bundle[n - 1]] else []
  }

  /** The unlocked vault after these secrets are set, in order. */
  function Wrote(start: Vault, written: seq<TransferData.Secret>): Vault {
    if written == [] then start
    else
      var last := written[|written| - 1];
      Wrote(start, written[..|written| - 1])[last.slot := last.value]
  }

  lemma WroteOneMore(start: Vault, written: seq<TransferData.Secret>, s: TransferData.Secret)
    ensures Wrote(start, written + [s]) == Wrote(start, written)[s.slot := s.value]
  {
    assert (written + [s])[..|written|] == written;
  }

  lemma WroteNothing(start: Vault)
    ensures Wrote(start, []) == start
  {
  }

  lemma {:induction false} WroteAccount(start: Vault, bundle: seq<TransferData.Secret>, slots: set<string>,
          n: nat, account: string)
    requires n <= |bundle| && TransferData.Distinct(TransferData.SecretSlots(bundle))
    ensures var m := Wrote(start, Active(bundle, slots, n));
            && ((account !in slots || account !in TransferData.SecretSlots(bundle[..n])) ==> Account(m, account) == Account(start, account))
            && (forall k :: 0 <= k < n && bundle[k].slot == account && account in slots ==> Account(m, account) == Some(bundle[k].value))
  {
    hide Wrote;
    if n == 0 {
      WroteNothing(start);
    } else {
      WroteAccount(start, bundle, slots, n - 1, account);
      var slot := TransferData.SecretSlots(bundle);
      assert TransferData.SecretSlots(bundle[..n]) == TransferData.SecretSlots(bundle[..n - 1]) + [bundle[n - 1].slot];
      if bundle[n - 1].slot in slots {
        WroteOneMore(start, Active(bundle, slots, n - 1), bundle[n - 1]);
      } else {
        assert Active(bundle, slots, n) == Active(bundle, slots, n - 1);
      }
      forall k | 0 <= k < n - 1 ensures bundle[k].slot != bundle[n - 1].slot {
        assert slot[k] != slot[n - 1];
      }
    }
  }

  /** After a successful import of a valid bundle every secret slot of a written record holds the
      bundle's secret, and every other account holds what it held. */
  lemma SecretsInPlace(data: TransferData.Data, bundle: seq<TransferData.Secret>, slots: set<string>,
          start: Vault, account: string)
    requires TransferData.ValidSecrets(data, bundle)
    ensures var m := Wrote(start, Active(bundle, slots, |bundle|));
            && (account !in slots ==> Account(m, account) == Account(start, account))
            && (account in slots && account in TransferData.ExpectedSlots(data).value ==>
                  exists s <- bundle :: s.slot == account && Account(m, account) == Some(s.value))
  {
    WroteAccount(start, bundle, slots, |bundle|, account);
    if account in slots && account in TransferData.ExpectedSlots(data).value {
      var k :| 0 <= k < |bundle| && TransferData.SecretSlots(bundle)[k] == account;
      assert bundle[k] in bundle;
    }
  }
}
