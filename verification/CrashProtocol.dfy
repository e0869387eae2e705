/** The two stores of an import and every step that may change them on disk.

    An import changes an SQLite database and, separately, an encrypted vault file.  A journal
    and a copy of the vault bracket the change, and a marker written in the database's own
    transaction decides whether it happened.  A crash keeps what is on disk and forgets the
    rest, so a run with crashes is any sequence of permitted disk steps: a new process starts
    where the last one stopped. */
module CrashProtocol {
  import opened Wrappers
  import TransferData

  type Rows = TransferData.Rows
  type Vault = map<string, string>
  type TxId = nat

  /** A file is missing, half written by an interrupted copy, or whole. */
  datatype File = Absent | Torn | Whole(content: Vault)

  datatype Journal = Journal(id: TxId, vaultExisted: bool)

  datatype Disk = Disk(rows: Rows, marker: Option<TxId>, vault: File, backup: File, journal: Option<Journal>)

  /** The database and the vault as a user should see them. */
  datatype Pair = Pair(rows: Rows, vault: File)

  /** The disk, the pair last promised to the user, and the transaction ids handed out so far.
      The last two are history: no code reads them. */
  datatype State = State(disk: Disk, promised: Pair, used: set<TxId>)

  predicate Committed(d: Disk) {
    d.journal.Some? && d.marker == Some(d.journal.value.id)
  }

  predicate InFlight(d: Disk) {
    d.journal.Some? && d.marker != Some(d.journal.value.id)
  }

  /** The vault is as it was when the journal was written. */
  predicate VaultRestored(d: Disk)
    requires d.journal.Some?
  {
    if d.journal.value.vaultExisted then d.backup.Whole? && d.vault == d.backup else d.vault == Absent
  }

  /** One change to the disk that the protocol permits. */
  ghost predicate Step(s: State, s': State) {
    || CopyToBackup(s, s') || WriteJournal(s, s') || WriteVault(s, s') || CommitRows(s, s')
    || RestoreVault(s, s') || RemoveJournal(s, s') || RemoveBackup(s, s') || EditLocally(s, s')
  }

  /** Copying the vault aside; until the copy returns the backup is torn. */
  ghost predicate CopyToBackup(s: State, s': State) {
    && s.disk.journal.None? && s.disk.vault.Whole?
    && exists b: File :: (b == Torn || b == s.disk.vault) && s' == s.(disk := s.disk.(backup := b))
  }

  /** The journal appears in one rename, names a fresh transaction, and finds the copy finished. */
  ghost predicate WriteJournal(s: State, s': State) {
    && s.disk.journal.None?
    && (s.disk.vault.Whole? ==> s.disk.backup == s.disk.vault)
    && (exists id: TxId ::
          && id !in s.used
          && s' == s.(disk := s.disk.(journal := Some(Journal(id, s.disk.vault.Whole?))), used := s.used + {id}))
  }

  /** The vault file is replaced by rename, so it is never torn here. */
  ghost predicate WriteVault(s: State, s': State) {
    && InFlight(s.disk)
    && exists v: Vault :: s' == s.(disk := s.disk.(vault := Whole(v)))
  }

  /** The one step that changes what is promised: rows and marker together. */
  ghost predicate CommitRows(s: State, s': State) {
    && InFlight(s.disk) && s.disk.vault != Torn
    && exists rows: Rows ::
         s' == s.(disk := s.disk.(rows := rows, marker := Some(s.disk.journal.value.id)),
                  promised := Pair(rows, s.disk.vault))
  }

  /** Copying the backup over the vault, or removing a vault that did not exist before. */
  ghost predicate RestoreVault(s: State, s': State) {
    && InFlight(s.disk)
    && if s.disk.journal.value.vaultExisted then
         s.disk.backup.Whole?
         && exists v: File :: (v == Torn || v == s.disk.backup) && s' == s.(disk := s.disk.(vault := v))
       else
         s' == s.(disk := s.disk.(vault := Absent))
  }

  /** The journal may go once the import is committed or undone. */
  ghost predicate RemoveJournal(s: State, s': State) {
    && s.disk.journal.Some?
    && (Committed(s.disk) || VaultRestored(s.disk))
    && s' == s.(disk := s.disk.(journal := None))
  }

  /** The backup may go once no journal needs it. */
  ghost predicate RemoveBackup(s: State, s': State) {
    && s.disk.journal.None?
    && s' == s.(disk := s.disk.(backup := Absent))
  }

  /** Ordinary use of the application between imports. */
  ghost predicate EditLocally(s: State, s': State) {
    && s.disk.journal.None?
    && (exists rows: Rows, v: File ::
          && v != Torn
          && s' == s.(disk := s.disk.(rows := rows, vault := v), promised := Pair(rows, v)))
  }

  /** With no journal the disk is the promised pair.  With one, either the commit happened and the
      disk is the promised pair, or the rows are still the promised ones and the vault's old content
      is intact in the backup. */
  ghost predicate Safe(s: State) {
    var d := s.disk;
    && s.promised.vault != Torn
    && (d.marker.Some? ==> d.marker.value in s.used)
    && match d.journal
       case None => Pair(d.rows, d.vault) == s.promised
       case Some(j) =>
         && j.id in s.used
         && if d.marker == Some(j.id) then Pair(d.rows, d.vault) == s.promised
            else
              && d.rows == s.promised.rows
              && (d.vault == Torn ==> j.vaultExisted)
              && j.vaultExisted == s.promised.vault.Whole?
              && (j.vaultExisted ==> d.backup == s.promised.vault)
  }

  lemma StepKeepsSafe(s: State, s': State)
    requires Safe(s) && Step(s, s')
    ensures Safe(s')
  {
  }

  ghost predicate StepAt(ss: seq<State>, i: nat)
    requires 0 < i < |ss|
  {
    Step(ss[i - 1], ss[i])
  }

  /** A run: each state follows from the one before by a permitted step. */
  ghost predicate Run(ss: seq<State>) {
    && ss != []
    && forall i :: 0 < i < |ss| ==> StepAt(ss, i)
  }

  lemma {:induction false} RunKeepsSafe(ss: seq<State>, i: nat)
    requires Run(ss) && Safe(ss[0]) && i < |ss|
    ensures Safe(ss[i])
  {
    if i > 0 {
      RunKeepsSafe(ss, i - 1);
      assert StepAt(ss, i);
      StepKeepsSafe(ss[i - 1], ss[i]);
    }
  }

  lemma RunExtends(ss: seq<State>, s: State)
    requires Run(ss) && Step(ss[|ss| - 1], s)
    ensures Run(ss + [s])
  {
    var tt := ss + [s];
    forall i | 0 < i < |tt| ensures StepAt(tt, i) {
      assert i < |ss| ==> StepAt(ss, i);
    }
  }

  /** At any point of any run, crashes included: no journal means the disk is what was promised,
      a journal of an uncommitted import means the old vault is whole in the backup, and the vault
      is torn only while such a journal is there to repair it. */
  lemma DiskAtAnyPoint(ss: seq<State>, i: nat)
    requires Run(ss) && Safe(ss[0]) && i < |ss|
    ensures var d := ss[i].disk;
            && (d.journal.None? ==> Pair(d.rows, d.vault) == ss[i].promised)
            && (InFlight(d) && d.journal.value.vaultExisted ==> d.backup.Whole? && d.backup == ss[i].promised.vault)
            && (d.vault == Torn ==> InFlight(d) && d.journal.value.vaultExisted)
  {
    RunKeepsSafe(ss, i);
  }

  /** While one journal stands, the promise is the one it started with until its commit, and the
      pair of the commit from then on. */
  lemma {:induction false} PromiseOfOneImport(ss: seq<State>, j: Journal, i: nat)
    requires Run(ss) && Safe(ss[0]) && i < |ss|
    requires forall k :: 0 <= k <= i ==> ss[k].disk.journal == Some(j)
    requires InFlight(ss[0].disk)
    ensures InFlight(ss[i].disk) ==> ss[i].promised == ss[0].promised
    ensures Committed(ss[i].disk) ==>
              exists k :: 0 < k <= i && CommitRows(ss[k - 1], ss[k]) && ss[i].promised == ss[k].promised
  {
    if i > 0 {
      PromiseOfOneImport(ss, j, i - 1);
      assert StepAt(ss, i);
      if InFlight(ss[i - 1].disk) && Committed(ss[i].disk) {
        assert CommitRows(ss[i - 1], ss[i]);
      }
    }
  }

  /** Atomicity.  From the moment an import writes its journal to the moment the journal is gone,
      over any steps and any crashes, the disk goes from the pair promised before to that same pair,
      or to the rows and the vault that stood together at its commit.  The marker says which. */
  lemma ImportIsAtomic(ss: seq<State>, j: Journal)
    requires Run(ss) && Safe(ss[0]) && |ss| > 1
    requires InFlight(ss[0].disk)
    requires forall k :: 0 <= k < |ss| - 1 ==> ss[k].disk.journal == Some(j)
    requires ss[|ss| - 1].disk.journal.None?
    ensures var last := ss[|ss| - 1].disk;
            if last.marker == Some(j.id) then
              exists k :: 0 < k < |ss| && CommitRows(ss[k - 1], ss[k])
                          && Pair(last.rows, last.vault) == Pair(ss[k].disk.rows, ss[k].disk.vault)
            else
              Pair(last.rows, last.vault) == ss[0].promised
  {
    var n := |ss| - 1;
    PromiseOfOneImport(ss, j, n - 1);
    RunKeepsSafe(ss, n);
    assert StepAt(ss, n);
    if ss[n].disk.marker == Some(j.id) {
      var k :| 0 < k <= n - 1 && CommitRows(ss[k - 1], ss[k]) && ss[n - 1].promised == ss[k].promised;
    }
  }
}
