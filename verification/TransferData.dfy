/** Imported connection data: validation, the database half of an import, and the preview.

    `ImportRows` is what one import does to the three tables, written as a fold of one step
    per record; `ApplyGroups`, `ApplyCredentials` and `ApplyConnections` are the loops.
    The tables enforce what the schema enforces: primary keys, the unique group name and
    the two foreign keys.  A statement that would break one of them fails. */
module TransferData {
  import opened WhiteSpace
  import opened Wrappers

  type Id = string

  datatype Kind = Password | PrivateKey
  datatype Strategy = Skip | Overwrite

  datatype Group = Group(id: Id, name: string, createdAt: string, columns: string)
  datatype Credential = Credential(id: Id, kind: Kind, slot: Option<Id>, createdAt: string, columns: string)
  datatype Connection = Connection(
    id: Id, group: Option<Id>, credential: Option<Id>, jump: Option<Id>,
    inlineKind: Option<Kind>, slot: Option<Id>, createdAt: string, columns: string)
  datatype Data = Data(groups: seq<Group>, credentials: seq<Credential>, connections: seq<Connection>)
  datatype Secret = Secret(slot: Id, kind: string, value: string)

  /** The three tables, keyed by primary key. */
  datatype Rows = Rows(
    groups: map<Id, Group>,
    credentials: map<Id, Credential>,
    connections: map<Id, Connection>)

  datatype Stats = Stats(created: nat, updated: nat, skipped: nat)

  datatype Error = InvalidData | ConflictsByIdAndName | Statement

  const MAX_CONNECTIONS := 10_000
  const MAX_CREDENTIALS := 5_000
  const MAX_GROUPS := 5_000
  const MAX_SECRETS := 20_000

  // ----- validation -----

  predicate Distinct<T(==)>(s: seq<T>) {
    forall i, j :: 0 <= i < j < |s| ==> s[i] != s[j]
  }

  function GroupIds(gs: seq<Group>): (r: seq<string>)
    ensures |r| == |gs| && forall i :: 0 <= i < |gs| ==> r[i] == gs[i].id
  {
    seq(|gs|, i requires 0 <= i < |gs| => gs[i].id)
  }

  function GroupNames(gs: seq<Group>): (r: seq<string>)
    ensures |r| == |gs| && forall i :: 0 <= i < |gs| ==> r[i] == gs[i].name
  {
    seq(|gs|, i requires 0 <= i < |gs| => gs[i].name)
  }

  function CredentialIds(cs: seq<Credential>): (r: seq<string>)
    ensures |r| == |cs| && forall i :: 0 <= i < |cs| ==> r[i] == cs[i].id
  {
    seq(|cs|, i requires 0 <= i < |cs| => cs[i].id)
  }

  function ConnectionIds(cs: seq<Connection>): (r: seq<string>)
    ensures |r| == |cs| && forall i :: 0 <= i < |cs| ==> r[i] == cs[i].id
  {
    seq(|cs|, i requires 0 <= i < |cs| => cs[i].id)
  }


  predicate Resolves(ref: Option<Id>, ids: seq<Id>) {
    ref.Some? ==> ref.value in ids
  }

  /** What `validate_transfer_data` has to establish about a bundle. */
  predicate ValidData(data: Data) {
    && |data.groups| <= MAX_GROUPS && |data.credentials| <= MAX_CREDENTIALS && |data.connections| <= MAX_CONNECTIONS
    && Distinct(GroupIds(data.groups)) && Distinct(GroupNames(data.groups))
    && Distinct(CredentialIds(data.credentials)) && Distinct(ConnectionIds(data.connections))
    && (forall g <- data.groups :: !Blank(g.id) && !Blank(g.name))
    && (forall c <- data.credentials :: !Blank(c.id))
    && (forall c <- data.connections ::
          && !Blank(c.id)
          && Resolves(c.group, GroupIds(data.groups))
          && Resolves(c.credential, CredentialIds(data.credentials))
          && Resolves(c.jump, ConnectionIds(data.connections)))
  }

  ghost function Elements<T>(s: seq<T>): set<T> { set k | 0 <= k < |s| :: s[k] }

  /** Recording one more element of `s` keeps the recorded set and the distinctness in step. */
  lemma RecordedSoFar<T>(s: seq<T>, i: nat)
    requires i < |s|
    ensures Elements(s[..i + 1]) == Elements(s[..i]) + {s[i]}
    ensures Distinct(s[..i + 1]) <==> Distinct(s[..i]) && s[i] !in Elements(s[..i])
    ensures !Distinct(s[..i + 1]) ==> !Distinct(s)
  {
    assert s[..i + 1] == s[..i] + [s[i]];
    if Distinct(s[..i]) && s[i] in Elements(s[..i]) {
      var k :| 0 <= k < i && s[..i][k] == s[i];
      assert s[..i + 1][k] == s[..i + 1][i];
    }
    if Distinct(s[..i + 1]) {
      forall a, b | 0 <= a < b < i ensures s[..i][a] != s[..i][b] {
        assert s[..i + 1][a] != s[..i + 1][b];
      }
      forall k | 0 <= k < i ensures s[..i][k] != s[i] {
        assert s[..i + 1][k] != s[..i + 1][i];
      }
    }
  }

  method ValidateGroups(groups: seq<Group>) returns (ok: bool, ids: set<Id>)
    ensures ok <==> Distinct(GroupIds(groups)) && Distinct(GroupNames(groups))
                    && (forall g <- groups :: !Blank(g.id) && !Blank(g.name))
    ensures ok ==> ids == Elements(GroupIds(groups))
  {
    var gids, gnames := GroupIds(groups), GroupNames(groups);
    var names: set<string> := {};
    ids := {};
    for i := 0 to |groups|
      invariant ids == Elements(gids[..i]) && names == Elements(gnames[..i])
      invariant Distinct(gids[..i]) && Distinct(gnames[..i])
      invariant forall k :: 0 <= k < i ==> !Blank(groups[k].id) && !Blank(groups[k].name)
    {
      var group := groups[i];
      RecordedSoFar(gids, i);
      RecordedSoFar(gnames, i);
      if Blank(group.id) || Blank(group.name) || group.id in ids || group.name in names {
        return false, ids;
      }
      ids, names := ids + {group.id}, names + {group.name};
    }
    assert gids[..|gids|] == gids && gnames[..|gnames|] == gnames;
    ok := true;
  }

  method ValidateCredentials(credentials: seq<Credential>) returns (ok: bool, ids: set<Id>)
    ensures ok <==> Distinct(CredentialIds(credentials)) && (forall c <- credentials :: !Blank(c.id))
    ensures ok ==> ids == Elements(CredentialIds(credentials))
  {
    var cids := CredentialIds(credentials);
    ids := {};
    for i := 0 to |credentials|
      invariant ids == Elements(cids[..i]) && Distinct(cids[..i])
      invariant forall k :: 0 <= k < i ==> !Blank(credentials[k].id)
    {
      RecordedSoFar(cids, i);
      if Blank(credentials[i].id) || credentials[i].id in ids {
        return false, ids;
      }
      ids := ids + {credentials[i].id};
    }
    assert cids[..|cids|] == cids;
    ok := true;
  }

  method ValidateConnections(connections: seq<Connection>, groupIds: set<Id>, credentialIds: set<Id>)
    returns (ok: bool)
    ensures ok <==> Distinct(ConnectionIds(connections))
                    && (forall c <- connections ::
                          && !Blank(c.id)
                          && (c.group.Some? ==> c.group.value in groupIds)
                          && (c.credential.Some? ==> c.credential.value in credentialIds)
                          && Resolves(c.jump, ConnectionIds(connections)))
  {
    var all := ConnectionIds(connections);
    var ids: set<Id> := {};
    for i := 0 to |connections|
      invariant ids == Elements(all[..i]) && Distinct(all[..i])
      invariant forall k :: 0 <= k < i ==>
                  && !Blank(connections[k].id)
                  && (connections[k].group.Some? ==> connections[k].group.value in groupIds)
                  && (connections[k].credential.Some? ==> connections[k].credential.value in credentialIds)
    {
      var connection := connections[i];
      RecordedSoFar(all, i);
      if Blank(connection.id) || connection.id in ids {
        return false;
      }
      ids := ids + {connection.id};
      if connection.group.Some? && connection.group.value !in groupIds {
        return false;
      }
      if connection.credential.Some? && connection.credential.value !in credentialIds {
        return false;
      }
    }
    assert all[..|all|] == all;
    for i := 0 to |connections|
      invariant forall k :: 0 <= k < i ==> Resolves(connections[k].jump, all)
    {
      if connections[i].jump.Some? && connections[i].jump.value !in ids {
        assert !Resolves(connections[i].jump, all);
        return false;
      }
    }
    return true;
  }

  method ValidateData(data: Data) returns (ok: bool)
    ensures ok <==> ValidData(data)
  {
    if |data.groups| > MAX_GROUPS || |data.credentials| > MAX_CREDENTIALS || |data.connections| > MAX_CONNECTIONS {
      return false;
    }
    var groupIds, credentialIds: set<Id>;
    ok, groupIds := ValidateGroups(data.groups);
    if ok {
      ok, credentialIds := ValidateCredentials(data.credentials);
    }
    if ok {
      ok := ValidateConnections(data.connections, groupIds, credentialIds);
    }
  }

  function CredentialSecretKind(kind: Kind): string {
    match kind
    case Password => "password"
    case PrivateKey => "private_key_passphrase"
  }

  function InlineSecretKind(kind: Kind): string {
    match kind
    case Password => "inline_password"
    case PrivateKey => "inline_private_key_passphrase"
  }

  /** The secret kind each referenced slot must hold; a later reference to the same slot wins. */
  function CredentialSlots(cs: seq<Credential>): map<Id, string> {
    if cs == [] then map[]
    else
      var c := cs[|cs| - 1];
      var before := CredentialSlots(cs[..|cs| - 1]);
      if c.slot.Some? then before[c.slot.value := CredentialSecretKind(c.kind)] else before
  }

  function InlineSlots(cs: seq<Connection>, start: map<Id, string>): Option<map<Id, string>> {
    if cs == [] then Some(start)
    else
      var c := cs[|cs| - 1];
      var before := InlineSlots(cs[..|cs| - 1], start);
      if before.None? || c.slot.None? then before
      else if c.inlineKind.None? then None
      else Some(before.value[c.slot.value := InlineSecretKind(c.inlineKind.value)])
  }

  function ExpectedSlots(data: Data): Option<map<Id, string>> {
    InlineSlots(data.connections, CredentialSlots(data.credentials))
  }

  function SecretSlots(secrets: seq<Secret>): (r: seq<string>)
    ensures |r| == |secrets| && forall i :: 0 <= i < |secrets| ==> r[i] == secrets[i].slot
  {
    seq(|secrets|, i requires 0 <= i < |secrets| => secrets[i].slot)
  }


  /** The secrets are exactly the referenced slots, each once and of the referenced kind. */
  predicate ValidSecrets(data: Data, secrets: seq<Secret>) {
    && |secrets| <= MAX_SECRETS
    && var expected := ExpectedSlots(data);
    && expected.Some?
    && Distinct(SecretSlots(secrets))
    && (forall s <- secrets :: s.slot in expected.value && expected.value[s.slot] == s.kind)
    && (forall slot <- expected.value :: slot in SecretSlots(secrets))
  }

  method ValidateSecrets(data: Data, secrets: seq<Secret>) returns (ok: bool)
    ensures ok <==> ValidSecrets(data, secrets)
  {
    if |secrets| > MAX_SECRETS {
      return false;
    }
    var expected: map<Id, string> := map[];
    for i := 0 to |data.credentials|
      invariant expected == CredentialSlots(data.credentials[..i])
    {
      var credential := data.credentials[i];
      assert data.credentials[..i + 1][..i] == data.credentials[..i];
      if credential.slot.Some? {
        expected := expected[credential.slot.value := CredentialSecretKind(credential.kind)];
      }
    }
    assert data.credentials[..|data.credentials|] == data.credentials;
    ghost var start := expected;
    for i := 0 to |data.connections|
      invariant InlineSlots(data.connections[..i], start) == Some(expected)
    {
      var connection := data.connections[i];
      assert data.connections[..i + 1][..i] == data.connections[..i];
      if connection.slot.Some? {
        if connection.inlineKind.None? {
          InlineSlotsFail(data.connections, start, i + 1);
          return false;
        }
        expected := expected[connection.slot.value := InlineSecretKind(connection.inlineKind.value)];
      }
    }
    assert data.connections[..|data.connections|] == data.connections;
    var slots := SecretSlots(secrets);
    var seen: set<Id> := {};
    for i := 0 to |secrets|
      invariant seen == Elements(slots[..i]) && Distinct(slots[..i])
      invariant seen <= expected.Keys
      invariant forall k :: 0 <= k < i ==> secrets[k].slot in expected && expected[secrets[k].slot] == secrets[k].kind
    {
      var secret := secrets[i];
      RecordedSoFar(slots, i);
      if secret.slot in seen {
        return false;
      }
      seen := seen + {secret.slot};
      if secret.slot !in expected || expected[secret.slot] != secret.kind {
        return false;
      }
    }
    assert slots[..|slots|] == slots;
    SubsetOfSameSize(seen, expected.Keys);
    return |seen| == |expected.Keys|;
  }

  lemma {:induction false} InlineSlotsFail(cs: seq<Connection>, start: map<Id, string>, n: nat)
    requires n <= |cs| && InlineSlots(cs[..n], start).None?
    ensures InlineSlots(cs, start).None?
    decreases |cs|
  {
    if n == |cs| {
      assert cs[..n] == cs;
    } else {
      assert cs[..|cs| - 1][..n] == cs[..n];
      InlineSlotsFail(cs[..|cs| - 1], start, n);
    }
  }

  lemma SubsetOfSameSize<T>(a: set<T>, b: set<T>)
    requires a <= b
    ensures |a| == |b| <==> a == b
  {
    assert b == a + (b - a);
  }

  // ----- the kinds of the secrets -----

  /** The slot is referred to by the connection at `k` and by none after it. */
  predicate LastInline(cs: seq<Connection>, k: nat, slot: Id) {
    k < |cs| && cs[k].slot == Some(slot) && forall j :: k < j < |cs| ==> cs[j].slot != Some(slot)
  }

  predicate LastCredential(cs: seq<Credential>, k: nat, slot: Id) {
    k < |cs| && cs[k].slot == Some(slot) && forall j :: k < j < |cs| ==> cs[j].slot != Some(slot)
  }

  lemma {:induction false} CredentialSlotIs(cs: seq<Credential>, k: nat, slot: Id)
    requires LastCredential(cs, k, slot)
    ensures slot in CredentialSlots(cs)
    ensures CredentialSlots(cs)[slot] == match cs[k].kind case Password => "password" case PrivateKey => "private_key_passphrase"
  {
    if k < |cs| - 1 {
      CredentialSlotIs(cs[..|cs| - 1], k, slot);
    }
  }

  lemma {:induction false} NotInline(cs: seq<Connection>, start: map<Id, string>, slot: Id)
    requires InlineSlots(cs, start).Some? && slot in start && forall c <- cs :: c.slot != Some(slot)
    ensures slot in InlineSlots(cs, start).value && InlineSlots(cs, start).value[slot] == start[slot]
  {
    if cs != [] {
      NotInline(cs[..|cs| - 1], start, slot);
    }
  }

  lemma {:induction false} InlineSlotIs(cs: seq<Connection>, start: map<Id, string>, k: nat, slot: Id)
    requires InlineSlots(cs, start).Some? && LastInline(cs, k, slot)
    ensures cs[k].inlineKind.Some? && slot in InlineSlots(cs, start).value
    ensures InlineSlots(cs, start).value[slot] ==
            match cs[k].inlineKind.value case Password => "inline_password" case PrivateKey => "inline_private_key_passphrase"
  {
    if k < |cs| - 1 {
      InlineSlotIs(cs[..|cs| - 1], start, k, slot);
    }
  }

  lemma {:induction false} SlotsReferred(cs: seq<Credential>, slot: Id)
    ensures slot in CredentialSlots(cs) <==> exists c <- cs :: c.slot == Some(slot)
  {
    if cs != [] {
      SlotsReferred(cs[..|cs| - 1], slot);
      assert cs == cs[..|cs| - 1] + [cs[|cs| - 1]];
    }
  }

  lemma {:induction false} InlineReferred(cs: seq<Connection>, start: map<Id, string>, slot: Id)
    requires InlineSlots(cs, start).Some?
    ensures slot in InlineSlots(cs, start).value <==> slot in start || exists c <- cs :: c.slot == Some(slot)
  {
    if cs != [] {
      InlineReferred(cs[..|cs| - 1], start, slot);
      assert cs == cs[..|cs| - 1] + [cs[|cs| - 1]];
    }
  }

  lemma {:induction false} SlotsHaveKinds(cs: seq<Connection>, start: map<Id, string>)
    ensures InlineSlots(cs, start).Some? <==> forall c <- cs :: c.slot.Some? ==> c.inlineKind.Some?
  {
    if cs != [] {
      SlotsHaveKinds(cs[..|cs| - 1], start);
      assert cs == cs[..|cs| - 1] + [cs[|cs| - 1]];
    }
  }

  lemma {:induction false} LastInlineOf(cs: seq<Connection>, slot: Id) returns (k: nat)
    requires exists c <- cs :: c.slot == Some(slot)
    ensures LastInline(cs, k, slot)
    ensures forall j: nat :: LastInline(cs, j, slot) ==> j == k
  {
    var n := |cs| - 1;
    if cs[n].slot == Some(slot) {
      k := n;
    } else {
      k := LastInlineOf(cs[..n], slot);
    }
  }

  lemma {:induction false} LastCredentialOf(cs: seq<Credential>, slot: Id) returns (k: nat)
    requires exists c <- cs :: c.slot == Some(slot)
    ensures LastCredential(cs, k, slot)
    ensures forall j: nat :: LastCredential(cs, j, slot) ==> j == k
  {
    var n := |cs| - 1;
    if cs[n].slot == Some(slot) {
      k := n;
    } else {
      k := LastCredentialOf(cs[..n], slot);
    }
  }

  /** The kind of the secret fits the last record that refers to its slot. */
  ghost predicate KindFits(data: Data, s: Secret) {
    if exists c <- data.connections :: c.slot == Some(s.slot) then
      forall k: nat :: LastInline(data.connections, k, s.slot) ==>
        (data.connections[k].inlineKind == Some(Password) && s.kind == "inline_password")
        || (data.connections[k].inlineKind == Some(PrivateKey) && s.kind == "inline_private_key_passphrase")
    else
      forall k: nat :: LastCredential(data.credentials, k, s.slot) ==>
        (data.credentials[k].kind == Password && s.kind == "password")
        || (data.credentials[k].kind == PrivateKey && s.kind == "private_key_passphrase")
  }

  predicate ReferredTo(data: Data, slot: Id) {
    (exists c <- data.credentials :: c.slot == Some(slot)) || exists c <- data.connections :: c.slot == Some(slot)
  }

  lemma ExpectedInline(data: Data, s: Secret)
    requires ExpectedSlots(data).Some? && exists c <- data.connections :: c.slot == Some(s.slot)
    ensures s.slot in ExpectedSlots(data).value
    ensures ExpectedSlots(data).value[s.slot] == s.kind <==> KindFits(data, s)
  {
    hide InlineSlots, CredentialSlots, LastInline, LastCredential;
    var k := LastInlineOf(data.connections, s.slot);
    InlineSlotIs(data.connections, CredentialSlots(data.credentials), k, s.slot);
  }

  lemma ExpectedCredential(data: Data, s: Secret)
    requires ExpectedSlots(data).Some? && exists c <- data.credentials :: c.slot == Some(s.slot)
    requires forall c <- data.connections :: c.slot != Some(s.slot)
    ensures s.slot in ExpectedSlots(data).value
    ensures ExpectedSlots(data).value[s.slot] == s.kind <==> KindFits(data, s)
  {
    hide InlineSlots, CredentialSlots, LastInline, LastCredential;
    var k := LastCredentialOf(data.credentials, s.slot);
    CredentialSlotIs(data.credentials, k, s.slot);
    NotInline(data.connections, CredentialSlots(data.credentials), s.slot);
  }

  /** Secrets are accepted exactly when there are not too many, no slot comes twice, every connection with a slot
      says what it is for, every secret is referred to and fits the last record that does, and no slot
      referred to is missing. */
  lemma ValidSecretsIff(data: Data, secrets: seq<Secret>)
    ensures ValidSecrets(data, secrets) <==>
            && |secrets| <= 20_000 && Distinct(SecretSlots(secrets))
            && (forall c <- data.connections :: c.slot.Some? ==> c.inlineKind.Some?)
            && (forall s <- secrets :: ReferredTo(data, s.slot) && KindFits(data, s))
            && (forall slot :: ReferredTo(data, slot) ==> slot in SecretSlots(secrets))
  {
    hide InlineSlots, CredentialSlots, KindFits, Distinct;
    SlotsHaveKinds(data.connections, CredentialSlots(data.credentials));
    if ExpectedSlots(data).Some? {
      forall slot ensures slot in ExpectedSlots(data).value <==> ReferredTo(data, slot) {
        SlotsReferred(data.credentials, slot);
        InlineReferred(data.connections, CredentialSlots(data.credentials), slot);
      }
      forall s <- secrets | ReferredTo(data, s.slot) ensures ExpectedSlots(data).value[s.slot] == s.kind <==> KindFits(data, s) {
        if exists c <- data.connections :: c.slot == Some(s.slot) {
          ExpectedInline(data, s);
        } else {
          ExpectedCredential(data, s);
        }
      }
    }
  }
}
