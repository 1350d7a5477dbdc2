/**
 * internal/controller/nkey_secret_manager.go: one Secret per user holding its key pair and inbox
 * prefix. The manager reads and writes Secrets without a cache, under optimistic locking.
 */
module Secrets {
  import opened Text
  import opened Api

  type Data = map<string, string>

  /** The API server refuses an update that does not carry the version it holds. */
  datatype Stored = Stored(data: Data, version: nat)

  const SEED := "nkey-seed"
  const PUBLIC := "nkey-public"
  const PREFIX := "inbox-prefix"
  const SECRET_SUFFIX := "-nats-nkey"

  /** Go's map lookup: a missing entry reads as the empty string. */
  function Value(data: Data, field: string): string
  {
    if field in data then data[field] else ""
  }

  function SecretName(u: User): string
  {
    u.name + SECRET_SUFFIX
  }

  function SecretKey(u: User): Key
  {
    Key(u.namespace, SecretName(u))
  }

  lemma SecretKeysDiffer(u: User, v: User)
    ensures SecretKey(u) == SecretKey(v) <==> UserKey(u) == UserKey(v)
  {
    if SecretName(u) == SecretName(v) {
      var n := |SECRET_SUFFIX|;
      assert u.name == SecretName(u)[..|SecretName(u)| - n];
      assert v.name == SecretName(v)[..|SecretName(v)| - n];
    }
  }

  /** Generated prefixes are never empty. */
  type NonEmpty = s: string | s != "" witness "_I_A"

  datatype KeyPair = KeyPair(seed: string, publicKey: string)

  /** What the random source yields during one call; None when generation fails. */
  datatype Draw = Draw(keyPair: Option<KeyPair>, prefix: Option<NonEmpty>)

  /** An API write: accepted, refused, or accepted with the answer lost. */
  datatype Write = Applied | Refused | AnswerLost

  datatype Luck = Luck(getFails: bool, draw: Draw, write: Write, statusWriteFails: bool)

  datatype Credential = Credential(publicKey: string, inboxPrefix: string)

  function ResolveInboxPrefix(override: Option<string>, generated: Option<NonEmpty>): Option<string>
  {
    if override.Some? && override.value != "" then override
    else match generated {
      case None => None
      case Some(p) => Some(p)
    }
  }

  /** The data the Secret is to hold after a call; None when something needed cannot be generated. */
  function Desired(found: Option<Data>, u: User, draw: Draw): Option<Data>
  {
    match found
    case Some(data) =>
      if u.insecureSharedInboxPrefix then Some(data - {PREFIX})
      else if Value(data, PREFIX) != "" then Some(data)
      else (match ResolveInboxPrefix(u.inboxPrefix, draw.prefix)
            case None => None
            case Some(p) => Some(data[PREFIX := p]))
    case None =>
      if draw.keyPair.None? then None
      else
        var pair := map[SEED := draw.keyPair.value.seed, PUBLIC := draw.keyPair.value.publicKey];
        if u.insecureSharedInboxPrefix then Some(pair)
        else match ResolveInboxPrefix(u.inboxPrefix, draw.prefix)
             case None => None
             case Some(p) => Some(pair[PREFIX := p])
  }

  function DataOf(found: Option<Stored>): Option<Data>
  {
    match found
    case None => None
    case Some(s) => Some(s.data)
  }

  function Lookup(secrets: map<Key, Stored>, k: Key): Option<Stored>
  {
    if k in secrets then Some(secrets[k]) else None
  }

  /** The call has something to write, given what its Get returned. */
  predicate Writes(found: Option<Stored>, u: User, draw: Draw)
  {
    Desired(DataOf(found), u, draw).Some? && Desired(DataOf(found), u, draw) != DataOf(found)
  }

  /** The server takes the write: a Create needs the name free, an Update the version read. */
  predicate Accepted(secrets: map<Key, Stored>, found: Option<Stored>, u: User, draw: Draw, write: Write)
  {
    && Writes(found, u, draw) && write != Refused
    && match found {
         case None => SecretKey(u) !in secrets
         case Some(s) => SecretKey(u) in secrets && secrets[SecretKey(u)].version == s.version
       }
  }

  function Commit(secrets: map<Key, Stored>, version: nat, found: Option<Stored>, u: User, luck: Luck): map<Key, Stored>
  {
    if Accepted(secrets, found, u, luck.draw, luck.write)
    then secrets[SecretKey(u) := Stored(Desired(DataOf(found), u, luck.draw).value, version)]
    else secrets
  }

  function StampedStatus(status: UserStatus, u: User, publicKey: string): UserStatus
  {
    status.(nkeyPublicKey := publicKey, secretRef := Some(SecretName(u)))
  }

  /** The user's status already says what the Secret says, so an existing Secret causes no status write. */
  predicate StatusCurrent(status: UserStatus, u: User, publicKey: string)
  {
    status.nkeyPublicKey == publicKey && status.secretRef == Some(SecretName(u))
  }

  /** The write, if any, went through and was answered. */
  predicate WriteConfirmed(secrets: map<Key, Stored>, found: Option<Stored>, u: User, luck: Luck)
  {
    && Desired(DataOf(found), u, luck.draw).Some?
    && (Writes(found, u, luck.draw) ==>
          Accepted(secrets, found, u, luck.draw, luck.write) && luck.write == Applied)
  }

  function Reply(secrets: map<Key, Stored>, found: Option<Stored>, u: LiveUser, luck: Luck): Option<Credential>
  {
    if !WriteConfirmed(secrets, found, u.spec, luck) then None
    else
      var data := Desired(DataOf(found), u.spec, luck.draw).value;
      if luck.statusWriteFails && (found.None? || !StatusCurrent(u.status, u.spec, Value(data, PUBLIC))) then None
      else Some(Credential(Value(data, PUBLIC), Value(data, PREFIX)))
  }

  /** The in-memory user after a call: stamped as soon as the Secret is settled, written back or not. */
  function UserAfter(secrets: map<Key, Stored>, found: Option<Stored>, u: LiveUser, luck: Luck): LiveUser
  {
    if !WriteConfirmed(secrets, found, u.spec, luck) then u
    else u.(status := StampedStatus(u.status, u.spec, Value(Desired(DataOf(found), u.spec, luck.draw).value, PUBLIC)))
  }

  /** The credential is what the user's Secret holds. */
  ghost predicate Holds(secrets: map<Key, Stored>, u: User, c: Credential)
  {
    && SecretKey(u) in secrets
    && Value(secrets[SecretKey(u)].data, PUBLIC) == c.publicKey
    && Value(secrets[SecretKey(u)].data, PREFIX) == c.inboxPrefix
  }

  predicate SameKeyPair(a: Data, b: Data)
  {
    Value(a, SEED) == Value(b, SEED) && Value(a, PUBLIC) == Value(b, PUBLIC)
  }

  lemma FieldsDiffer()
    ensures SEED != PUBLIC && SEED != PREFIX && PUBLIC != PREFIX
  {
    assert |SEED| == 9 && |PUBLIC| == 11 && |PREFIX| == 12;
  }

  /** A Secret that does hold a key pair is never written with another one. */
  lemma DesiredKeepsKeyPair(data: Data, u: User, draw: Draw)
    requires Desired(Some(data), u, draw).Some?
    ensures SameKeyPair(data, Desired(Some(data), u, draw).value)
  {
    FieldsDiffer();
  }

  /** No write touches another user's Secret, removes a Secret or changes a key pair. */
  lemma CommitIsLocal(secrets: map<Key, Stored>, version: nat, found: Option<Stored>, u: User, luck: Luck, k: Key)
    requires found.Some? && SecretKey(u) in secrets && secrets[SecretKey(u)].version == found.value.version ==>
               secrets[SecretKey(u)].data == found.value.data
    ensures k != SecretKey(u) ==>
              Lookup(Commit(secrets, version, found, u, luck), k) == Lookup(secrets, k)
    ensures k in secrets ==>
              && k in Commit(secrets, version, found, u, luck)
              && SameKeyPair(secrets[k].data, Commit(secrets, version, found, u, luck)[k].data)
  {
    if found.Some? && Writes(found, u, luck.draw) {
      DesiredKeepsKeyPair(found.value.data, u, luck.draw);
    }
  }

  /** The prefix a Secret is to hold is empty exactly when isolation is switched off. */
  lemma DesiredPrefix(found: Option<Data>, u: User, draw: Draw)
    requires Desired(found, u, draw).Some?
    ensures Value(Desired(found, u, draw).value, PREFIX) == "" <==> u.insecureSharedInboxPrefix
  {
    FieldsDiffer();
  }

  /** What a successful call returns is in the Secret when it returns. */
  lemma ReplyIsStored(secrets: map<Key, Stored>, version: nat, u: LiveUser, luck: Luck)
    ensures var found := Lookup(secrets, SecretKey(u.spec));
            var r := Reply(secrets, found, u, luck);
            r.Some? ==>
              && Holds(Commit(secrets, version, found, u.spec, luck), u.spec, r.value)
              && (r.value.inboxPrefix == "" <==> u.spec.insecureSharedInboxPrefix)
              && UserAfter(secrets, found, u, luck) == u.(status := StampedStatus(u.status, u.spec, r.value.publicKey))
  {
    var found := Lookup(secrets, SecretKey(u.spec));
    if Reply(secrets, found, u, luck).Some? {
      DesiredPrefix(DataOf(found), u.spec, luck.draw);
    }
    hide Desired;
  }

  // ---- what a call leaves, field by field ----

  /** The prefix the Secret has, else the override, else the generated one. */
  ghost predicate PrefixFor(found: Option<Data>, u: User, draw: Draw, prefix: string)
  {
    if found.Some? && "inbox-prefix" in found.value && found.value["inbox-prefix"] != "" then
      prefix == found.value["inbox-prefix"]
    else if u.inboxPrefix.Some? && u.inboxPrefix.value != "" then prefix == u.inboxPrefix.value
    else draw.prefix.Some? && prefix == draw.prefix.value
  }

  /**
   * A new Secret holds the drawn pair; in an existing one nothing but the prefix changes. There is a prefix
   * exactly when isolation is on.
   */
  ghost predicate Fills(found: Option<Data>, u: User, draw: Draw, data: Data)
  {
    && (found.None? ==>
          && draw.keyPair.Some? && data.Keys - {"inbox-prefix"} == {"nkey-seed", "nkey-public"}
          && data["nkey-seed"] == draw.keyPair.value.seed && data["nkey-public"] == draw.keyPair.value.publicKey)
    && (found.Some? ==> data - {"inbox-prefix"} == found.value - {"inbox-prefix"})
    && if u.insecureSharedInboxPrefix then "inbox-prefix" !in data
       else "inbox-prefix" in data && PrefixFor(found, u, draw, data["inbox-prefix"])
  }

  /** The user's status says nothing else than the Secret. */
  ghost predicate Stamped(u: LiveUser, publicKey: string)
  {
    u.status.nkeyPublicKey == publicKey && u.status.secretRef == Some(u.spec.name + "-nats-nkey")
  }

  /** What the call needs to succeed: data to fill in, a confirmed write if anything changes, the status written. */
  ghost predicate Succeeds(found: Option<Data>, u: LiveUser, luck: Luck, data: Data)
  {
    && Fills(found, u.spec, luck.draw, data)
    && (found != Some(data) ==> luck.write == Applied)
    && (found.None? || !Stamped(u, Value(data, "nkey-public")) ==> !luck.statusWriteFails)
  }

  /** A whole call: the answer, the Secrets and the user's status in memory. */
  ghost predicate Provides(before: map<Key, Stored>, after: map<Key, Stored>, was: LiveUser, now: LiveUser, luck: Luck,
                           r: Option<Credential>)
  {
    var k := Key(was.spec.namespace, was.spec.name + "-nats-nkey");
    var found := if k in before then Some(before[k].data) else None;
    && (r.Some? <==> !luck.getFails && exists data :: Succeeds(found, was, luck, data))
    && (r.Some? ==> var data := if k in after then after[k].data else map[];
                    && k in after && Succeeds(found, was, luck, data)
                    && r == Some(Credential(Value(data, "nkey-public"), Value(data, "inbox-prefix")))
                    && Stamped(now, r.value.publicKey))
    && (after != before ==> k in after && Fills(found, was.spec, luck.draw, after[k].data))
    && (forall l :: l != k ==> Lookup(after, l) == Lookup(before, l))
    && now == was.(status := was.status.(nkeyPublicKey := now.status.nkeyPublicKey,
                                         secretRef := now.status.secretRef))
    && (now != was ==> k in after && Stamped(now, Value(after[k].data, "nkey-public")))
  }

  lemma DesiredFills(found: Option<Data>, u: User, draw: Draw)
    requires Desired(found, u, draw).Some?
    ensures Fills(found, u, draw, Desired(found, u, draw).value)
  {
    FieldsDiffer();
    var data := Desired(found, u, draw).value;
    if found.Some? {
      assert data - {PREFIX} == found.value - {PREFIX};
    }
  }

  lemma FillsAlike(found: Option<Data>, u: User, draw: Draw, a: Data, b: Data)
    requires Fills(found, u, draw, a) && Fills(found, u, draw, b)
    ensures a == b
  {
    assert a - {"inbox-prefix"} == b - {"inbox-prefix"};
    forall f | f in a || f in b ensures f in a && f in b && a[f] == b[f] {
      if f != "inbox-prefix" {
        assert f in a - {"inbox-prefix"} <==> f in a;
        assert f in b - {"inbox-prefix"} <==> f in b;
      }
    }
  }

  lemma FilledIsDesired(found: Option<Data>, u: User, draw: Draw, data: Data)
    requires Fills(found, u, draw, data)
    ensures Desired(found, u, draw) == Some(data)
  {
    FieldsDiffer();
    assert Desired(found, u, draw).Some?;
    DesiredFills(found, u, draw);
    hide Desired, Fills;
    FillsAlike(found, u, draw, data, Desired(found, u, draw).value);
  }

  /** Exactly this gets written, and nothing when it cannot be had. */
  lemma DesiredExactly(found: Option<Data>, u: User, draw: Draw, data: Data)
    ensures Desired(found, u, draw) == Some(data) <==> Fills(found, u, draw, data)
  {
    hide Desired, Fills;
    if Fills(found, u, draw, data) {
      FilledIsDesired(found, u, draw, data);
    }
    if Desired(found, u, draw) == Some(data) {
      DesiredFills(found, u, draw);
    }
  }

  /** What the specification functions say of a call, without naming what is to be written. */
  lemma CallProvides(secrets: map<Key, Stored>, version: nat, u: LiveUser, luck: Luck)
    requires !luck.getFails
    ensures var found := Lookup(secrets, SecretKey(u.spec));
            Provides(secrets, Commit(secrets, version, found, u.spec, luck), u, UserAfter(secrets, found, u, luck),
                     luck, Reply(secrets, found, u, luck))
  {
    var found := Lookup(secrets, SecretKey(u.spec));
    var data := DataOf(found);
    hide Desired, Fills;
    forall d: Data ensures Desired(data, u.spec, luck.draw) == Some(d) <==> Fills(data, u.spec, luck.draw, d) {
      DesiredExactly(data, u.spec, luck.draw, d);
    }
    if Desired(data, u.spec, luck.draw).Some? {
      var d := Desired(data, u.spec, luck.draw).value;
      assert Reply(secrets, found, u, luck).Some? <==> Succeeds(data, u, luck, d);
    }
  }

  lemma NothingProvided(secrets: map<Key, Stored>, u: LiveUser, luck: Luck)
    requires luck.getFails
    ensures Provides(secrets, secrets, u, u, luck, None)
  {}

  class NKeySecretManager {
    var secrets: map<Key, Stored>
    var version: nat

    /** EnsureNKeySecret for the j-th listed user, whose status is updated in place. */
    method EnsureNKeySecret(users: array<LiveUser>, j: nat, luck: Luck) returns (r: Option<Credential>)
      requires j < users.Length
      modifies this, users
      ensures luck.getFails ==> r == None && secrets == old(secrets) && users[..] == old(users[..])
      ensures !luck.getFails ==>
                var u := old(users[j]);
                var found := Lookup(old(secrets), SecretKey(u.spec));
                && secrets == Commit(old(secrets), old(version), found, u.spec, luck)
                && r == Reply(old(secrets), found, u, luck)
                && users[..] == old(users[..])[j := UserAfter(old(secrets), found, u, luck)]
      ensures version == old(version) + if secrets == old(secrets) then 0 else 1
      ensures Provides(old(secrets), secrets, old(users[j]), users[j], luck, r)
    {
      hide Provides, Commit, Reply, UserAfter;
      if luck.getFails {
        NothingProvided(secrets, users[j], luck);
        return None;
      }
      CallProvides(secrets, version, users[j], luck);
      if SecretKey(users[j].spec) in secrets {
        r := UseExisting(users, j, luck);
      } else {
        r := CreateNew(users, j, luck);
      }
    }

    /** The Secret exists: adjust its prefix if the isolation setting asks for it. */
    method UseExisting(users: array<LiveUser>, j: nat, luck: Luck) returns (r: Option<Credential>)
      requires j < users.Length && SecretKey(users[j].spec) in secrets
      modifies this, users
      ensures var u := old(users[j]);
              var found := Some(old(secrets)[SecretKey(u.spec)]);
              && secrets == Commit(old(secrets), old(version), found, u.spec, luck)
              && r == Reply(old(secrets), found, u, luck)
              && users[..] == old(users[..])[j := UserAfter(old(secrets), found, u, luck)]
      ensures version == old(version) + if secrets == old(secrets) then 0 else 1
    {
      FieldsDiffer();
      var spec := users[j].spec;
      var data := secrets[SecretKey(spec)].data;
      var publicKey := Value(data, PUBLIC);
      var inboxPrefix := Value(data, PREFIX);
      var needsUpdate := false;
      if spec.insecureSharedInboxPrefix {
        if PREFIX in data {
          data := data - {PREFIX};
          inboxPrefix := "";
          needsUpdate := true;
        }
      } else if inboxPrefix == "" {
        var resolved := ResolveInboxPrefix(spec.inboxPrefix, luck.draw.prefix);
        if resolved.None? {
          return None;
        }
        inboxPrefix := resolved.value;
        data := data[PREFIX := inboxPrefix];
        needsUpdate := true;
      }
      assert PREFIX !in data ==> data - {PREFIX} == data;
      assert Desired(Some(secrets[SecretKey(spec)].data), spec, luck.draw) == Some(data);
      assert needsUpdate <==> data != secrets[SecretKey(spec)].data;
      assert inboxPrefix == Value(data, PREFIX) && publicKey == Value(data, PUBLIC);
      hide Desired, Value;
      if needsUpdate {
        if luck.write != Refused {
          secrets, version := secrets[SecretKey(spec) := Stored(data, version)], version + 1;
        }
        if luck.write != Applied {
          return None;
        }
      }
      if users[j].status.nkeyPublicKey != publicKey || users[j].status.secretRef != Some(SecretName(spec)) {
        users[j] := users[j].(status := StampedStatus(users[j].status, spec, publicKey));
        if luck.statusWriteFails {
          return None;
        }
      }
      return Some(Credential(publicKey, inboxPrefix));
    }

    /** No Secret yet: generate a key pair, and a prefix unless isolation is switched off. */
    method CreateNew(users: array<LiveUser>, j: nat, luck: Luck) returns (r: Option<Credential>)
      requires j < users.Length && SecretKey(users[j].spec) !in secrets
      modifies this, users
      ensures var u := old(users[j]);
              && secrets == Commit(old(secrets), old(version), None, u.spec, luck)
              && r == Reply(old(secrets), None, u, luck)
              && users[..] == old(users[..])[j := UserAfter(old(secrets), None, u, luck)]
      ensures version == old(version) + if secrets == old(secrets) then 0 else 1
    {
      FieldsDiffer();
      var spec := users[j].spec;
      if luck.draw.keyPair.None? {
        return None;
      }
      var pair := luck.draw.keyPair.value;
      var data := map[SEED := pair.seed, PUBLIC := pair.publicKey];
      var inboxPrefix := "";
      if !spec.insecureSharedInboxPrefix {
        var resolved := ResolveInboxPrefix(spec.inboxPrefix, luck.draw.prefix);
        if resolved.None? {
          return None;
        }
        inboxPrefix := resolved.value;
        data := data[PREFIX := inboxPrefix];
      }
      assert Desired(None, spec, luck.draw) == Some(data);
      assert inboxPrefix == Value(data, PREFIX) && pair.publicKey == Value(data, PUBLIC);
      hide Desired, Value;
      if luck.write != Refused {
        secrets, version := secrets[SecretKey(spec) := Stored(data, version)], version + 1;
      }
      if luck.write != Applied {
        return None;
      }
      users[j] := users[j].(status := StampedStatus(users[j].status, spec, pair.publicKey));
      if luck.statusWriteFails {
        return None;
      }
      return Some(Credential(pair.publicKey, inboxPrefix));
    }
  }
}
