/**
 * Every run of overlapping EnsureNKeySecret calls, by any number of operator processes: a call reads
 * the Secret, and finishes later with whatever luck its writes have. User settings differ freely from
 * call to call.
 */
module CredentialRuns {
  import opened Text
  import opened Api
  import opened Secrets

  datatype Call = Call(user: LiveUser, found: Option<Stored>)

  datatype Store = Store(secrets: map<Key, Stored>, version: nat, calls: map<nat, Call>)

  /** Finish without a preceding Read does nothing; a Read reusing an id abandons the earlier call. */
  datatype Event = Read(id: nat, user: LiveUser) | Finish(id: nat, luck: Luck)

  const EMPTY := Store(map[], 0, map[])

  function CallKey(c: Call): Key
  {
    SecretKey(c.user.spec)
  }

  function Next(s: Store, e: Event): Store
  {
    match e
    case Read(id, u) => s.(calls := s.calls[id := Call(u, Lookup(s.secrets, SecretKey(u.spec)))])
    case Finish(id, luck) =>
      if id !in s.calls then s else
        var c := s.calls[id];
        Store(Commit(s.secrets, s.version, c.found, c.user.spec, luck), s.version + 1, s.calls - {id})
  }

  function Answer(s: Store, e: Event): Option<Credential>
  {
    if e.Finish? && e.id in s.calls
    then Reply(s.secrets, s.calls[e.id].found, s.calls[e.id].user, e.luck) else None
  }

  function After(s: Store, run: seq<Event>): Store
  {
    if run == [] then s else Next(After(s, run[..|run| - 1]), run[|run| - 1])
  }

  lemma {:induction false} AfterConcat(s: Store, a: seq<Event>, b: seq<Event>)
    ensures After(s, a + b) == After(After(s, a), b)
  {
    if b == [] {
      assert a + b == a;
    } else {
      assert (a + b)[..|a + b| - 1] == a + b[..|b| - 1];
      AfterConcat(s, a, b[..|b| - 1]);
    }
  }

  /** What a pending call read is an earlier, or the present, state of the same Secret. */
  ghost predicate ReadEarlier(s: Store, c: Call)
  {
    c.found.Some? ==>
      && CallKey(c) in s.secrets
      && SameKeyPair(c.found.value.data, s.secrets[CallKey(c)].data)
      && (c.found.value.version == s.secrets[CallKey(c)].version ==> c.found.value == s.secrets[CallKey(c)])
  }

  ghost predicate Inv(s: Store)
  {
    && (forall k <- s.secrets :: s.secrets[k].version < s.version)
    && (forall id <- s.calls :: s.calls[id].found.Some? ==> s.calls[id].found.value.version < s.version)
    && (forall id <- s.calls :: ReadEarlier(s, s.calls[id]))
  }

  lemma StepKeepsInv(s: Store, e: Event)
    requires Inv(s)
    ensures Inv(Next(s, e))
    ensures forall k <- s.secrets :: k in Next(s, e).secrets
                   && SameKeyPair(s.secrets[k].data, Next(s, e).secrets[k].data)
  {
    if e.Finish? && e.id in s.calls {
      var c := s.calls[e.id];
      assert ReadEarlier(s, c);
      var t := Next(s, e);
      forall k | k in s.secrets ensures k in t.secrets && SameKeyPair(s.secrets[k].data, t.secrets[k].data) {
        CommitIsLocal(s.secrets, s.version, c.found, c.user.spec, e.luck, k);
      }
      hide Desired, SecretName, Value;
      forall id | id in t.calls ensures ReadEarlier(t, t.calls[id]) {
        assert ReadEarlier(s, s.calls[id]);
      }
    }
  }

  /** Once created, a Secret stays and its seed and public key never change. */
  lemma {:induction false} KeyPairIsForever(s: Store, run: seq<Event>)
    requires Inv(s)
    ensures Inv(After(s, run))
    ensures forall k <- s.secrets ::
              k in After(s, run).secrets && SameKeyPair(s.secrets[k].data, After(s, run).secrets[k].data)
  {
    if run != [] {
      var front := run[..|run| - 1];
      KeyPairIsForever(s, front);
      StepKeepsInv(After(s, front), run[|run| - 1]);
      hide Inv, Next;
    }
  }

  /**
   * A successful call returns the public key now in the user's Secret, a prefix that is empty exactly
   * when isolation is off, and, unless another call wrote in between, the prefix in the Secret.
   */
  lemma AnswersAreStored(s: Store, e: Event)
    requires Inv(s) && Answer(s, e).Some?
    ensures var u, c := s.calls[e.id].user.spec, Answer(s, e).value;
            && SecretKey(u) in Next(s, e).secrets
            && Value(Next(s, e).secrets[SecretKey(u)].data, PUBLIC) == c.publicKey
            && (c.inboxPrefix == "" <==> u.insecureSharedInboxPrefix)
            && (s.calls[e.id].found == Lookup(s.secrets, SecretKey(u)) ==> Holds(Next(s, e).secrets, u, c))
  {
    var c := s.calls[e.id];
    assert ReadEarlier(s, c);
    if c.found.Some? {
      DesiredKeepsKeyPair(c.found.value.data, c.user.spec, e.luck.draw);
    }
    DesiredPrefix(DataOf(c.found), c.user.spec, e.luck.draw);
    hide Desired, SecretName;
  }

  ghost predicate AnsweredFor(run: seq<Event>, i: nat, k: Key)
  {
    && i < |run| && Answer(After(EMPTY, run[..i]), run[i]).Some?
    && CallKey(After(EMPTY, run[..i]).calls[run[i].id]) == k
  }

  lemma AnswerIsPublished(run: seq<Event>, i: nat, k: Key)
    requires AnsweredFor(run, i, k)
    ensures var s := After(EMPTY, run[..i + 1]);
            && Inv(s) && k in s.secrets
            && Value(s.secrets[k].data, PUBLIC) == Answer(After(EMPTY, run[..i]), run[i]).value.publicKey
  {
    assert run[..i + 1][..i] == run[..i];
    KeyPairIsForever(EMPTY, run[..i]);
    AnswersAreStored(After(EMPTY, run[..i]), run[i]);
    StepKeepsInv(After(EMPTY, run[..i]), run[i]);
    hide Inv, Next, Reply, Value, SecretName;
  }

  /** All successful calls for one user, anywhere in a run, return the same public key. */
  lemma AnswersAgree(run: seq<Event>, i: nat, j: nat, k: Key)
    requires i < j < |run| && AnsweredFor(run, i, k) && AnsweredFor(run, j, k)
    ensures Answer(After(EMPTY, run[..i]), run[i]).value.publicKey
            == Answer(After(EMPTY, run[..j]), run[j]).value.publicKey
  {
    hide Inv, Next, After, Answer, Value, SecretName;
    AnswerIsPublished(run, i, k);
    AnswerIsPublished(run, j, k);
    assert run[..j + 1] == run[..i + 1] + run[i + 1..j + 1];
    AfterConcat(EMPTY, run[..i + 1], run[i + 1..j + 1]);
    KeyPairIsForever(After(EMPTY, run[..i + 1]), run[i + 1..j + 1]);
  }

  // ---- the inbox prefix ----

  /** The Secret has a prefix, and no call under way was asked to switch isolation off. */
  ghost predicate Isolated(s: Store, k: Key)
  {
    && k in s.secrets && Value(s.secrets[k].data, PREFIX) != ""
    && forall id <- s.calls :: CallKey(s.calls[id]) == k ==> !s.calls[id].user.spec.insecureSharedInboxPrefix
  }

  /** Every call under way for the Secret has read its present state. */
  ghost predicate UpToDate(s: Store, k: Key)
  {
    k in s.secrets && forall id <- s.calls :: CallKey(s.calls[id]) == k ==> s.calls[id].found == Some(s.secrets[k])
  }

  predicate StaysIsolated(run: seq<Event>, k: Key)
  {
    forall e <- run :: e.Read? && SecretKey(e.user.spec) == k ==> !e.user.spec.insecureSharedInboxPrefix
  }

  lemma StepKeepsPrefix(s: Store, e: Event, k: Key)
    requires Inv(s) && Isolated(s, k) && StaysIsolated([e], k)
    ensures Isolated(Next(s, e), k) && Next(s, e).secrets[k] == s.secrets[k]
    ensures UpToDate(s, k) ==> UpToDate(Next(s, e), k)
  {
    assert e in [e];
    if e.Finish? && e.id in s.calls {
      assert ReadEarlier(s, s.calls[e.id]);
    }
    hide SecretName;
  }

  /**
   * A stored prefix is kept, whatever override later calls bring, for as long as nobody asks to
   * switch isolation off.
   */
  lemma {:induction false} PrefixIsKept(s: Store, run: seq<Event>, k: Key)
    requires Inv(s) && Isolated(s, k) && StaysIsolated(run, k)
    ensures Isolated(After(s, run), k) && After(s, run).secrets[k] == s.secrets[k]
    ensures UpToDate(s, k) ==> UpToDate(After(s, run), k)
  {
    if run != [] {
      var front, last := run[..|run| - 1], run[|run| - 1];
      assert StaysIsolated(front, k) && StaysIsolated([last], k) by {
        assert last in run;
      }
      PrefixIsKept(s, front, k);
      KeyPairIsForever(s, front);
      StepKeepsPrefix(After(s, front), last, k);
      hide Inv, Next, Isolated, UpToDate, SecretName;
    }
  }

  /** Meanwhile every successful call returns that prefix. */
  lemma KeptPrefixIsReturned(s: Store, run: seq<Event>, e: Event, k: Key)
    requires Inv(s) && Isolated(s, k) && UpToDate(s, k) && StaysIsolated(run, k)
    requires Answer(After(s, run), e).Some? && CallKey(After(s, run).calls[e.id]) == k
    ensures Answer(After(s, run), e).value.inboxPrefix == Value(s.secrets[k].data, PREFIX)
  {
    PrefixIsKept(s, run, k);
    assert After(s, run).calls[e.id].found == Some(s.secrets[k]);
    hide After, SecretName, Inv;
  }

  /** One step takes a stored prefix away in exactly one way. */
  lemma PrefixDropsExactly(s: Store, e: Event, k: Key)
    requires Inv(s) && k in s.secrets && Value(s.secrets[k].data, PREFIX) != ""
    ensures k in Next(s, e).secrets
    ensures Value(Next(s, e).secrets[k].data, PREFIX) != Value(s.secrets[k].data, PREFIX)
            <==> && e.Finish? && e.id in s.calls && CallKey(s.calls[e.id]) == k
                 && s.calls[e.id].user.spec.insecureSharedInboxPrefix
                 && s.calls[e.id].found == Some(s.secrets[k]) && e.luck.write != Refused
  {
    if e.Finish? && e.id in s.calls {
      assert ReadEarlier(s, s.calls[e.id]);
      var data := s.secrets[k].data;
      assert PREFIX in data && PREFIX !in data - {PREFIX};
    }
    hide SecretName;
  }

  // ---- distinct users have distinct keys ----

  /** The random source never repeats a public key. */
  predicate FreshDraws(run: seq<Event>)
  {
    forall i, j :: 0 <= i < j < |run| && run[i].Finish? && run[j].Finish?
                   && run[i].luck.draw.keyPair.Some? && run[j].luck.draw.keyPair.Some? ==>
                     run[i].luck.draw.keyPair.value.publicKey != run[j].luck.draw.keyPair.value.publicKey
  }

  /** Event i of the run created the Secret k with public key p. */
  ghost predicate CreatedBy(run: seq<Event>, i: nat, k: Key, p: string)
  {
    && i < |run| && run[i].Finish? && run[i].id in After(EMPTY, run[..i]).calls
    && CallKey(After(EMPTY, run[..i]).calls[run[i].id]) == k
    && run[i].luck.draw.keyPair.Some? && run[i].luck.draw.keyPair.value.publicKey == p
  }

  lemma {:induction false} EveryKeyWasDrawn(run: seq<Event>, k: Key) returns (i: nat)
    requires k in After(EMPTY, run).secrets
    ensures CreatedBy(run, i, k, Value(After(EMPTY, run).secrets[k].data, PUBLIC))
  {
    var front, last := run[..|run| - 1], run[|run| - 1];
    var s := After(EMPTY, front);
    KeyPairIsForever(EMPTY, front);
    if k in s.secrets {
      StepKeepsInv(s, last);
      i := EveryKeyWasDrawn(front, k);
      assert front[..i] == run[..i];
      hide Inv, Next, SecretName;
    } else {
      i := |run| - 1;
      FieldsDiffer();
      hide SecretName;
    }
  }

  /** If the random source never repeats itself, two users never share a public key. */
  lemma KeysStayDistinct(run: seq<Event>, k: Key, l: Key)
    requires FreshDraws(run) && k != l && k in After(EMPTY, run).secrets && l in After(EMPTY, run).secrets
    ensures Value(After(EMPTY, run).secrets[k].data, PUBLIC) != Value(After(EMPTY, run).secrets[l].data, PUBLIC)
  {
    var i := EveryKeyWasDrawn(run, k);
    var j := EveryKeyWasDrawn(run, l);
    hide After, Value, SecretName;
  }
}
