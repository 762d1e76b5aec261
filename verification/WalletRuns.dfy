/** What every run of repository operations keeps: linked tables, fenced leases, bounded claims. */
module WalletRuns {
  import opened Wrappers
  import opened WalletTables

  datatype Op =
    | StoreAi(account: string, provider: string, fingerprint: string, newId: Id)
    | RevokeAi(account: string, provider: string)
    | Provision(account: string, owner: Option<string>, newId: Id)
    | Import(enrollment: Enrollment, newCredential: Id, newWallet: Id)
    | RequestRevoke(account: string, wallet: Id)
    | Claim(claimant: string, seconds: int)
    | Heartbeat(fence: Fence, seconds: int)
    | Verify(fence: Fence, verified: Verified)
    | Fail(fence: Fence, error: string, retryable: bool)
    | Revoke(fence: Fence)
    | Readiness(account: string, wallet: Id, balance: real, allowances: bool)

  /** Fresh random identifiers do not repeat. */
  predicate Legal(t: Tables, op: Op) {
    match op
    case StoreAi(_, _, _, id) => id !in t.credentials
    case Provision(_, _, id) => id !in t.wallets
    case Import(_, c, w) => c !in t.credentials && w !in t.wallets
    case _ => true
  }

  function Apply(t: Tables, op: Op, now: Instant): Tables {
    match op
    case StoreAi(account, provider, fingerprint, id) => AfterStoreAi(t, account, provider, fingerprint, id)
    case RevokeAi(account, provider) => AfterRevokeAi(t, account, provider)
    case Provision(account, owner, id) => AfterProvision(t, account, owner, id, now)
    case Import(e, c, w) => AfterImport(t, e, c, w, now)
    case RequestRevoke(account, id) => AfterRequestRevoke(t, account, id)
    case Claim(claimant, seconds) => AfterClaim(t, claimant, seconds, now)
    case Heartbeat(f, seconds) => AfterHeartbeat(t, f, seconds, now)
    case Verify(f, v) => AfterVerify(t, f, v, now)
    case Fail(f, error, retryable) => AfterFail(t, f, error, retryable, now)
    case Revoke(f) => AfterRevocation(t, f, now)
    case Readiness(account, id, balance, allowances) => AfterReadiness(t, account, id, balance, allowances)
  }

  datatype Timed = Timed(op: Op, now: Instant)

  ghost predicate Run(states: seq<Tables>, ops: seq<Timed>) {
    && |states| == |ops| + 1 && states[0] == EMPTY
    && forall i | 0 <= i < |ops| ::
         Legal(states[i], ops[i].op) && states[i + 1] == Apply(states[i], ops[i].op, ops[i].now)
  }

  // ---- the linked-table invariant

  /** A wallet and its signer credential are in matching states; a failed wallet pairs with a revoked credential. */
  predicate Matching(w: Status, c: Status) {
    c == (if w == Failed then Revoked else w)
  }

  predicate RowOk(t: Tables, w: Wallet) {
    && w.attempts <= MAX_ATTEMPTS && (w.key.Some? <==> w.credential.Some?)
    && (w.claimedBy.Some? <==> w.expires.Some?)
    && (w.claimedBy.Some? ==> w.status == PendingVerification || w.status == RevocationPending)
    && match w.credential
       case None => w.status == Provisioning || w.status == Revoked
       case Some(c) =>
         c in t.credentials && t.credentials[c].account == w.account && t.credentials[c].kind == SignerKey
         && w.status != Provisioning && Matching(w.status, t.credentials[c].status)
  }

  ghost predicate RowsOk(t: Tables) { forall id | id in t.wallets :: RowOk(t, t.wallets[id]) }

  ghost predicate ScansComplete(t: Tables) {
    (forall id :: id in t.walletOrder <==> id in t.wallets)
        && (forall id :: id in t.credentialOrder <==> id in t.credentials)
  }

  /** No two wallets share a signer credential. */
  ghost predicate OwnCredentials(t: Tables) {
    forall a, b | a in t.wallets && b in t.wallets && t.wallets[a].credential.Some?
        && t.wallets[a].credential == t.wallets[b].credential :: a == b
  }

  ghost predicate OneLiveSigner(t: Tables) {
    forall a, b, account, fingerprint | IsLiveSigner(t, a, account, fingerprint)
        && IsLiveSigner(t, b, account, fingerprint) :: a == b
  }

  ghost predicate OneEnrollment(t: Tables) {
    forall a, b, account, key | HasKey(t, a, account, key) && HasKey(t, b, account, key) :: a == b
  }

  ghost predicate OneActiveAi(t: Tables) {
    forall a, b, account, provider | IsActiveAi(t, a, account, provider) && IsActiveAi(t, b, account, provider) ::
          a == b
  }

  ghost predicate Linked(t: Tables) {
    RowsOk(t) && ScansComplete(t) && OwnCredentials(t) && OneLiveSigner(t) && OneEnrollment(t) && OneActiveAi(t)
  }

  // ---- how far a row may move

  function Rank(s: Status): nat {
    match s
    case Provisioning => 0
    case PendingVerification => 1
    case Active => 2
    case RevocationPending => 3
    case Failed => 4
    case Revoked => 5
  }

  /** A row keeps its identity, its token never falls and its status never goes back. */
  predicate RowAdvances(v: Wallet, w: Wallet) {
    && w.account == v.account && w.key == v.key && w.credential == v.credential
    && v.token <= w.token && v.attempts <= w.attempts && Rank(v.status) <= Rank(w.status)
  }

  ghost predicate Advances(t: Tables, u: Tables) {
    && (forall id | id in t.wallets :: id in u.wallets && RowAdvances(t.wallets[id], u.wallets[id]))
    && (forall id | id in t.credentials ::
        id in u.credentials && t.credentials[id].(status := u.credentials[id].status) == u.credentials[id])
  }

  // ---- updating one wallet, and its own credential with it

  /** The shape shared by every operation on one wallet: its row, and perhaps its credential's status, change. */
  ghost predicate Touches(t: Tables, u: Tables, id: Id, w: Wallet, s: Option<Status>) {
    && id in t.wallets && u.walletOrder == t.walletOrder && u.credentialOrder == t.credentialOrder
    && u.wallets == t.wallets[id := w]
    && u.credentials == (if s.Some? && w.credential.Some? && w.credential.value in t.credentials
                         then t.credentials[w.credential.value := t.credentials[w.credential.value].(status := s.value)]
                             else t.credentials)
  }

  lemma TouchKeeps(t: Tables, u: Tables, id: Id, w: Wallet, s: Option<Status>)
    requires Linked(t) && Touches(t, u, id, w, s) && RowAdvances(t.wallets[id], w) && RowOk(u, w)
    requires Live(w.status) ==> Live(t.wallets[id].status)
    ensures Linked(u) && Advances(t, u)
  {
    hide RowOk, RowAdvances;
    TouchKeepsRows(t, u, id, w, s);
    assert u.wallets.Keys == t.wallets.Keys && u.credentials.Keys == t.credentials.Keys by {
      TouchKeepsKeys(t, u, id, w, s);
    }
    TouchKeepsUnique(t, u, id, w, s);
  }

  lemma TouchKeepsKeys(t: Tables, u: Tables, id: Id, w: Wallet, s: Option<Status>)
    requires Linked(t) && Touches(t, u, id, w, s)
    ensures u.wallets.Keys == t.wallets.Keys && u.credentials.Keys == t.credentials.Keys && ScansComplete(u)
  {}

  lemma TouchKeepsRows(t: Tables, u: Tables, id: Id, w: Wallet, s: Option<Status>)
    requires Linked(t) && Touches(t, u, id, w, s) && RowAdvances(t.wallets[id], w) && RowOk(u, w)
    ensures RowsOk(u) && Advances(t, u)
  {
    forall other | other in u.wallets ensures RowOk(u, u.wallets[other]) {
      if other != id {
        assert RowOk(t, t.wallets[other]);
        assert t.wallets[other].credential.Some? ==> t.wallets[other].credential != t.wallets[id].credential;
      }
    }
  }

  lemma TouchKeepsUnique(t: Tables, u: Tables, id: Id, w: Wallet, s: Option<Status>)
    requires Linked(t) && Touches(t, u, id, w, s) && RowAdvances(t.wallets[id], w)
    requires Live(w.status) ==> Live(t.wallets[id].status)
    ensures OwnCredentials(u) && OneLiveSigner(u) && OneEnrollment(u) && OneActiveAi(u)
  {
    forall a: Id, account: string, fingerprint: string | IsLiveSigner(u, a, account, fingerprint)
      ensures IsLiveSigner(t, a, account, fingerprint)
    {}
    forall a: Id, account: string, key: string | HasKey(u, a, account, key) ensures HasKey(t, a, account, key) {}
    forall a: Id, account: string, provider: string | IsActiveAi(u, a, account, provider)
      ensures IsActiveAi(t, a, account, provider)
    {
      assert RowOk(t, t.wallets[id]);
    }
  }

  // ---- each operation

  lemma SameKeeps(t: Tables)
    requires Linked(t)
    ensures Advances(t, t)
  {}

  lemma ClaimKeeps(t: Tables, owner: string, seconds: int, now: Instant)
    requires Linked(t)
    ensures Linked(AfterClaim(t, owner, seconds, now)) && Advances(t, AfterClaim(t, owner, seconds, now))
  {
    hide Linked, Advances;
    SameKeeps(t);
    var best := Best(t, t.walletOrder, now);
    if owner != "" && ValidLease(seconds) && best.Some? {
      var w := t.wallets[best.value];
      LinkedRow(t, best.value);
      TouchKeeps(t, AfterClaim(t, owner, seconds, now), best.value, ClaimedRow(w, owner, seconds, now), None);
    }
  }

  lemma LinkedRow(t: Tables, id: Id)
    requires Linked(t) && id in t.wallets
    ensures RowOk(t, t.wallets[id])
  {}

  lemma HeartbeatKeeps(t: Tables, f: Fence, seconds: int, now: Instant)
    requires Linked(t)
    ensures Linked(AfterHeartbeat(t, f, seconds, now)) && Advances(t, AfterHeartbeat(t, f, seconds, now))
  {
    hide Linked, Advances;
    SameKeeps(t);
    if HeartbeatOk(t, f, seconds, now) {
      LinkedRow(t, f.wallet);
      TouchKeeps(t, AfterHeartbeat(t, f, seconds, now), f.wallet,
                 t.wallets[f.wallet].(expires := Some(now + seconds as real)), None);
    }
  }

  lemma VerifyKeeps(t: Tables, f: Fence, v: Verified, now: Instant)
    requires Linked(t)
    ensures Linked(AfterVerify(t, f, v, now)) && Advances(t, AfterVerify(t, f, v, now))
  {
    hide Linked, Advances, Lower, IsAddress;
    SameKeeps(t);
    if VerifyReply(t, f, v, now) == Done {
      LinkedRow(t, f.wallet);
      var u := AfterVerify(t, f, v, now);
      TouchKeeps(t, u, f.wallet, u.wallets[f.wallet], Some(Active));
    }
  }

  lemma FailKeeps(t: Tables, f: Fence, error: string, retryable: bool, now: Instant)
    requires Linked(t)
    ensures Linked(AfterFail(t, f, error, retryable, now)) && Advances(t, AfterFail(t, f, error, retryable, now))
  {
    hide Linked, Advances;
    SameKeeps(t);
    if FailOk(t, f, now) {
      LinkedRow(t, f.wallet);
      var u := AfterFail(t, f, error, retryable, now);
      TouchKeeps(t, u, f.wallet, u.wallets[f.wallet],
                 if u.wallets[f.wallet].status == Failed then Some(Revoked) else None);
    }
  }

  lemma RevocationKeeps(t: Tables, f: Fence, now: Instant)
    requires Linked(t)
    ensures Linked(AfterRevocation(t, f, now)) && Advances(t, AfterRevocation(t, f, now))
  {
    hide Linked, Advances;
    SameKeeps(t);
    if RevokeOk(t, f, now) {
      LinkedRow(t, f.wallet);
      var u := AfterRevocation(t, f, now);
      TouchKeeps(t, u, f.wallet, u.wallets[f.wallet], Some(Revoked));
    }
  }

  lemma RequestRevokeKeeps(t: Tables, account: string, id: Id)
    requires Linked(t)
    ensures Linked(AfterRequestRevoke(t, account, id)) && Advances(t, AfterRequestRevoke(t, account, id))
  {
    hide Linked, Advances;
    SameKeeps(t);
    if id in t.wallets && t.wallets[id].account == account {
      LinkedRow(t, id);
      var u := AfterRequestRevoke(t, account, id);
      TouchKeeps(t, u, id, u.wallets[id], Some(u.wallets[id].status));
    }
  }

  lemma ReadinessKeeps(t: Tables, account: string, id: Id, balance: real, allowances: bool)
    requires Linked(t)
    ensures Linked(AfterReadiness(t, account, id, balance, allowances))
            && Advances(t, AfterReadiness(t, account, id, balance, allowances))
  {
    hide Linked, Advances;
    SameKeeps(t);
    if ReadyOk(t, account, id) {
      LinkedRow(t, id);
      var u := AfterReadiness(t, account, id, balance, allowances);
      TouchKeeps(t, u, id, u.wallets[id], None);
    }
  }

  lemma ProvisionKeeps(t: Tables, account: string, owner: Option<string>, id: Id, now: Instant)
    requires Linked(t) && id !in t.wallets
    ensures Linked(AfterProvision(t, account, owner, id, now))
            && Advances(t, AfterProvision(t, account, owner, id, now))
  {
    var u := AfterProvision(t, account, owner, id, now);
    forall a: Id, account: string, fingerprint: string | IsLiveSigner(u, a, account, fingerprint)
      ensures IsLiveSigner(t, a, account, fingerprint)
    {}
    forall a: Id, account: string, key: string | HasKey(u, a, account, key) ensures HasKey(t, a, account, key) {}
    forall a: Id, account: string, provider: string | IsActiveAi(u, a, account, provider)
      ensures IsActiveAi(t, a, account, provider)
    {}
    forall other | other in u.wallets ensures RowOk(u, u.wallets[other]) {
      if other != id { LinkedRow(t, other); }
    }
  }

  /** A scan over complete tables that finds nothing proves there is nothing. */
  lemma ImportIsNew(t: Tables, e: Enrollment, newWallet: Id)
    requires Linked(t) && ImportReplyOf(t, e, newWallet).Created?
    ensures forall a :: !HasKey(t, a, e.account, e.key)
    ensures forall a :: !IsLiveSigner(t, a, e.account, e.fingerprint)
  {
    var same := First(t.walletOrder, (id: Id) => HasKey(t, id, e.account, e.key));
    var duplicate := First(t.walletOrder, (id: Id) => IsLiveSigner(t, id, e.account, e.fingerprint));
    assert same.None? && duplicate.None?;
  }

  lemma ImportKeeps(t: Tables, e: Enrollment, c: Id, id: Id, now: Instant)
    requires Linked(t) && c !in t.credentials && id !in t.wallets
    ensures Linked(AfterImport(t, e, c, id, now)) && Advances(t, AfterImport(t, e, c, id, now))
  {
    hide First, ImportReplyOf;
    var u := AfterImport(t, e, c, id, now);
    SameKeeps(t);
    if ImportReplyOf(t, e, id).Created? {
      ImportIsNew(t, e, id);
      assert RowsOk(u) by {
        forall other | other in u.wallets ensures RowOk(u, u.wallets[other]) { if other != id { LinkedRow(t, other); } }
      }
      assert forall a | a in t.wallets && t.wallets[a].credential.Some? :: t.wallets[a].credential.value != c by {
        forall a | a in t.wallets && t.wallets[a].credential.Some? ensures t.wallets[a].credential.value != c {
          LinkedRow(t, a);
        }
      }
      ImportKeepsUnique(t, u, e, c, id);
    }
  }

  lemma ImportKeepsUnique(t: Tables, u: Tables, e: Enrollment, c: Id, id: Id)
    requires Linked(t) && c !in t.credentials && id !in t.wallets
    requires u.wallets.Keys == t.wallets.Keys + {id} && u.credentials.Keys == t.credentials.Keys + {c}
    requires forall a | a in t.wallets :: u.wallets[a] == t.wallets[a] && t.wallets[a].credential != Some(c)
    requires forall a | a in t.credentials :: u.credentials[a] == t.credentials[a]
    requires u.wallets[id].account == e.account && u.wallets[id].key == Some(e.key)
             && u.wallets[id].credential == Some(c)
    requires u.credentials[c].fingerprint == e.fingerprint && u.credentials[c].kind == SignerKey
    requires forall a :: !HasKey(t, a, e.account, e.key)
    requires forall a :: !IsLiveSigner(t, a, e.account, e.fingerprint)
    ensures OwnCredentials(u) && OneLiveSigner(u) && OneEnrollment(u) && OneActiveAi(u)
  {
    forall a: Id, account: string, fingerprint: string | IsLiveSigner(u, a, account, fingerprint)
      ensures if a == id then account == e.account && fingerprint == e.fingerprint
              else IsLiveSigner(t, a, account, fingerprint) {}
    forall a: Id, account: string, key: string | HasKey(u, a, account, key)
      ensures if a == id then account == e.account && key == e.key else HasKey(t, a, account, key) {}
    forall a: Id, account: string, provider: string | IsActiveAi(u, a, account, provider)
      ensures IsActiveAi(t, a, account, provider)
    {}
  }

  /** Revoking the active key of a provider leaves none active. */
  lemma RevokeAiKeeps(t: Tables, account: string, provider: string)
    requires Linked(t)
    ensures Linked(AfterRevokeAi(t, account, provider)) && Advances(t, AfterRevokeAi(t, account, provider))
    ensures forall a :: !IsActiveAi(AfterRevokeAi(t, account, provider), a, account, provider)
  {
    hide First;
    var u := AfterRevokeAi(t, account, provider);
    var existing := ActiveAi(t, account, provider);
    AiScan(t, account, provider);
    assert u.walletOrder == t.walletOrder && u.wallets == t.wallets && u.credentialOrder == t.credentialOrder;
    assert RowsOk(u) by {
      forall id | id in u.wallets ensures RowOk(u, u.wallets[id]) { LinkedRow(t, id); }
    }
    forall a: Id, account: string, fingerprint: string | IsLiveSigner(u, a, account, fingerprint)
      ensures IsLiveSigner(t, a, account, fingerprint)
    {}
    forall a: Id, account: string, key: string | HasKey(u, a, account, key) ensures HasKey(t, a, account, key) {}
    forall a: Id, account: string, provider: string | IsActiveAi(u, a, account, provider)
      ensures IsActiveAi(t, a, account, provider)
    {}
  }

  lemma AiScan(t: Tables, account: string, provider: string)
    requires Linked(t)
    ensures var r := ActiveAi(t, account, provider);
            && (r.Some? ==> IsActiveAi(t, r.value, account, provider))
            && forall a: Id | IsActiveAi(t, a, account, provider) :: r == Some(a)
  {
    var r := ActiveAi(t, account, provider);
    forall a | IsActiveAi(t, a, account, provider) ensures r == Some(a) {
      assert a in t.credentialOrder;
    }
  }

  lemma StoreAiKeeps(t: Tables, account: string, provider: string, fingerprint: string, id: Id)
    requires Linked(t) && id !in t.credentials
    ensures Linked(AfterStoreAi(t, account, provider, fingerprint, id))
            && Advances(t, AfterStoreAi(t, account, provider, fingerprint, id))
  {
    hide First, ActiveAi;
    RevokeAiKeeps(t, account, provider);
    var m := AfterRevokeAi(t, account, provider);
    var u := AfterStoreAi(t, account, provider, fingerprint, id);
    assert m.credentials.Keys == t.credentials.Keys;
    assert u == AddCredential(m, id, u.credentials[id]);
    AddAiKeeps(m, id, u.credentials[id]);
  }

  lemma AddAiKeeps(m: Tables, id: Id, c: Credential)
    requires Linked(m) && id !in m.credentials && c.kind == AiApiKey && c.status == Active
    requires forall a :: !IsActiveAi(m, a, c.account, c.provider)
    ensures Linked(AddCredential(m, id, c)) && Advances(m, AddCredential(m, id, c))
  {
    var u := AddCredential(m, id, c);
    assert RowsOk(u) by {
      forall w | w in u.wallets ensures RowOk(u, u.wallets[w]) { LinkedRow(m, w); }
    }
    forall a: Id, account: string, fingerprint: string | IsLiveSigner(u, a, account, fingerprint)
      ensures IsLiveSigner(m, a, account, fingerprint) { LinkedRow(m, a); }
    forall a: Id, account: string, key: string | HasKey(u, a, account, key) ensures HasKey(m, a, account, key) {}
    forall a: Id, account: string, provider: string | IsActiveAi(u, a, account, provider)
      ensures if a == id then account == c.account && provider == c.provider else IsActiveAi(m, a, account, provider) {}
  }

  lemma StepKeeps(t: Tables, op: Op, now: Instant)
    requires Linked(t) && Legal(t, op)
    ensures Linked(Apply(t, op, now)) && Advances(t, Apply(t, op, now))
  {
    hide Linked, Advances;
    match op
    case StoreAi(account, provider, fingerprint, id) => StoreAiKeeps(t, account, provider, fingerprint, id);
    case RevokeAi(account, provider) => RevokeAiKeeps(t, account, provider);
    case Provision(account, owner, id) => ProvisionKeeps(t, account, owner, id, now);
    case Import(e, c, w) => ImportKeeps(t, e, c, w, now);
    case RequestRevoke(account, id) => RequestRevokeKeeps(t, account, id);
    case Claim(claimant, seconds) => ClaimKeeps(t, claimant, seconds, now);
    case Heartbeat(f, seconds) => HeartbeatKeeps(t, f, seconds, now);
    case Verify(f, v) => VerifyKeeps(t, f, v, now);
    case Fail(f, error, retryable) => FailKeeps(t, f, error, retryable, now);
    case Revoke(f) => RevocationKeeps(t, f, now);
    case Readiness(account, id, balance, allowances) => ReadinessKeeps(t, account, id, balance, allowances);
  }
}
