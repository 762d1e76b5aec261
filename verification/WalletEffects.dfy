/** What each repository operation does to the two tables, row by row, and what stays done (credentials.py). */
module WalletEffects {
  import opened Wrappers
  import opened WalletTables
  import opened WalletRuns
  import opened WalletFencing

  /** Nothing but this wallet's row and its own signer credential may have changed. */
  ghost predicate OnlyWallet(t: Tables, u: Tables, id: Id) {
    && id in t.wallets && u.wallets.Keys == t.wallets.Keys && u.credentials.Keys == t.credentials.Keys
    && u.walletOrder == t.walletOrder && u.credentialOrder == t.credentialOrder
    && (forall w | w in t.wallets && w != id :: u.wallets[w] == t.wallets[w])
    && (forall c | c in t.credentials && t.wallets[id].credential != Some(c) :: u.credentials[c] == t.credentials[c])
  }

  /** The wallet and its signer credential both have this status. */
  ghost predicate BothAre(t: Tables, id: Id, s: Status) {
    && id in t.wallets && t.wallets[id].status == s
    && (t.wallets[id].credential.Some? ==>
          t.wallets[id].credential.value in t.credentials && t.credentials[t.wallets[id].credential.value].status == s)
  }

  predicate Free(t: Tables, id: Id) {
    id in t.wallets && t.wallets[id].claimedBy.None? && t.wallets[id].expires.None?
  }

  // ---- leases

  /** A lease is held exactly until it expires, by one fence, and while it is held nobody can claim the wallet. */
  lemma LeaseIsExclusive(t: Tables, f: Fence, now: Instant)
    requires Held(t, f, now)
    ensures t.wallets[f.wallet].expires.Some? && !Eligible(t, f.wallet, now)
    ensures forall later: Instant :: Held(t, f, later) <==> later < t.wallets[f.wallet].expires.value
    ensures forall g: Fence, later: Instant | g.wallet == f.wallet && Held(t, g, later) :: g == f
  {}

  /** A wallet can be claimed exactly while it is pending with attempts to spare and no fence holds it. */
  lemma ClaimableExactly(t: Tables, id: Id, now: Instant)
    requires Linked(t) && id in t.wallets
    ensures Eligible(t, id, now) <==>
              && t.wallets[id].status in {PendingVerification, RevocationPending} && t.wallets[id].attempts < 5
              && forall f: Fence | f.wallet == id :: !Held(t, f, now)
  {
    var w := t.wallets[id];
    LinkedRow(t, id);
    if w.claimedBy.Some? && w.expires.value > now {
      assert Held(t, Fence(w.account, id, w.claimedBy.value, w.token), now);
    }
  }

  /** The wallet a claim hands out: eligible, revocations before verifications, then the oldest, then the first listed;
      the claimant holds it from now on for the time asked for, under the next token. */
  lemma ClaimTakesTheFirst(t: Tables, claimant: string, seconds: int, now: Instant)
    requires Linked(t) && claimant != "" && 10 <= seconds <= 300
    ensures var best := Claimed(t, Claim(claimant, seconds), now);
            var u := Apply(t, Claim(claimant, seconds), now);
            if best.None? then u == t && forall id | id in t.wallets :: !Eligible(t, id, now)
            else
              var w := t.wallets[best.value];
              var f := Fence(w.account, best.value, claimant, w.token + 1);
              && OnlyWallet(t, u, best.value) && Eligible(t, best.value, now) && u.credentials == t.credentials
              && (forall id | id in t.wallets && Eligible(t, id, now) ::
                    && (t.wallets[id].status == RevocationPending ==> w.status == RevocationPending)
                    && (t.wallets[id].status == w.status ==> w.createdAt <= t.wallets[id].createdAt))
              && (forall later: Instant :: Held(u, f, later) <==> later < now + seconds as real)
              && u.wallets[best.value].status == w.status
  {
    hide Linked, RowOk;
    BestIsFirst(t, t.walletOrder, now);
    assert forall id | id in t.wallets :: id in t.walletOrder by { CompleteScan(t); }
  }

  lemma CompleteScan(t: Tables)
    requires Linked(t)
    ensures forall id :: id in t.walletOrder <==> id in t.wallets
  {}

  lemma {:induction false} BestIsFirst(t: Tables, order: seq<Id>, now: Instant)
    ensures var best := Best(t, order, now);
            best.Some? ==>
              && best.value in t.wallets
              && forall id | id in order && Eligible(t, id, now) ::
                   && (t.wallets[id].status == RevocationPending ==> t.wallets[best.value].status == RevocationPending)
                   && (t.wallets[id].status == t.wallets[best.value].status ==>
                         t.wallets[best.value].createdAt <= t.wallets[id].createdAt)
  {
    if order != [] {
      BestIsFirst(t, order[..|order| - 1], now);
      assert order == order[..|order| - 1] + [order[|order| - 1]];
    }
  }

  /** A heartbeat by the holder moves the end of the lease to the given time from now, and nothing else. */
  lemma HeartbeatExtends(t: Tables, f: Fence, seconds: int, now: Instant)
    requires Held(t, f, now) && 10 <= seconds <= 300
    ensures var u := Apply(t, Heartbeat(f, seconds), now);
            && OnlyWallet(t, u, f.wallet) && u.credentials == t.credentials
            && (forall later: Instant :: Held(u, f, later) <==> later < now + seconds as real)
            && u.wallets[f.wallet].(expires := t.wallets[f.wallet].expires) == t.wallets[f.wallet]
  {}

  /** The holder of a pending wallet, and nobody else, is given its signer credential. */
  lemma EnvelopeExactly(t: Tables, f: Fence, now: Instant)
    requires Linked(t)
    ensures Envelope(t, f, now).Some?
            <==> Held(t, f, now) && (t.wallets[f.wallet].status == PendingVerification
                                     || t.wallets[f.wallet].status == RevocationPending)
    ensures Envelope(t, f, now).Some? ==> Envelope(t, f, now) == t.wallets[f.wallet].credential
  {
    hide Linked;
    if f.wallet in t.wallets { LinkedRow(t, f.wallet); }
  }

  // ---- verification

  /** A verification by the holder of a pending wallet activates wallet and credential and frees the lease. */
  lemma VerificationActivates(t: Tables, f: Fence, v: Verified, now: Instant)
    requires Linked(t) && Held(t, f, now) && t.wallets[f.wallet].status == PendingVerification
    requires v.chainId > 0 && IsAddress(Lower(v.collateral))
    ensures var u := Apply(t, Verify(f, v), now);
            && VerifyReply(t, f, v, now) == Done && OnlyWallet(t, u, f.wallet)
            && BothAre(u, f.wallet, Active) && Free(u, f.wallet)
            && u.wallets[f.wallet].verified.Some?
            && u.wallets[f.wallet].verified.value.(collateral := v.collateral) == v
            && |u.wallets[f.wallet].verified.value.collateral| == 42
            && forall c | c in u.wallets[f.wallet].verified.value.collateral :: !('A' <= c <= 'Z')
  {
    hide Linked, IsAddress, Lower;
    LinkedRow(t, f.wallet);
    Lowered(v.collateral);
  }

  lemma Lowered(s: string)
    ensures |Lower(s)| == |s| && forall c | c in Lower(s) :: !('A' <= c <= 'Z')
    ensures IsAddress(Lower(s)) ==> |Lower(s)| == 42
    ensures forall i | 0 <= i < |s| && !('A' <= s[i] <= 'Z') :: Lower(s)[i] == s[i]
  {}

  /** Anything else that is presented for verification changes nothing. */
  lemma VerificationRefused(t: Tables, f: Fence, v: Verified, now: Instant)
    requires Linked(t)
    ensures var u := Apply(t, Verify(f, v), now);
            var mine := Held(t, f, now) && t.wallets[f.wallet].status == PendingVerification;
            && (VerifyReply(t, f, v, now) == Refused <==> !mine)
            && (VerifyReply(t, f, v, now) == Invalid <==> mine && (v.chainId <= 0 || !IsAddress(Lower(v.collateral))))
            && (VerifyReply(t, f, v, now) != Done ==> u == t)
  {
    hide Linked, IsAddress, Lower;
    if f.wallet in t.wallets { LinkedRow(t, f.wallet); }
  }

  /** A failed verification is recorded and frees the lease. A permanent failure, or the fifth one, ends wallet and
      credential; any earlier one leaves both pending and the wallet open to the next claim at once. */
  lemma FailureEnds(t: Tables, f: Fence, error: string, retryable: bool, now: Instant)
    requires Linked(t) && Held(t, f, now) && t.wallets[f.wallet].status == PendingVerification
    ensures var u := Apply(t, Fail(f, error, retryable), now);
            && OnlyWallet(t, u, f.wallet) && Free(u, f.wallet) && u.wallets[f.wallet].lastError == Some(error)
            && u.wallets[f.wallet].attempts == t.wallets[f.wallet].attempts
            && (if !retryable || t.wallets[f.wallet].attempts >= 5
                then u.wallets[f.wallet].status == Failed
                     && u.credentials[t.wallets[f.wallet].credential.value].status == Revoked
                else BothAre(u, f.wallet, PendingVerification) && Eligible(u, f.wallet, now))
  {
    hide Linked;
    LinkedRow(t, f.wallet);
  }

  // ---- revocation

  /** What the owner's request does: an active wallet waits for its revocation, any other is revoked on the spot. */
  lemma RequestRevokes(t: Tables, id: Id, now: Instant)
    requires Linked(t) && id in t.wallets
    ensures var w := t.wallets[id];
            var u := Apply(t, RequestRevoke(w.account, id), now);
            && OnlyWallet(t, u, id)
            && (if w.status == Active || w.status == RevocationPending then BothAre(u, id, RevocationPending)
                else BothAre(u, id, Revoked) && Free(u, id) && u.wallets[id].verified.None?)
            && forall other: string | other != w.account :: Apply(t, RequestRevoke(other, id), now) == t
  {
    hide Linked;
    LinkedRow(t, id);
  }

  /** A completed revocation revokes wallet and credential and frees the lease. */
  lemma RevocationRevokes(t: Tables, f: Fence, now: Instant)
    requires Linked(t) && Held(t, f, now) && t.wallets[f.wallet].status == RevocationPending
    ensures var u := Apply(t, Revoke(f), now);
            OnlyWallet(t, u, f.wallet) && BothAre(u, f.wallet, Revoked) && Free(u, f.wallet)
  {
    hide Linked;
    LinkedRow(t, f.wallet);
  }

  /** What is over stays over: a revoked wallet keeps its status and its revoked credential, and neither it nor a failed
      one is ever claimed again. */
  lemma OverForever(states: seq<Tables>, ops: seq<Timed>, i: nat, j: nat, w: Id)
    requires Run(states, ops) && i <= j < |states| && w in states[i].wallets
    requires states[i].wallets[w].status == Revoked || states[i].wallets[w].status == Failed
    ensures w in states[j].wallets && (states[i].wallets[w].status == Revoked ==> BothAre(states[j], w, Revoked))
    ensures states[j].wallets[w].status == Revoked || states[j].wallets[w].status == Failed
    ensures j < |ops| ==> Claimed(states[j], ops[j].op, ops[j].now) != Some(w)
  {
    hide Apply, Legal, Linked, Best, Claimed;
    AdvancesOverRun(states, ops, i, j);
    LinkedAlways(states, ops, j);
    LinkedRow(states[j], w);
    if j < |ops| { ClaimedIsEligible(states[j], ops[j].op, ops[j].now); }
  }

  lemma ClaimedIsEligible(t: Tables, op: Op, now: Instant)
    ensures Claimed(t, op, now).Some? ==> Eligible(t, Claimed(t, op, now).value, now)
  {}

  /** FINALITY. Once the holder has completed a revocation, in every continuation wallet and credential are revoked, and
      the wallet is never claimed again. */
  lemma CompletedRevocationIsFinal(states: seq<Tables>, ops: seq<Timed>, i: nat, j: nat, f: Fence)
    requires Run(states, ops) && i < j < |states| && ops[i].op == Revoke(f) && Held(states[i], f, ops[i].now)
    requires states[i].wallets[f.wallet].status == RevocationPending
    ensures BothAre(states[j], f.wallet, Revoked)
    ensures j < |ops| ==> Claimed(states[j], ops[j].op, ops[j].now) != Some(f.wallet)
  {
    hide Apply, Legal, Linked, Best, Claimed;
    LinkedAlways(states, ops, i);
    RevocationRevokes(states[i], f, ops[i].now);
    OverForever(states, ops, i + 1, j, f.wallet);
  }

  // ---- enrollment

  /** The fingerprint of a wallet's signer, if it has one. */
  function SignerOf(t: Tables, id: Id): Option<string>
    requires id in t.wallets
  {
    var c := t.wallets[id].credential;
    if c.Some? && c.value in t.credentials then Some(t.credentials[c.value].fingerprint) else None
  }

  /** ONE OF EACH. In every run an account has one wallet per idempotency key, one wallet per signer among those not yet
      over, and one active AI key per provider. */
  lemma OneOfEach(states: seq<Tables>, ops: seq<Timed>, i: nat, a: Id, b: Id)
    requires Run(states, ops) && i < |states|
    ensures var t, pending := states[i], {PendingVerification, Active, RevocationPending};
            if a !in t.wallets || b !in t.wallets || t.wallets[a].account != t.wallets[b].account then true
            else
              && (t.wallets[a].key.Some? && t.wallets[a].key == t.wallets[b].key ==> a == b)
              && (SignerOf(t, a).Some? && SignerOf(t, a) == SignerOf(t, b) ==>
                    (t.wallets[a].status in pending && t.wallets[b].status in pending ==> a == b))
    ensures var c := states[i].credentials;
            if a !in c || b !in c || c[a].account != c[b].account || c[a].provider != c[b].provider then true
            else c[a].kind == c[b].kind == AiApiKey && c[a].status == c[b].status == Active ==> a == b
  {
    hide Run, Apply, RowOk;
    LinkedAlways(states, ops, i);
    var t := states[i];
    if a in t.wallets && b in t.wallets && t.wallets[a].account == t.wallets[b].account {
      var account := t.wallets[a].account;
      if t.wallets[a].key.Some? && t.wallets[a].key == t.wallets[b].key {
        assert HasKey(t, a, account, t.wallets[a].key.value) && HasKey(t, b, account, t.wallets[a].key.value);
      }
      if SignerOf(t, a).Some? && SignerOf(t, a) == SignerOf(t, b) && Live(t.wallets[a].status)
         && Live(t.wallets[b].status) {
        var signer := SignerOf(t, a).value;
        assert IsLiveSigner(t, a, account, signer) && IsLiveSigner(t, b, account, signer);
      }
    }
    var c := t.credentials;
    if a in c && b in c && c[a].account == c[b].account && c[a].provider == c[b].provider
       && c[a].kind == c[b].kind == AiApiKey && c[a].status == c[b].status == Active {
      assert IsActiveAi(t, a, c[a].account, c[a].provider) && IsActiveAi(t, b, c[a].account, c[a].provider);
    }
  }

  /** An import that creates adds exactly a pending wallet and its pending signer credential, both new. */
  lemma ImportAdds(t: Tables, e: Enrollment, c: Id, id: Id, now: Instant)
    requires Linked(t) && c !in t.credentials && id !in t.wallets && ImportReplyOf(t, e, id).Created?
    ensures var u := Apply(t, Import(e, c, id), now);
            && ImportReplyOf(t, e, id) == Created(id)
            && u.wallets.Keys == t.wallets.Keys + {id} && u.credentials.Keys == t.credentials.Keys + {c}
            && (forall w | w in t.wallets :: u.wallets[w] == t.wallets[w])
            && (forall k | k in t.credentials :: u.credentials[k] == t.credentials[k])
            && BothAre(u, id, PendingVerification) && Eligible(u, id, now) && u.wallets[id].credential == Some(c)
            && u.wallets[id].account == e.account && u.wallets[id].owner == e.owner && u.wallets[id].createdAt == now
            && u.wallets[id].signatureType == e.signatureType && u.wallets[id].key == Some(e.key)
            && u.wallets[id].token == 0 && u.wallets[id].attempts == 0
            && u.credentials[c].account == e.account && u.credentials[c].fingerprint == e.fingerprint
  {
    hide ImportReplyOf;
    CreatedIsNew(t, e, id);
  }

  lemma CreatedIsNew(t: Tables, e: Enrollment, id: Id)
    ensures ImportReplyOf(t, e, id).Created? ==> ImportReplyOf(t, e, id).wallet == id
  {
    hide First;
  }

  /** The same input as an existing wallet: same signer, same kind of signature, same owner. */
  predicate SameInput(t: Tables, w: Id, e: Enrollment) {
    && w in t.wallets && t.wallets[w].account == e.account && HasFingerprint(t, t.wallets[w], e.fingerprint)
    && t.wallets[w].signatureType == e.signatureType && t.wallets[w].owner == e.owner
  }

  /** An import with a key that was used answers the wallet it was used for exactly when the input is the same, and
      conflicts otherwise; with a new key, a live wallet of the signer decides the same way. */
  lemma ImportRepeats(t: Tables, e: Enrollment, w: Id, newWallet: Id)
    requires Linked(t)
    requires HasKey(t, w, e.account, e.key)
             || (IsLiveSigner(t, w, e.account, e.fingerprint) && forall v :: !HasKey(t, v, e.account, e.key))
    ensures ImportReplyOf(t, e, newWallet) == if SameInput(t, w, e) then Existing(w) else Conflict
  {
    hide HasFingerprint;
    var same := First(t.walletOrder, (id: Id) => HasKey(t, id, e.account, e.key));
    var duplicate := First(t.walletOrder, (id: Id) => IsLiveSigner(t, id, e.account, e.fingerprint));
    assert w in t.walletOrder;
    if HasKey(t, w, e.account, e.key) {
      assert same == Some(w);
    } else {
      assert same.None? && duplicate == Some(w);
      assert HasFingerprint(t, t.wallets[w], e.fingerprint);
    }
  }

  /** IDEMPOTENCE. Right after an import created a wallet, the same import again answers that wallet. */
  lemma ImportTwice(t: Tables, e: Enrollment, c: Id, id: Id, again: Id, now: Instant)
    requires Linked(t) && c !in t.credentials && id !in t.wallets && ImportReplyOf(t, e, id).Created?
    ensures ImportReplyOf(Apply(t, Import(e, c, id), now), e, again) == Existing(id)
  {
    hide Linked, ImportReplyOf;
    var u := Apply(t, Import(e, c, id), now);
    ImportAdds(t, e, c, id, now);
    ImportKeeps(t, e, c, id, now);
    ImportRepeats(u, e, id, again);
  }

  /** A new AI key is the one active key of its provider, its version follows the former one's, and that one is revoked;
      keys of other providers and accounts stay as they are. */
  lemma StoreAiRotates(t: Tables, account: string, provider: string, fingerprint: string, id: Id, now: Instant)
    requires Linked(t) && id !in t.credentials
    ensures var u := Apply(t, StoreAi(account, provider, fingerprint, id), now);
            && (forall a :: IsActiveAi(u, a, account, provider) <==> a == id) && u.wallets == t.wallets
            && u.credentials[id].fingerprint == fingerprint
            && (forall a | IsActiveAi(t, a, account, provider) ::
                  a in u.credentials && u.credentials[a].status == Revoked
                  && u.credentials[id].version == t.credentials[a].version + 1)
            && ((forall a :: !IsActiveAi(t, a, account, provider)) ==> u.credentials[id].version == 1)
            && forall a | a in t.credentials && !IsActiveAi(t, a, account, provider) ::
                 a in u.credentials && u.credentials[a] == t.credentials[a]
  {
    hide First, Linked, ActiveAi;
    AiScan(t, account, provider);
    var u, existing := Apply(t, StoreAi(account, provider, fingerprint, id), now), ActiveAi(t, account, provider);
    forall a | a in t.credentials
      ensures u.credentials[a] == if existing == Some(a) then t.credentials[a].(status := Revoked) else t.credentials[a]
    {}
    forall a ensures IsActiveAi(u, a, account, provider) <==> a == id {
      if a != id && a in t.credentials { assert IsActiveAi(t, a, account, provider) <==> existing == Some(a); }
    }
  }

  /** Revoking a provider's key touches that key alone. */
  lemma RevokeAiTouchesOne(t: Tables, account: string, provider: string, now: Instant)
    requires Linked(t)
    ensures var u := Apply(t, RevokeAi(account, provider), now);
            && u.wallets == t.wallets && u.credentials.Keys == t.credentials.Keys
            && forall a | a in t.credentials ::
                 u.credentials[a] == if IsActiveAi(t, a, account, provider) then t.credentials[a].(status := Revoked)
                                     else t.credentials[a]
  {
    hide First, Linked, ActiveAi;
    AiScan(t, account, provider);
  }

  /** A readiness report reaches exactly the active wallets of the account it names. */
  lemma ReadinessRecorded(t: Tables, account: string, id: Id, balance: real, allowances: bool, now: Instant)
    requires id in t.wallets
    ensures var u := Apply(t, Readiness(account, id, balance, allowances), now);
            if t.wallets[id].account == account && t.wallets[id].status == Active
            then OnlyWallet(t, u, id) && u.credentials == t.credentials
                 && u.wallets[id] == t.wallets[id].(readiness := Some((balance, allowances)))
            else u == t
  {}

  /** A provisioned wallet is new, unclaimed and without a signer; nothing can claim it. */
  lemma ProvisionAdds(t: Tables, account: string, owner: Option<string>, id: Id, now: Instant)
    requires id !in t.wallets
    ensures var u := Apply(t, Provision(account, owner, id), now);
            && u.wallets.Keys == t.wallets.Keys + {id} && u.credentials == t.credentials
            && (forall w | w in t.wallets :: u.wallets[w] == t.wallets[w])
            && BothAre(u, id, Provisioning) && Free(u, id) && !Eligible(u, id, now)
            && u.wallets[id].account == account && u.wallets[id].owner == owner && u.wallets[id].credential.None?
  {}
}
