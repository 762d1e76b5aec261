/** The in-memory credential repository (credentials.py), updated in place; each method against its table function. */
module WalletRepository {
  import opened Wrappers
  import opened WalletTables

  class Repository {
    var walletOrder: seq<Id>
    var wallets: map<Id, Wallet>
    var credentialOrder: seq<Id>
    var credentials: map<Id, Credential>

    function Now(): Tables
      reads this
    {
      Tables(walletOrder, wallets, credentialOrder, credentials)
    }

    /** Every identifier a scan visits has a row. */
    ghost predicate Valid()
      reads this
    {
      (forall id | id in walletOrder :: id in wallets) && (forall id | id in credentialOrder :: id in credentials)
    }

    constructor ()
      ensures Valid() && Now() == EMPTY
    {
      walletOrder, wallets, credentialOrder, credentials := [], map[], [], map[];
    }

    /** The generator expressions of the source: the first row that matches. */
    method Scan(order: seq<Id>, matches: Id -> bool) returns (r: Option<Id>)
      ensures r == First(order, matches)
    {
      for i := 0 to |order|
        invariant First(order, matches) == First(order[i..], matches)
      {
        if matches(order[i]) { return Some(order[i]); }
        assert order[i..][1..] == order[i + 1..];
      }
      return None;
    }

    method SetCredentialStatus(id: Option<Id>, s: Status)
      requires Valid()
      modifies this`credentials
      ensures Valid() && Now() == SetCredential(old(Now()), id, s)
    {
      if id.Some? && id.value in credentials {
        credentials := credentials[id.value := credentials[id.value].(status := s)];
      }
    }

    method StoreAi(account: string, provider: string, fingerprint: string, newId: Id) returns (version: nat)
      requires Valid() && newId !in credentials
      modifies this
      ensures Valid() && Now() == AfterStoreAi(old(Now()), account, provider, fingerprint, newId)
      ensures version == credentials[newId].version
    {
      var tables := Now();
      var existing := Scan(credentialOrder, (id: Id) => IsActiveAi(tables, id, account, provider));
      assert existing == ActiveAi(tables, account, provider);
      version := 1;
      if existing.Some? {
        version := credentials[existing.value].version + 1;
        SetCredentialStatus(existing, Revoked);
      }
      credentialOrder := credentialOrder + [newId];
      credentials := credentials[newId := Credential(account, AiApiKey, provider, Active, fingerprint, version)];
    }

    method RevokeAi(account: string, provider: string) returns (revoked: Option<Id>)
      requires Valid()
      modifies this
      ensures Valid() && Now() == AfterRevokeAi(old(Now()), account, provider)
      ensures revoked == ActiveAi(old(Now()), account, provider)
    {
      var tables := Now();
      revoked := Scan(credentialOrder, (id: Id) => IsActiveAi(tables, id, account, provider));
      assert revoked == ActiveAi(tables, account, provider);
      SetCredentialStatus(revoked, Revoked);
    }

    method ProvisionWallet(account: string, owner: Option<string>, newId: Id, now: Instant)
      requires Valid() && newId !in wallets
      modifies this
      ensures Valid() && Now() == AfterProvision(old(Now()), account, owner, newId, now)
    {
      walletOrder := walletOrder + [newId];
      wallets := wallets[newId := NewWallet(account, owner, 3, None, Provisioning, None, now)];
    }

    method ImportWallet(e: Enrollment, newCredential: Id, newWallet: Id, now: Instant) returns (r: ImportReply)
      requires Valid() && newCredential !in credentials && newWallet !in wallets
      modifies this
      ensures Valid() && Now() == AfterImport(old(Now()), e, newCredential, newWallet, now)
      ensures r == ImportReplyOf(old(Now()), e, newWallet)
    {
      var tables := Now();
      var idempotent := Scan(walletOrder, (id: Id) => HasKey(tables, id, e.account, e.key));
      assert idempotent == First(walletOrder, (id: Id) => HasKey(tables, id, e.account, e.key));
      if idempotent.Some? {
        var w := wallets[idempotent.value];
        if !HasFingerprint(tables, w, e.fingerprint) || w.signatureType != e.signatureType || w.owner != e.owner {
          return Conflict;
        }
        return Existing(idempotent.value);
      }
      var duplicate := Scan(walletOrder, (id: Id) => IsLiveSigner(tables, id, e.account, e.fingerprint));
      assert duplicate == First(walletOrder, (id: Id) => IsLiveSigner(tables, id, e.account, e.fingerprint));
      if duplicate.Some? {
        var w := wallets[duplicate.value];
        if w.signatureType != e.signatureType || w.owner != e.owner { return Conflict; }
        return Existing(duplicate.value);
      }
      credentialOrder := credentialOrder + [newCredential];
      credentials := credentials[newCredential :=
                                 Credential(e.account, SignerKey, "polymarket", PendingVerification, e.fingerprint, 1)];
      walletOrder := walletOrder + [newWallet];
      wallets := wallets[newWallet :=
        NewWallet(e.account, e.owner, e.signatureType, Some(e.key), PendingVerification, Some(newCredential), now)];
      r := Created(newWallet);
    }

    method RequestWalletRevoke(account: string, id: Id) returns (found: bool)
      requires Valid()
      modifies this
      ensures Valid() && Now() == AfterRequestRevoke(old(Now()), account, id)
      ensures found <==> id in old(wallets) && old(wallets)[id].account == account
    {
      if id !in wallets || wallets[id].account != account { return false; }
      var w := wallets[id];
      if w.status == Active || w.status == RevocationPending {
        wallets := wallets[id := w.(status := RevocationPending)];
        SetCredentialStatus(w.credential, RevocationPending);
      } else {
        wallets := wallets[id := w.(status := Revoked, verified := None, claimedBy := None, expires := None)];
        SetCredentialStatus(w.credential, Revoked);
      }
      found := true;
    }

    /** `sorted(eligible)[0]`: one pass that keeps the smallest row, the earliest among equals. */
    method FirstEligible(now: Instant) returns (best: Option<Id>)
      requires Valid()
      ensures best == Best(Now(), walletOrder, now)
    {
      best := None;
      for i := 0 to |walletOrder|
        invariant best == Best(Now(), walletOrder[..i], now)
      {
        var last := walletOrder[i];
        assert walletOrder[..i + 1][..i] == walletOrder[..i];
        if Eligible(Now(), last, now) && (best.None? || Before(wallets[last], wallets[best.value])) {
          best := Some(last);
        }
      }
      assert walletOrder[..|walletOrder|] == walletOrder;
    }

    /** Invalid where the source raises for a bad lease request. */
    method ClaimWalletLifecycle(owner: string, seconds: int, now: Instant) returns (r: Answer, claim: Option<Fence>)
      requires Valid()
      modifies this
      ensures Valid() && Now() == AfterClaim(old(Now()), owner, seconds, now)
      ensures r == Invalid <==> owner == "" || !ValidLease(seconds)
      ensures r != Invalid ==> (r == Done <==> claim.Some?)
      ensures r != Invalid ==> (r == Done <==> exists id :: id in old(walletOrder) && Eligible(old(Now()), id, now))
      ensures claim.Some? ==> Held(Now(), claim.value, now) && claim.value.owner == owner
                              && claim.value.wallet in old(wallets)
                                 && claim.value.token == old(wallets)[claim.value.wallet].token + 1
    {
      if owner == "" || !ValidLease(seconds) { return Invalid, None; }
      var best := FirstEligible(now);
      if best.None? { return Refused, None; }
      var w := wallets[best.value];
      wallets := wallets[best.value := ClaimedRow(w, owner, seconds, now)];
      r, claim := Done, Some(Fence(w.account, best.value, owner, w.token + 1));
    }

    method GetWalletLifecycleEnvelope(f: Fence, now: Instant) returns (r: Option<Id>)
      requires Valid()
      ensures r == Envelope(Now(), f, now)
    {
      if !Held(Now(), f, now) { return None; }
      var w := wallets[f.wallet];
      if !(w.status == PendingVerification || w.status == RevocationPending) { return None; }
      if w.credential.None? || w.credential.value !in credentials
          || credentials[w.credential.value].status != w.status {
        return None;
      }
      r := w.credential;
    }

    method HeartbeatWalletLifecycle(f: Fence, seconds: int, now: Instant) returns (ok: bool)
      requires Valid()
      modifies this
      ensures Valid() && Now() == AfterHeartbeat(old(Now()), f, seconds, now)
      ensures ok <==> HeartbeatOk(old(Now()), f, seconds, now)
    {
      if !Held(Now(), f, now) || !ValidLease(seconds) { return false; }
      wallets := wallets[f.wallet := wallets[f.wallet].(expires := Some(now + seconds as real))];
      ok := true;
    }

    method CompleteWalletVerification(f: Fence, v: Verified, now: Instant) returns (r: Answer)
      requires Valid()
      modifies this
      ensures Valid() && Now() == AfterVerify(old(Now()), f, v, now) && r == VerifyReply(old(Now()), f, v, now)
    {
      if !Held(Now(), f, now) || wallets[f.wallet].status != PendingVerification { return Refused; }
      var w := wallets[f.wallet];
      if w.credential.None? || w.credential.value !in credentials
          || credentials[w.credential.value].status != PendingVerification {
        return Refused;
      }
      if v.chainId <= 0 { return Invalid; }
      var collateral := Lower(v.collateral);
      if !IsAddress(collateral) { return Invalid; }
      SetCredentialStatus(w.credential, Active);
      wallets := wallets[f.wallet :=
        w.(verified := Some(v.(collateral := collateral)), status := Active, claimedBy := None, expires := None)];
      r := Done;
    }

    method FailWalletVerification(f: Fence, error: string, retryable: bool, now: Instant) returns (r: Answer)
      requires Valid()
      modifies this
      ensures Valid() && Now() == AfterFail(old(Now()), f, error, retryable, now)
      ensures r == if FailOk(old(Now()), f, now) then Done else Refused
    {
      if !Held(Now(), f, now) || wallets[f.wallet].status != PendingVerification { return Refused; }
      var w := wallets[f.wallet];
      var terminal := !retryable || w.attempts >= MAX_ATTEMPTS;
      wallets := wallets[f.wallet :=
        w.(status := if terminal then Failed else PendingVerification, lastError := Some(error), claimedBy := None,
           expires := None)];
      if terminal { SetCredentialStatus(w.credential, Revoked); }
      r := Done;
    }

    method CompleteWalletRevocation(f: Fence, now: Instant) returns (r: Answer)
      requires Valid()
      modifies this
      ensures Valid() && Now() == AfterRevocation(old(Now()), f, now)
      ensures r == if RevokeOk(old(Now()), f, now) then Done else Refused
    {
      if !Held(Now(), f, now) || wallets[f.wallet].status != RevocationPending { return Refused; }
      var w := wallets[f.wallet];
      wallets := wallets[f.wallet := w.(status := Revoked, claimedBy := None, expires := None)];
      SetCredentialStatus(w.credential, Revoked);
      r := Done;
    }

    method RecordWalletReadiness(account: string, id: Id, balance: real, allowances: bool) returns (ok: bool)
      requires Valid()
      modifies this
      ensures Valid() && Now() == AfterReadiness(old(Now()), account, id, balance, allowances)
      ensures ok <==> ReadyOk(old(Now()), account, id)
    {
      if id !in wallets || wallets[id].account != account || wallets[id].status != Active { return false; }
      wallets := wallets[id := wallets[id].(readiness := Some((balance, allowances)))];
      ok := true;
    }
  }
}
