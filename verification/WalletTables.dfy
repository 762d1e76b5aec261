/** The two linked tables of the credential repository and what each operation does to them (credentials.py). */
module WalletTables {
  import opened Wrappers

  type Id = nat
  type Instant = real

  datatype Status = Provisioning | PendingVerification | Active | RevocationPending | Failed | Revoked

  datatype Kind = AiApiKey | SignerKey

  datatype Credential = Credential(account: string, kind: Kind, provider: string, status: Status, fingerprint: string,
                                   version: nat)

  datatype Verified = Verified(signer: string, deposit: string, chainId: int, collateral: string)

  datatype Wallet = Wallet(
    account: string, owner: Option<string>, signatureType: int, key: Option<string>, status: Status,
    credential: Option<Id>, verified: Option<Verified>, readiness: Option<(real, bool)>,
    claimedBy: Option<string>, token: nat, expires: Option<Instant>, attempts: nat, lastError: Option<string>,
    createdAt: Instant)

  /** Rows by identifier, with the insertion order in which a scan visits them. */
  datatype Tables = Tables(walletOrder: seq<Id>, wallets: map<Id, Wallet>, credentialOrder: seq<Id>,
                           credentials: map<Id, Credential>)

  const EMPTY := Tables([], map[], [], map[])

  /** What a worker presents with every call on a wallet it claimed. */
  datatype Fence = Fence(account: string, wallet: Id, owner: string, token: nat)

  const MAX_ATTEMPTS: nat := 5

  predicate ValidLease(seconds: int) { 10 <= seconds <= 300 }

  predicate Live(s: Status) { s == PendingVerification || s == Active || s == RevocationPending }

  /** The first identifier of a scan that matches. */
  function First(order: seq<Id>, matches: Id -> bool): (r: Option<Id>)
    ensures r.Some? ==> r.value in order && matches(r.value)
    ensures r.None? ==> forall id | id in order :: !matches(id)
  {
    if order == [] then None else if matches(order[0]) then Some(order[0]) else First(order[1..], matches)
  }

  predicate IsActiveAi(t: Tables, id: Id, account: string, provider: string) {
    id in t.credentials
    && var c := t.credentials[id];
       c.account == account && c.kind == AiApiKey && c.provider == provider && c.status == Active
  }

  predicate HasKey(t: Tables, id: Id, account: string, key: string) {
    id in t.wallets && t.wallets[id].account == account && t.wallets[id].key == Some(key)
  }

  predicate HasFingerprint(t: Tables, w: Wallet, fingerprint: string) {
    w.credential.Some? && w.credential.value in t.credentials
        && t.credentials[w.credential.value].fingerprint == fingerprint
  }

  predicate IsLiveSigner(t: Tables, id: Id, account: string, fingerprint: string) {
    id in t.wallets && t.wallets[id].account == account && HasFingerprint(t, t.wallets[id], fingerprint)
        && Live(t.wallets[id].status)
  }

  function ActiveAi(t: Tables, account: string, provider: string): Option<Id> {
    First(t.credentialOrder, (id: Id) => IsActiveAi(t, id, account, provider))
  }

  function SetCredential(t: Tables, id: Option<Id>, s: Status): Tables {
    if id.Some? && id.value in t.credentials
    then t.(credentials := t.credentials[id.value := t.credentials[id.value].(status := s)]) else t
  }

  function SetWallet(t: Tables, id: Id, w: Wallet): Tables { t.(wallets := t.wallets[id := w]) }

  function AddCredential(t: Tables, id: Id, c: Credential): Tables {
    t.(credentialOrder := t.credentialOrder + [id], credentials := t.credentials[id := c])
  }

  function AddWallet(t: Tables, id: Id, w: Wallet): Tables {
    t.(walletOrder := t.walletOrder + [id], wallets := t.wallets[id := w])
  }

  function AfterStoreAi(t: Tables, account: string, provider: string, fingerprint: string, newId: Id): Tables {
    var existing := ActiveAi(t, account, provider);
    var version := if existing.Some? && existing.value in t.credentials then t.credentials[existing.value].version + 1
        else 1;
    AddCredential(SetCredential(t, existing, Revoked), newId,
                  Credential(account, AiApiKey, provider, Active, fingerprint, version))
  }

  function AfterRevokeAi(t: Tables, account: string, provider: string): Tables {
    SetCredential(t, ActiveAi(t, account, provider), Revoked)
  }

  function NewWallet(account: string, owner: Option<string>, signatureType: int, key: Option<string>, status: Status,
                     credential: Option<Id>, now: Instant): Wallet {
    Wallet(account, owner, signatureType, key, status, credential, None, None, None, 0, None, 0, None, now)
  }

  function AfterProvision(t: Tables, account: string, owner: Option<string>, newId: Id, now: Instant): Tables {
    AddWallet(t, newId, NewWallet(account, owner, 3, None, Provisioning, None, now))
  }

  datatype Enrollment = Enrollment(account: string, owner: Option<string>, signatureType: int, key: string,
                                   fingerprint: string)

  /** An import finds an earlier one under its key, or a live wallet of the same signer, or creates both rows. */
  datatype ImportReply = Existing(wallet: Id) | Conflict | Created(wallet: Id)

  function ImportReplyOf(t: Tables, e: Enrollment, newWallet: Id): ImportReply {
    var same := First(t.walletOrder, (id: Id) => HasKey(t, id, e.account, e.key));
    var duplicate := First(t.walletOrder, (id: Id) => IsLiveSigner(t, id, e.account, e.fingerprint));
    if same.Some? && same.value in t.wallets then
      var w := t.wallets[same.value];
      if HasFingerprint(t, w, e.fingerprint) && w.signatureType == e.signatureType && w.owner == e.owner
      then Existing(same.value) else Conflict
    else if duplicate.Some? && duplicate.value in t.wallets then
      var w := t.wallets[duplicate.value];
      if w.signatureType == e.signatureType && w.owner == e.owner then Existing(duplicate.value) else Conflict
    else Created(newWallet)
  }

  function AfterImport(t: Tables, e: Enrollment, newCredential: Id, newWallet: Id, now: Instant): Tables {
    if !ImportReplyOf(t, e, newWallet).Created? then t
    else
      var signer := Credential(e.account, SignerKey, "polymarket", PendingVerification, e.fingerprint, 1);
      var w := NewWallet(e.account, e.owner, e.signatureType, Some(e.key), PendingVerification, Some(newCredential),
                         now);
      AddWallet(AddCredential(t, newCredential, signer), newWallet, w)
  }

  function AfterRequestRevoke(t: Tables, account: string, id: Id): Tables {
    if id !in t.wallets || t.wallets[id].account != account then t
    else
      var w := t.wallets[id];
      if w.status == Active || w.status == RevocationPending then
        SetCredential(SetWallet(t, id, w.(status := RevocationPending)), w.credential, RevocationPending)
      else
        SetCredential(SetWallet(t, id, w.(status := Revoked, verified := None, claimedBy := None, expires := None)),
                      w.credential, Revoked)
  }

  /** No holder, or a lease that has run out. */
  predicate Unheld(w: Wallet, now: Instant) {
    w.claimedBy.None? || w.expires.None? || w.expires.value <= now
  }

  predicate Eligible(t: Tables, id: Id, now: Instant) {
    id in t.wallets
    && var w := t.wallets[id];
       (w.status == PendingVerification || w.status == RevocationPending) && w.attempts < MAX_ATTEMPTS && Unheld(w, now)
  }

  /** Revocations first, then the older row. */
  predicate Before(v: Wallet, w: Wallet) {
    if v.status == RevocationPending && w.status != RevocationPending then true
    else if v.status != RevocationPending && w.status == RevocationPending then false
    else v.createdAt < w.createdAt
  }

  /** The first element of the stably sorted eligible rows. */
  function Best(t: Tables, order: seq<Id>, now: Instant): (r: Option<Id>)
    ensures r.Some? ==> r.value in order && Eligible(t, r.value, now)
    ensures r.None? ==> forall id | id in order :: !Eligible(t, id, now)
  {
    if order == [] then None
    else
      var best, last := Best(t, order[..|order| - 1], now), order[|order| - 1];
      if !Eligible(t, last, now) then best
      else if best.None? || Before(t.wallets[last], t.wallets[best.value]) then Some(last) else best
  }

  function ClaimedRow(w: Wallet, owner: string, seconds: int, now: Instant): Wallet {
    w.(claimedBy := Some(owner), token := w.token + 1, expires := Some(now + seconds as real),
       attempts := if w.status == PendingVerification then w.attempts + 1 else w.attempts)
  }

  function AfterClaim(t: Tables, owner: string, seconds: int, now: Instant): Tables {
    var best := Best(t, t.walletOrder, now);
    if owner == "" || !ValidLease(seconds) || best.None? then t
    else SetWallet(t, best.value, ClaimedRow(t.wallets[best.value], owner, seconds, now))
  }

  /** The fence every worker call passes through. */
  predicate Held(t: Tables, f: Fence, now: Instant) {
    f.wallet in t.wallets
    && var w := t.wallets[f.wallet];
       w.account == f.account && w.claimedBy == Some(f.owner) && w.token == f.token && w.expires.Some?
           && w.expires.value > now
  }

  function Envelope(t: Tables, f: Fence, now: Instant): Option<Id> {
    if !Held(t, f, now) then None
    else
      var w := t.wallets[f.wallet];
      if !(w.status == PendingVerification || w.status == RevocationPending) || w.credential.None?
         || w.credential.value !in t.credentials || t.credentials[w.credential.value].status != w.status
      then None else w.credential
  }

  predicate HeartbeatOk(t: Tables, f: Fence, seconds: int, now: Instant) { Held(t, f, now) && ValidLease(seconds) }

  function AfterHeartbeat(t: Tables, f: Fence, seconds: int, now: Instant): Tables {
    if HeartbeatOk(t, f, seconds, now)
    then SetWallet(t, f.wallet, t.wallets[f.wallet].(expires := Some(now + seconds as real))) else t
  }

  function Lower(s: string): string {
    seq(|s|, i requires 0 <= i < |s| => if 'A' <= s[i] <= 'Z' then (s[i] as int - 'A' as int + 'a' as int) as char
        else s[i])
  }

  predicate IsAddress(s: string) {
    |s| == 42 && s[0] == '0' && s[1] == 'x'
    && forall i | 2 <= i < 42 :: '0' <= s[i] <= '9' || 'a' <= s[i] <= 'f' || 'A' <= s[i] <= 'F'
  }

  datatype Answer = Refused | Invalid | Done

  function VerifyReply(t: Tables, f: Fence, v: Verified, now: Instant): Answer {
    if !Held(t, f, now) || t.wallets[f.wallet].status != PendingVerification then Refused
    else
      var c := t.wallets[f.wallet].credential;
      if c.None? || c.value !in t.credentials || t.credentials[c.value].status != PendingVerification then Refused
      else if v.chainId <= 0 || !IsAddress(Lower(v.collateral)) then Invalid else Done
  }

  function AfterVerify(t: Tables, f: Fence, v: Verified, now: Instant): Tables {
    if VerifyReply(t, f, v, now) != Done then t
    else
      var w := t.wallets[f.wallet];
      var done := w.(verified := Some(v.(collateral := Lower(v.collateral))), status := Active, claimedBy := None,
                     expires := None);
      SetCredential(SetWallet(t, f.wallet, done), w.credential, Active)
  }

  predicate FailOk(t: Tables, f: Fence, now: Instant) {
    Held(t, f, now) && t.wallets[f.wallet].status == PendingVerification
  }

  function AfterFail(t: Tables, f: Fence, error: string, retryable: bool, now: Instant): Tables {
    if !FailOk(t, f, now) then t
    else
      var w := t.wallets[f.wallet];
      var terminal := !retryable || w.attempts >= MAX_ATTEMPTS;
      var failed := w.(status := if terminal then Failed else PendingVerification, lastError := Some(error),
                       claimedBy := None, expires := None);
      if terminal then SetCredential(SetWallet(t, f.wallet, failed), w.credential, Revoked)
          else SetWallet(t, f.wallet, failed)
  }

  predicate RevokeOk(t: Tables, f: Fence, now: Instant) {
    Held(t, f, now) && t.wallets[f.wallet].status == RevocationPending
  }

  function AfterRevocation(t: Tables, f: Fence, now: Instant): Tables {
    if !RevokeOk(t, f, now) then t
    else
      var w := t.wallets[f.wallet];
      SetCredential(SetWallet(t, f.wallet, w.(status := Revoked, claimedBy := None, expires := None)), w.credential,
                    Revoked)
  }

  predicate ReadyOk(t: Tables, account: string, id: Id) {
    id in t.wallets && t.wallets[id].account == account && t.wallets[id].status == Active
  }

  function AfterReadiness(t: Tables, account: string, id: Id, balance: real, allowances: bool): Tables {
    if ReadyOk(t, account, id) then SetWallet(t, id, t.wallets[id].(readiness := Some((balance, allowances)))) else t
  }
}
