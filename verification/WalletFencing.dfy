/** Fencing, bounded claims and the stuck revocation, over all runs of the credential repository (credentials.py). */
module WalletFencing {
  import opened Wrappers
  import opened WalletTables
  import opened WalletRuns

  lemma {:induction false} LinkedAlways(states: seq<Tables>, ops: seq<Timed>, i: nat)
    requires Run(states, ops) && i < |states|
    ensures Linked(states[i])
  {
    hide Linked, Advances, Apply, Legal;
    if i > 0 {
      LinkedAlways(states, ops, i - 1);
      StepKeeps(states[i - 1], ops[i - 1].op, ops[i - 1].now);
    } else {
      EmptyLinked();
    }
  }

  lemma EmptyLinked()
    ensures Linked(EMPTY)
  {}

  /** Rows never disappear, tokens never fall, statuses never go back, whatever happens in between. */
  lemma {:induction false} AdvancesOverRun(states: seq<Tables>, ops: seq<Timed>, i: nat, j: nat)
    requires Run(states, ops) && i <= j < |states|
    ensures Advances(states[i], states[j])
  {
    hide Linked, Apply, Legal;
    if i < j {
      AdvancesOverRun(states, ops, i, j - 1);
      LinkedAlways(states, ops, j - 1);
      StepKeeps(states[j - 1], ops[j - 1].op, ops[j - 1].now);
      AdvancesThen(states[i], states[j - 1], states[j]);
    }
  }

  lemma AdvancesThen(t: Tables, u: Tables, v: Tables)
    requires Advances(t, u) && Advances(u, v)
    ensures Advances(t, v)
  {}

  /** The wallet a claim hands out, if it hands out any. */
  function Claimed(t: Tables, op: Op, now: Instant): Option<Id> {
    if op.Claim? && op.claimant != "" && ValidLease(op.seconds) then Best(t, t.walletOrder, now) else None
  }

  /** Only a claim moves a token, and by exactly one; only a verification claim spends an attempt. */
  lemma TokenStep(t: Tables, op: Op, now: Instant, w: Id)
    requires w in t.wallets && Legal(t, op)
    ensures var u := Apply(t, op, now);
            var mine := Claimed(t, op, now) == Some(w);
            && w in u.wallets && u.wallets[w].token == t.wallets[w].token + (if mine then 1 else 0)
            && u.wallets[w].attempts == t.wallets[w].attempts
               + (if mine && t.wallets[w].status == PendingVerification then 1 else 0)
  {
    hide Lower, IsAddress;
  }

  lemma FencesAgree(t: Tables, f: Fence, g: Fence, now: Instant)
    requires Held(t, f, now) && Held(t, g, now) && f.wallet == g.wallet
    ensures f == g
  {}

  /** Two claims of one wallet, in any run, hand out strictly increasing tokens. */
  lemma TokensIncrease(states: seq<Tables>, ops: seq<Timed>, i: nat, j: nat, w: Id)
    requires Run(states, ops) && i < j < |ops|
    requires Claimed(states[i], ops[i].op, ops[i].now) == Some(w)
             && Claimed(states[j], ops[j].op, ops[j].now) == Some(w)
    ensures w in states[i + 1].wallets && w in states[j + 1].wallets
    ensures states[i + 1].wallets[w].token < states[j + 1].wallets[w].token
  {
    hide Apply, Legal, Linked, Best;
    BestHasRow(states[i], ops[i].now);
    BestHasRow(states[j], ops[j].now);
    TokenStep(states[i], ops[i].op, ops[i].now, w);
    AdvancesOverRun(states, ops, i + 1, j);
    TokenStep(states[j], ops[j].op, ops[j].now, w);
  }

  lemma BestHasRow(t: Tables, now: Instant)
    ensures Best(t, t.walletOrder, now).Some? ==> Eligible(t, Best(t, t.walletOrder, now).value, now)
  {}

  /** The five calls that carry a fence. */
  predicate Carries(op: Op, f: Fence) {
    (op.Heartbeat? || op.Verify? || op.Fail? || op.Revoke?) && op.fence == f
  }

  lemma UnheldIsRefused(t: Tables, op: Op, f: Fence, now: Instant)
    requires Carries(op, f) && !Held(t, f, now)
    ensures Apply(t, op, now) == t && Envelope(t, f, now) == None
    ensures op.Verify? ==> VerifyReply(t, f, op.verified, now) == Refused
  {}

  /** Once a wallet is claimed again, by anyone, every call with an earlier token is refused for ever
      and changes nothing. */
  lemma StaleForever(states: seq<Tables>, ops: seq<Timed>, k: nat, j: nat, f: Fence, op: Op, now: Instant)
    requires Run(states, ops) && k < j < |states| && Carries(op, f)
    requires Claimed(states[k], ops[k].op, ops[k].now) == Some(f.wallet)
    requires f.wallet in states[k].wallets && f.token <= states[k].wallets[f.wallet].token
    ensures !Held(states[j], f, now) && Apply(states[j], op, now) == states[j] && Envelope(states[j], f, now) == None
  {
    hide Apply, Legal, Linked, Best, Claimed;
    TokenStep(states[k], ops[k].op, ops[k].now, f.wallet);
    AdvancesOverRun(states, ops, k + 1, j);
    UnheldIsRefused(states[j], op, f, now);
  }

  /** The claim that a fence stands for: made by its owner, for its token, and not superseded before j. */
  ghost predicate LatestClaim(states: seq<Tables>, ops: seq<Timed>, k: nat, j: nat, f: Fence)
    requires |states| == |ops| + 1 && j < |states|
  {
    && k < j && Claimed(states[k], ops[k].op, ops[k].now) == Some(f.wallet) && ops[k].op.claimant == f.owner
    && f.wallet in states[k + 1].wallets && states[k + 1].wallets[f.wallet].token == f.token
    && forall m | k < m < j :: Claimed(states[m], ops[m].op, ops[m].now) != Some(f.wallet)
  }

  predicate HolderIs(t: Tables, f: Fence) {
    f.wallet in t.wallets && t.wallets[f.wallet].claimedBy == Some(f.owner) && t.wallets[f.wallet].token == f.token
  }

  lemma HolderStep(t: Tables, op: Op, now: Instant, f: Fence)
    requires Legal(t, op) && HolderIs(Apply(t, op, now), f)
    ensures if Claimed(t, op, now) == Some(f.wallet) then op.claimant == f.owner else HolderIs(t, f)
  {
    hide Lower, IsAddress;
  }

  /** Whoever passes the fence made the latest claim of that wallet. */
  lemma {:induction false} HolderMadeLatestClaim(states: seq<Tables>, ops: seq<Timed>, j: nat,
                                                 f: Fence) returns (k: nat)
    requires Run(states, ops) && j < |states| && HolderIs(states[j], f)
    ensures LatestClaim(states, ops, k, j, f)
  {
    hide Apply, Legal, Best, Claimed;
    HolderStep(states[j - 1], ops[j - 1].op, ops[j - 1].now, f);
    if Claimed(states[j - 1], ops[j - 1].op, ops[j - 1].now) == Some(f.wallet) {
      k := j - 1;
    } else {
      k := HolderMadeLatestClaim(states, ops, j - 1, f);
    }
  }

  /** Claims of a wallet for verification among the first i operations. */
  ghost function VerificationClaims(states: seq<Tables>, ops: seq<Timed>, w: Id, i: nat): nat
    requires |states| == |ops| + 1 && i < |states|
  {
    if i == 0 then 0
    else
      VerificationClaims(states, ops, w, i - 1)
      + if Claimed(states[i - 1], ops[i - 1].op, ops[i - 1].now) == Some(w) && w in states[i - 1].wallets
           && states[i - 1].wallets[w].status == PendingVerification then 1 else 0
  }

  lemma {:induction false} AttemptsCountClaims(states: seq<Tables>, ops: seq<Timed>, w: Id, i: nat)
    requires Run(states, ops) && i < |states|
    ensures VerificationClaims(states, ops, w, i) == if w in states[i].wallets then states[i].wallets[w].attempts else 0
  {
    hide Apply, Legal, Best, Claimed, Linked;
    if i > 0 {
      AttemptsCountClaims(states, ops, w, i - 1);
      if w in states[i - 1].wallets {
        TokenStep(states[i - 1], ops[i - 1].op, ops[i - 1].now, w);
      } else {
        NewRowsUntouched(states[i - 1], ops[i - 1].op, ops[i - 1].now, w);
      }
    }
  }

  lemma NewRowsUntouched(t: Tables, op: Op, now: Instant, w: Id)
    requires w !in t.wallets && Legal(t, op)
    ensures w in Apply(t, op, now).wallets ==> Apply(t, op, now).wallets[w].attempts == 0
    ensures Claimed(t, op, now) != Some(w)
  {
    hide Lower, IsAddress;
  }

  /** In every run a wallet is claimed for verification at most five times. */
  lemma AtMostFiveVerificationClaims(states: seq<Tables>, ops: seq<Timed>, w: Id, i: nat)
    requires Run(states, ops) && i < |states|
    ensures VerificationClaims(states, ops, w, i) <= MAX_ATTEMPTS
  {
    hide Apply, Legal, Best, Claimed;
    AttemptsCountClaims(states, ops, w, i);
    LinkedAlways(states, ops, i);
    if w in states[i].wallets { LinkedRow(states[i], w); }
  }

  // ---- a revocation nobody can pick up

  predicate Stuck(t: Tables, w: Id) {
    w in t.wallets && t.wallets[w].status == RevocationPending && t.wallets[w].attempts >= MAX_ATTEMPTS
        && t.wallets[w].claimedBy.None?
  }

  lemma StuckStep(t: Tables, op: Op, now: Instant, w: Id)
    requires Stuck(t, w) && Legal(t, op)
    ensures Stuck(Apply(t, op, now), w) && Claimed(t, op, now) != Some(w)
  {
    hide Lower, IsAddress;
  }

  lemma {:induction false} StuckForever(states: seq<Tables>, ops: seq<Timed>, i: nat, j: nat, w: Id)
    requires Run(states, ops) && i <= j < |states| && Stuck(states[i], w)
    ensures Stuck(states[j], w) && (j < |ops| ==> Claimed(states[j], ops[j].op, ops[j].now) != Some(w))
  {
    hide Apply, Legal, Best, Claimed, Stuck;
    if i < j {
      StuckForever(states, ops, i, j - 1, w);
      StuckStep(states[j - 1], ops[j - 1].op, ops[j - 1].now, w);
    }
    if j < |ops| { StuckStep(states[j], ops[j].op, ops[j].now, w); }
  }

  ghost function EligibleRows(t: Tables, now: Instant): set<Id> {
    set id | id in t.wallets && Eligible(t, id, now)
  }

  /** The tables after n claims by one worker at one time. */
  function AfterClaims(t: Tables, claimant: string, now: Instant, n: nat): Tables
    decreases n
  {
    if n == 0 then t else AfterClaims(AfterClaim(t, claimant, 10, now), claimant, now, n - 1)
  }

  lemma ClaimShrinks(t: Tables, claimant: string, now: Instant)
    requires Linked(t) && claimant != "" && EligibleRows(t, now) != {}
    ensures var best := Best(t, t.walletOrder, now);
            && best.Some? && best.value in EligibleRows(t, now)
            && EligibleRows(AfterClaim(t, claimant, 10, now), now) == EligibleRows(t, now) - {best.value}
            && forall w | w in t.wallets && w != best.value ::
                 w in AfterClaim(t, claimant, 10, now).wallets
                     && AfterClaim(t, claimant, 10, now).wallets[w] == t.wallets[w]
  {
    var some :| some in EligibleRows(t, now);
    assert some in t.walletOrder;
  }

  /** An unheld revocation with attempts left is picked up after finitely many claims. */
  lemma {:induction false} EventuallyClaimed(t: Tables, w: Id, claimant: string, now: Instant) returns (n: nat)
    requires Linked(t) && claimant != "" && Eligible(t, w, now)
    ensures Best(AfterClaims(t, claimant, now, n), AfterClaims(t, claimant, now, n).walletOrder, now) == Some(w)
    decreases |EligibleRows(t, now)|
  {
    hide Linked, Advances, AfterClaim, Best;
    assert w in EligibleRows(t, now);
    ClaimShrinks(t, claimant, now);
    var best := Best(t, t.walletOrder, now);
    if best == Some(w) {
      n := 0;
    } else {
      var u := AfterClaim(t, claimant, 10, now);
      ClaimKeeps(t, claimant, 10, now);
      var m := EventuallyClaimed(u, w, claimant, now);
      n := m + 1;
    }
  }

  /** EXACTNESS. A pending revocation nobody holds can still be picked up if and only if attempts are left. */
  lemma RevocationClaimableExactly(t: Tables, w: Id, claimant: string, now: Instant)
    requires Linked(t) && claimant != "" && w in t.wallets
    requires t.wallets[w].status == RevocationPending && t.wallets[w].claimedBy.None?
    ensures (exists n: nat ::
             Best(AfterClaims(t, claimant, now, n), AfterClaims(t, claimant, now, n).walletOrder, now) == Some(w))
            <==> t.wallets[w].attempts < MAX_ATTEMPTS
  {
    hide Linked, Best;
    if t.wallets[w].attempts < MAX_ATTEMPTS {
      var n := EventuallyClaimed(t, w, claimant, now);
    } else {
      forall n: nat
        ensures Best(AfterClaims(t, claimant, now, n), AfterClaims(t, claimant, now, n).walletOrder, now) != Some(w)
      {
        StuckUnderClaims(t, w, claimant, now, n);
      }
    }
  }

  lemma {:induction false} StuckUnderClaims(t: Tables, w: Id, claimant: string, now: Instant, n: nat)
    requires Stuck(t, w) && claimant != ""
    decreases n
    ensures Best(AfterClaims(t, claimant, now, n), AfterClaims(t, claimant, now, n).walletOrder, now) != Some(w)
  {
    hide Best, Stuck;
    StuckStep(t, Claim(claimant, 10), now, w);
    if n > 0 { StuckUnderClaims(AfterClaim(t, claimant, 10, now), w, claimant, now, n - 1); }
  }

  // ---- a run that gets there: four retryable failures, a fifth attempt that succeeds, then a revocation request

  function Single(w: Wallet, s: Status): Tables {
    Tables([0], map[0 := w], [0], map[0 := Credential("account", SignerKey, "polymarket", s, "print", 1)])
  }

  const ENROLLMENT := Enrollment("account", None, 0, "key", "print")
  const VERIFIED := Verified("signer", "deposit", 137, "0x" + seq(40, i => '0'))

  function Tried(n: nat): Wallet {
    NewWallet("account", None, 0, Some("key"), PendingVerification, Some(0), 0.0)
      .(token := n, attempts := n, lastError := if n == 0 then None else Some("error"))
  }

  function InHand(n: nat): Wallet {
    Tried(n).(claimedBy := Some("worker"), token := n + 1, attempts := n + 1, expires := Some(10.0))
  }

  lemma ClaimSingle(n: nat)
    requires n < MAX_ATTEMPTS
    ensures Apply(Single(Tried(n), PendingVerification), Claim("worker", 10), 0.0)
            == Single(InHand(n), PendingVerification)
  {
    var t := Single(Tried(n), PendingVerification);
    assert t.walletOrder[..0] == [] && Best(t, [], 0.0) == None;
    assert Best(t, t.walletOrder, 0.0) == Some(0);
  }

  lemma FailSingle(n: nat)
    requires n < MAX_ATTEMPTS - 1
    ensures Apply(Single(InHand(n), PendingVerification), Fail(Fence("account", 0, "worker", n + 1), "error", true),
                  0.0)
            == Single(Tried(n + 1), PendingVerification)
  {}

  lemma {:induction false} FailedAttempts(n: nat) returns (states: seq<Tables>, ops: seq<Timed>)
    requires n < MAX_ATTEMPTS
    ensures Run(states, ops) && states[|ops|] == Single(Tried(n), PendingVerification)
  {
    hide Apply;
    if n == 0 {
      states, ops := [EMPTY, Single(Tried(0), PendingVerification)], [Timed(Import(ENROLLMENT, 0, 0), 0.0)];
      ImportSingle();
    } else {
      var s, o := FailedAttempts(n - 1);
      ClaimSingle(n - 1);
      FailSingle(n - 1);
      states := s + [Single(InHand(n - 1), PendingVerification), Single(Tried(n), PendingVerification)];
      ops := o + [Timed(Claim("worker", 10), 0.0), Timed(Fail(Fence("account", 0, "worker", n), "error", true), 0.0)];
    }
  }

  lemma ImportSingle()
    ensures Apply(EMPTY, Import(ENROLLMENT, 0, 0), 0.0) == Single(Tried(0), PendingVerification)
  {}

  /** Verified at the fifth attempt, a wallet whose owner then asks for revocation is stuck. */
  lemma StuckIsReachable() returns (states: seq<Tables>, ops: seq<Timed>)
    ensures Run(states, ops) && Stuck(states[|ops|], 0)
  {
    hide Apply;
    var s, o := FailedAttempts(4);
    ClaimSingle(4);
    VerifySingle();
    var active := Apply(Single(InHand(4), PendingVerification), Verify(Fence("account", 0, "worker", 5), VERIFIED),
                        0.0);
    RevokeSingle(active);
    states := s + [Single(InHand(4), PendingVerification), active, Apply(active, RequestRevoke("account", 0), 0.0)];
    ops := o + [Timed(Claim("worker", 10), 0.0), Timed(Verify(Fence("account", 0, "worker", 5), VERIFIED), 0.0),
                Timed(RequestRevoke("account", 0), 0.0)];
  }

  lemma VerifySingle()
    ensures var active := Apply(Single(InHand(4), PendingVerification),
                                Verify(Fence("account", 0, "worker", 5), VERIFIED), 0.0);
            0 in active.wallets && active.wallets[0].status == Active && active.wallets[0].attempts == 5
            && active.wallets[0].account == "account" && active.wallets[0].claimedBy.None?
  {
    var c := VERIFIED.collateral;
    assert |c| == 42 && c[0] == '0' && c[1] == 'x' && forall i | 2 <= i < 42 :: c[i] == '0';
    assert Lower(c) == c;
    assert IsAddress(Lower(c));
  }

  lemma RevokeSingle(t: Tables)
    requires 0 in t.wallets && t.wallets[0].status == Active && t.wallets[0].attempts == 5
    requires t.wallets[0].account == "account" && t.wallets[0].claimedBy.None?
    ensures Stuck(Apply(t, RequestRevoke("account", 0), 0.0), 0)
  {}
}
