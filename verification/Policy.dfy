/** Account policies may only tighten the deployment's risk ceilings (personal_configuration.py). */
module Policy {
  import opened Decimals
  import opened Modes
  import opened Wrappers
  import opened Portfolio
  import opened Risk

  datatype Field = MaxOrder | MaxTradeRisk | MaxEvent | MaxBucket | MaxGross | DailyLoss | MaxDrawdown | MinEdge

  const RISK_FIELDS := [MaxOrder, MaxTradeRisk, MaxEvent, MaxBucket, MaxGross, DailyLoss, MaxDrawdown, MinEdge]

  /** Where a field stands in the order the policy loop visits. */
  function Position(f: Field): nat {
    match f
    case MaxOrder => 0 case MaxTradeRisk => 1 case MaxEvent => 2 case MaxBucket => 3
    case MaxGross => 4 case DailyLoss => 5 case MaxDrawdown => 6 case MinEdge => 7
  }

  lemma EveryFieldListed(f: Field, i: nat)
    requires i < |RISK_FIELDS|
    ensures Position(f) < |RISK_FIELDS| && (RISK_FIELDS[i] == f <==> i == Position(f))
  {}

  const CANARY_ORDER_CAP := 5.0

  /** One value per risk field. */
  type Values = map<Field, real>

  ghost predicate Complete(v: Values) { forall f: Field :: f in v }

  /** A requested limit as stored: decimals may be infinite or not a number. */
  datatype Requested = Finite(value: real) | NotFinite

  datatype RiskPolicy = RiskPolicy(id: string, version: nat, accountId: string, active: bool,
                                   requested: map<Field, Requested>)

  ghost predicate WellTyped(p: RiskPolicy) { forall f: Field :: f in p.requested }

  predicate ValidRequest(f: Field, r: Requested) {
    && r.Finite?
    && (if f == MinEdge then r.value >= 0.0 else r.value > 0.0)
    && (f != MaxOrder ==> r.value <= 1.0)
  }

  function Stricter(f: Field, ceiling: real, requested: real): real {
    if f == MinEdge then Max(ceiling, requested) else Min(ceiling, requested)
  }

  ghost predicate AcceptablePolicy(p: RiskPolicy, account: string)
    requires WellTyped(p)
  {
    p.accountId == account && p.active && forall f: Field :: ValidRequest(f, p.requested[f])
  }

  /** The value of one field under an accepted policy and a mode. */
  function FieldValue(f: Field, ceiling: real, p: Option<RiskPolicy>, mode: Mode): real
    requires p.Some? ==> f in p.value.requested && p.value.requested[f].Finite?
  {
    var v := if p.None? then ceiling else Stricter(f, ceiling, p.value.requested[f].value);
    if f == MaxOrder && mode == Canary then Min(v, CANARY_ORDER_CAP) else v
  }

  ghost predicate Accepted(account: string, p: Option<RiskPolicy>)
    requires p.Some? ==> WellTyped(p.value)
  {
    p.Some? ==> AcceptablePolicy(p.value, account)
  }

  /** The limits that an accepted policy and mode put in force. */
  ghost predicate InForce(v: Values, ceilings: Values, account: string, p: Option<RiskPolicy>, mode: Mode)
    requires Complete(ceilings) && (p.Some? ==> WellTyped(p.value))
  {
    && Accepted(account, p) && v.Keys == ceilings.Keys && Complete(v)
    && forall f: Field :: v[f] == FieldValue(f, ceilings[f], p, mode)
  }

  function ToLimits(v: Values): Limits
    requires Complete(v)
  {
    Limits(v[MaxOrder], v[MaxTradeRisk], v[MaxEvent], v[MaxBucket], v[MaxGross], v[DailyLoss], v[MaxDrawdown],
           v[MinEdge])
  }

  /** Ceilings as the deployment settings validate them: positive, except a minimum edge of zero or more. */
  ghost predicate ValidCeilings(c: Values) {
    Complete(c) && (forall f: Field | f != MinEdge :: c[f] > 0.0) && c[MinEdge] >= 0.0
  }

  lemma NeverLooser(v: Values, ceilings: Values, account: string, p: Option<RiskPolicy>, mode: Mode)
    requires ValidCeilings(ceilings) && (p.Some? ==> WellTyped(p.value))
    requires InForce(v, ceilings, account, p, mode)
    ensures ValidCeilings(v) && NoLooser(ToLimits(v), ToLimits(ceilings))
    ensures mode == Canary ==> v[MaxOrder] <= CANARY_ORDER_CAP
  {}

  /** THE LIMITS. What the gate then reads is the tightest of ceiling and request, limit by limit, with the canary cap
      on the order size alone and in canary mode alone. */
  lemma TightestInForce(v: Values, ceilings: Values, account: string, p: RiskPolicy, mode: Mode, x: real)
    requires Complete(ceilings) && WellTyped(p) && InForce(v, ceilings, account, Some(p), mode)
    ensures var l := ToLimits(v);
            && (x <= l.maxOrder
                <==> x <= ceilings[MaxOrder] && x <= p.requested[MaxOrder].value && (mode == Canary ==> x <= 5.0))
            && (x <= l.maxTradeRisk <==> x <= ceilings[MaxTradeRisk] && x <= p.requested[MaxTradeRisk].value)
            && (x <= l.maxEvent <==> x <= ceilings[MaxEvent] && x <= p.requested[MaxEvent].value)
            && (x <= l.maxBucket <==> x <= ceilings[MaxBucket] && x <= p.requested[MaxBucket].value)
            && (x <= l.maxGross <==> x <= ceilings[MaxGross] && x <= p.requested[MaxGross].value)
            && (x <= l.dailyLoss <==> x <= ceilings[DailyLoss] && x <= p.requested[DailyLoss].value)
            && (x <= l.maxDrawdown <==> x <= ceilings[MaxDrawdown] && x <= p.requested[MaxDrawdown].value)
            && (l.minEdge <= x <==> ceilings[MinEdge] <= x && p.requested[MinEdge].value <= x)
  {}

  /** Without a policy the ceilings are the limits, up to the canary cap. */
  lemma CeilingsInForce(v: Values, ceilings: Values, account: string, mode: Mode)
    requires Complete(ceilings) && InForce(v, ceilings, account, None, mode)
    ensures var l, c := ToLimits(v), ToLimits(ceilings);
            && l == c.(maxOrder := l.maxOrder) && l.maxOrder <= c.maxOrder
            && (l.maxOrder < c.maxOrder <==> mode == Canary && c.maxOrder > 5.0) && l.maxOrder in {c.maxOrder, 5.0}
  {}

  /** A policy is accepted exactly when it is this account's, active, and every limit it asks for is a finite fraction,
      or for the order size an amount, above zero, where the minimum edge may be zero. */
  lemma AcceptedExactly(account: string, p: RiskPolicy)
    requires WellTyped(p)
    ensures Accepted(account, Some(p)) <==>
              && p.accountId == account && p.active
              && forall f: Field ::
                   var r := p.requested[f];
                   r.Finite? && 0.0 <= r.value && (r.value == 0.0 ==> f == MinEdge) && (r.value > 1.0 ==> f == MaxOrder)
  {}

  class PersonalConfiguration {
    const ceilings: Values
    const account: string
    var mode: Mode
    var settings: Values
    var effective: Values
    var policyId: Option<string>
    var policyLoaded: bool
    /** The policy and mode of the last accepted call. */
    ghost var lastAccepted: Option<(Option<RiskPolicy>, Mode)>

    ghost predicate Valid()
      reads this
    {
      && ValidCeilings(ceilings) && Complete(settings)
      && policyLoaded == lastAccepted.Some?
      && (lastAccepted.None? ==> settings == effective == ceilings)
      && (lastAccepted.Some? ==>
            var (p, m) := lastAccepted.value;
            && (p.Some? ==> WellTyped(p.value))
            && settings == effective && InForce(settings, ceilings, account, p, m)
            && policyId == if p.Some? then Some(p.value.id) else None)
    }

    constructor (ceilings: Values, account: string, mode: Mode)
      requires ValidCeilings(ceilings)
      ensures Valid() && this.ceilings == ceilings && this.account == account && lastAccepted == None
    {
      this.ceilings, this.account, this.mode := ceilings, account, mode;
      settings, effective, policyId, policyLoaded, lastAccepted := ceilings, ceilings, None, false, None;
    }

    /** None where the source raises. */
    method PolicyValues(policy: Option<RiskPolicy>, modeOverride: Option<Mode>) returns (r: Option<Values>)
      requires Valid() && (policy.Some? ==> WellTyped(policy.value))
      ensures r.Some? <==> Accepted(account, policy)
      ensures r.Some? ==> InForce(r.value, ceilings, account, policy,
                                  if modeOverride.Some? then modeOverride.value else mode)
    {
      var values := ceilings;
      if policy.Some? {
        if policy.value.accountId != account || !policy.value.active { return None; }
        var tightened := Tighten(policy.value.requested);
        if tightened.None? { return None; }
        values := tightened.value;
      }
      if (if modeOverride.Some? then modeOverride.value else mode) == Canary {
        values := values[MaxOrder := Min(values[MaxOrder], CANARY_ORDER_CAP)];
      }
      r := Some(values);
    }

    /** The loop over the ceilings: refuse an invalid request, otherwise keep the stricter of the two. */
    method Tighten(requests: map<Field, Requested>) returns (r: Option<Values>)
      requires Valid() && forall f: Field :: f in requests
      ensures r.Some? <==> forall f: Field :: ValidRequest(f, requests[f])
      ensures r.Some? ==> r.value.Keys == ceilings.Keys
                          && forall f: Field :: r.value[f] == Stricter(f, ceilings[f], requests[f].value)
    {
      hide Max, Min;
      var values := ceilings;
      var i := 0;
      while i < |RISK_FIELDS|
        invariant 0 <= i <= |RISK_FIELDS| && values.Keys == ceilings.Keys
        invariant forall f: Field | Position(f) < i :: ValidRequest(f, requests[f])
        invariant forall f: Field | Position(f) < i :: values[f] == Stricter(f, ceilings[f], requests[f].value)
        invariant forall f: Field | Position(f) >= i :: values[f] == ceilings[f]
      {
        var name := RISK_FIELDS[i];
        var requested := requests[name];
        forall f: Field ensures (f == name <==> i == Position(f)) { EveryFieldListed(f, i); }
        if requested.NotFinite? || (if name == MinEdge then requested.value < 0.0 else requested.value <= 0.0)
           || (name != MaxOrder && requested.value > 1.0) {
          assert !ValidRequest(name, requests[name]);
          return None;
        }
        values := values[name := Stricter(name, values[name], requested.value)];
        i := i + 1;
      }
      forall f: Field ensures Position(f) < i { EveryFieldListed(f, 0); }
      r := Some(values);
    }

    /** Publishes every limit at once, or raises and changes nothing. */
    method ApplyPolicy(policy: Option<RiskPolicy>, modeOverride: Option<Mode>) returns (applied: bool)
      requires Valid() && (policy.Some? ==> WellTyped(policy.value))
      modifies this
      ensures Valid() && mode == old(mode)
      ensures applied <==> Accepted(account, policy)
      ensures applied ==> lastAccepted == Some((policy, if modeOverride.Some? then modeOverride.value else mode))
      ensures !applied ==> unchanged(this)
    {
      var values := PolicyValues(policy, modeOverride);
      if values.None? { return false; }
      settings := values.value;
      effective := values.value;
      policyId := if policy.Some? then Some(policy.value.id) else None;
      policyLoaded := true;
      lastAccepted := Some((policy, if modeOverride.Some? then modeOverride.value else mode));
      applied := true;
    }

    /** After any sequence of accepted and raising calls, what the gate approves also passes the ceilings. */
    lemma ApprovalSurvivesCeilings(c: Candidate, m: Market, b: Book, p: PortfolioState, s: Settings, now: Instant)
      requires Valid() && s.limits == ToLimits(settings)
      requires ValidCandidate(c) && b.tickSize > 0.0 && Approved(c, m, b, p, s, now)
      ensures Approved(c, m, b, p, s.(limits := ToLimits(ceilings)), now)
    {
      if lastAccepted.Some? {
        var (policy, m) := lastAccepted.value;
        NeverLooser(settings, ceilings, account, policy, m);
      }
      TighteningIsSound(c, m, b, p, s, ToLimits(ceilings), now);
    }
  }

  datatype Call = Call(policy: Option<RiskPolicy>, mode: Mode)

  /** The last call of a sequence that does not raise. */
  ghost function LastAccepted(account: string, calls: seq<Call>): (r: Option<Call>)
    requires forall c <- calls :: c.policy.Some? ==> WellTyped(c.policy.value)
    ensures r.Some? ==> r.value in calls && Accepted(account, r.value.policy)
  {
    if calls == [] then None
    else if Accepted(account, calls[|calls| - 1].policy) then Some(calls[|calls| - 1])
    else LastAccepted(account, calls[..|calls| - 1])
  }

  /** Any sequence of calls leaves exactly the limits of the last accepted one, whatever came before it. */
  method ReplayCalls(config: PersonalConfiguration, calls: seq<Call>)
    requires config.Valid() && config.lastAccepted == None
    requires forall c <- calls :: c.policy.Some? ==> WellTyped(c.policy.value)
    modifies config
    ensures config.Valid()
    ensures var last := LastAccepted(config.account, calls);
            if last.None? then config.settings == config.ceilings
            else InForce(config.settings, config.ceilings, config.account, last.value.policy, last.value.mode)
  {
    for i := 0 to |calls|
      invariant config.Valid()
      invariant config.lastAccepted == match LastAccepted(config.account, calls[..i])
                                       case None => None
                                       case Some(c) => Some((c.policy, c.mode))
    {
      assert calls[i] in calls;
      assert calls[..i + 1][..i] == calls[..i];
      var applied := config.ApplyPolicy(calls[i].policy, Some(calls[i].mode));
    }
    assert calls[..|calls|] == calls;
  }
}
