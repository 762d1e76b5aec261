/** Live positions against the durable fill ledger (reconcile.py). */
module ReconcilePositions {
  import opened Decimals
  import opened Wrappers

  datatype RawPosition = RawPosition(
    condition: Option<string>, token: Option<string>, size: Option<real>, initial: Option<real>, current: Option<real>)

  datatype Position = Position(condition: string, token: string, size: real, initial: real, current: real)

  datatype FillLedger = FillLedger(quantities: map<string, real>, redeemed: set<string>)

  const TOLERANCE := 0.000001

  /** A required field is missing, blank, not finite, or negative. */
  predicate Parses(r: RawPosition) {
    && r.condition.Some? && r.condition.value != "" && r.token.Some? && r.token.value != ""
    && r.size.Some? && r.initial.Some? && r.current.Some? && r.size.value >= 0.0 && r.initial.value >= 0.0
       && r.current.value >= 0.0
  }

  function PositionOf(r: RawPosition): Position
    requires Parses(r)
  {
    Position(r.condition.value, r.token.value, r.size.value, r.initial.value, r.current.value)
  }

  predicate AllParse(raw: seq<RawPosition>) { forall i | 0 <= i < |raw| :: Parses(raw[i]) }

  function PositionsOf(raw: seq<RawPosition>): seq<Position>
    requires AllParse(raw)
  {
    seq(|raw|, i requires 0 <= i < |raw| => PositionOf(raw[i]))
  }

  predicate Blank(text: Option<string>) { text.None? || text.value == "" }

  predicate Bad(figure: Option<real>) { figure.None? || figure.value < 0.0 }

  predicate Incomplete(r: RawPosition) {
    Blank(r.condition) || Blank(r.token) || Bad(r.size) || Bad(r.initial) || Bad(r.current)
  }

  function AsListed(p: Position): RawPosition {
    RawPosition(Some(p.condition), Some(p.token), Some(p.size), Some(p.initial), Some(p.current))
  }

  /** None where the source raises: one incomplete row refuses the whole listing. */
  method ParsePositions(raw: seq<RawPosition>) returns (positions: Option<seq<Position>>)
    ensures positions == if AllParse(raw) then Some(PositionsOf(raw)) else None
    ensures positions.None? <==> exists i :: 0 <= i < |raw| && Incomplete(raw[i])
    ensures positions.Some? ==> |positions.value| == |raw|
    ensures positions.Some? ==> forall i | 0 <= i < |raw| :: raw[i] == AsListed(positions.value[i])
  {
    var parsed: seq<Position> := [];
    for i := 0 to |raw|
      invariant |parsed| == i && forall k | 0 <= k < i :: Parses(raw[k]) && parsed[k] == PositionOf(raw[k])
    {
      var r := raw[i];
      if r.condition.None? || r.condition.value == "" || r.token.None? || r.token.value == "" { return None; }
      if r.size.None? || r.initial.None? || r.current.None? { return None; }
      if r.size.value < 0.0 || r.initial.value < 0.0 || r.current.value < 0.0 { return None; }
      parsed := parsed + [Position(r.condition.value, r.token.value, r.size.value, r.initial.value, r.current.value)];
    }
    assert parsed == PositionsOf(raw);
    positions := Some(parsed);
  }

  predicate Counts(p: Position, l: FillLedger) { p.size > 0.0 && p.condition !in l.redeemed }

  /** The live quantity of a token: its last counted listing, zero without one. */
  function Live(positions: seq<Position>, l: FillLedger, token: string): real {
    if positions == [] then 0.0
    else
      var last := positions[|positions| - 1];
      if last.token == token && Counts(last, l) then last.size else Live(positions[..|positions| - 1], l, token)
  }

  function Booked(l: FillLedger, token: string): real {
    if token in l.quantities then l.quantities[token] else 0.0
  }

  predicate Agrees(positions: seq<Position>, l: FillLedger, token: string) {
    Abs(Live(positions, l, token) - Booked(l, token)) <= TOLERANCE
  }

  /** Listed as held and not yet redeemed. */
  predicate Holds(p: Position, l: FillLedger) { !(p.size <= 0.0 || p.condition in l.redeemed) }

  /** The last listing of a token that holds something is its live quantity. */
  lemma {:induction false} LastHoldingIsLive(positions: seq<Position>, l: FillLedger, i: nat)
    requires i < |positions| && Holds(positions[i], l)
    requires forall j | i < j < |positions| && positions[j].token == positions[i].token :: !Holds(positions[j], l)
    ensures Live(positions, l, positions[i].token) == positions[i].size
  {
    if i < |positions| - 1 { LastHoldingIsLive(positions[..|positions| - 1], l, i); }
  }

  lemma {:induction false} NoHoldingIsZero(positions: seq<Position>, l: FillLedger, token: string)
    requires forall j | 0 <= j < |positions| && positions[j].token == token :: !Holds(positions[j], l)
    ensures Live(positions, l, token) == 0.0
  {
    if positions != [] { NoHoldingIsZero(positions[..|positions| - 1], l, token); }
  }

  /** AGREEMENT. A token listed once agrees exactly when what is held of it is within a millionth of the filled
      quantity; what is not held, or redeemed, has to be booked as nothing. */
  lemma AgreesExactly(positions: seq<Position>, l: FillLedger, i: nat)
    requires i < |positions|
    requires forall j | 0 <= j < |positions| && positions[j].token == positions[i].token :: j == i
    ensures var p := positions[i];
            var booked := if p.token in l.quantities then l.quantities[p.token] else 0.0;
            var held := if p.size > 0.0 && p.condition !in l.redeemed then p.size else 0.0;
            Agrees(positions, l, p.token) <==> booked - 0.000001 <= held <= booked + 0.000001
  {
    hide Live;
    if Holds(positions[i], l) {
      LastHoldingIsLive(positions, l, i);
    } else {
      NoHoldingIsZero(positions, l, positions[i].token);
    }
  }

  method LiveQuantities(positions: seq<Position>, l: FillLedger) returns (live: map<string, real>)
    ensures forall token :: (if token in live then live[token] else 0.0) == Live(positions, l, token)
  {
    live := map[];
    for i := 0 to |positions|
      invariant forall token :: (if token in live then live[token] else 0.0) == Live(positions[..i], l, token)
    {
      var p := positions[i];
      assert positions[..i + 1][..i] == positions[..i];
      if Counts(p, l) { live := live[p.token := p.size]; }
    }
    assert positions[..|positions|] == positions;
  }

  function Keep(positions: seq<Position>, foreign: set<string>): (kept: seq<Position>)
    ensures forall p | p in kept :: p in positions && p.token !in foreign
    ensures forall p | p in positions && p.token !in foreign :: p in kept
  {
    if positions == [] then []
    else (if positions[0].token in foreign then [] else [positions[0]]) + Keep(positions[1..], foreign)
  }

  /** As often as before, or not at all. */
  lemma {:induction false} KeepExactly(positions: seq<Position>, foreign: set<string>, p: Position)
    ensures multiset(Keep(positions, foreign))[p] == if p.token in foreign then 0 else multiset(positions)[p]
  {
    if positions != [] {
      KeepExactly(positions[1..], foreign, p);
      assert positions == [positions[0]] + positions[1..];
      var head := if positions[0].token in foreign then [] else [positions[0]];
      assert Keep(positions, foreign) == head + Keep(positions[1..], foreign);
    }
  }

  /** The check succeeds exactly when every token that disagrees may be quarantined; what then reaches the position
      table agrees with the ledger token by token. None is the fail-closed error. */
  method CheckPositions(positions: seq<Position>, l: FillLedger, footprint: set<string>, quarantine: bool)
    returns (owned: Option<seq<Position>>, foreign: set<string>)
    ensures owned.Some? <==> forall token | !Agrees(positions, l, token) :: quarantine && token !in footprint
    ensures owned.Some? ==>
              && owned.value == Keep(positions, foreign)
              && forall token :: token in foreign <==> !Agrees(positions, l, token)
    ensures owned.Some? ==> forall p | p in owned.value :: Agrees(positions, l, p.token)
    ensures owned.Some? ==> forall token | token in footprint :: Agrees(positions, l, token)
  {
    hide Abs;
    var live := LiveQuantities(positions, l);
    var todo := live.Keys + l.quantities.Keys;
    foreign := {};
    UnknownTokensAgree(positions, l);
    while todo != {}
      invariant todo <= live.Keys + l.quantities.Keys
      invariant forall token ::
                  token in foreign
                  <==> token in live.Keys + l.quantities.Keys - todo && !Agrees(positions, l, token)
      invariant forall token | token in foreign :: quarantine && token !in footprint
      decreases todo
    {
      var token :| token in todo;
      todo := todo - {token};
      var liveSize := if token in live then live[token] else 0.0;
      var ledgerSize := if token in l.quantities then l.quantities[token] else 0.0;
      assert liveSize == Live(positions, l, token);
      if Abs(liveSize - ledgerSize) <= TOLERANCE { continue; }
      assert !Agrees(positions, l, token);
      if quarantine && token !in footprint { foreign := foreign + {token}; continue; }
      return None, foreign;
    }
    owned := Some(Keep(positions, foreign));
  }

  /** A token in neither table agrees trivially. */
  lemma UnknownTokensAgree(positions: seq<Position>, l: FillLedger)
    ensures forall token | Live(positions, l, token) == 0.0 && token !in l.quantities :: Agrees(positions, l, token)
  {}
}
