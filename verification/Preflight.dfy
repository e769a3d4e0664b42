/**
 The registry of single-use authorizations (execution_preflight.py) and the check
 every broker makes before it places anything (broker/base.py). A token is only a
 nonce; what it may do is stored here.
 */
module Preflight {
  import opened Wrappers
  import opened Pricing
  import opened Ladder

  const OPEN_TOKEN_TTL_MS := 2000

  /** An opaque, unforgeable reference. */
  class Nonce {
    constructor () {}
  }

  datatype Token = Token(nonce: Nonce)

  datatype Kind = Open | ReduceOnly

  datatype Authorization = Authorization(
    kind: Kind,
    symbol: string,
    side: Side,
    qty: real,
    limitPrice: Option<real>,
    killGeneration: Option<int>,
    mintedAtMs: Option<int>)

  datatype Position = Position(symbol: string, qty: real)

  datatype Intent = Intent(
    symbol: string,
    side: Side,
    qty: real,
    limitPrice: Option<real>,
    isReducing: bool,
    intentId: string)

  datatype PreflightError =
    | Rejected                     // no authorization is issued
    | Forgery                      // no, or another, authorization
    | RuntimeUnbound | TokenExpired | GenerationChanged   // a stale open
    | AlreadyBound

  /** The clock and the kill generation an orchestrator binds. */
  class Runtime {
    var nowMs: int
    var killGeneration: int

    constructor (nowMs: int, killGeneration: int)
      ensures this.nowMs == nowMs && this.killGeneration == killGeneration
    {
      this.nowMs, this.killGeneration := nowMs, killGeneration;
    }
  }

  // -------------------------------------------------------- what may be issued

  function OpenAuthorization(i: Inputs): Authorization
    requires i.legs != [] && Evaluate(i).Cleared?
  {
    var p := Evaluate(i).passed;
    Authorization(Open, p.symbol, p.side, p.qty, Some(p.cappedLimit), Some(i.killGeneration), Some(i.nowMs))
  }

  function Abs(x: real): real { if x < 0.0 then -x else x }

  function ReducingSide(held: real): Side { if held > 0.0 then Sell else Buy }

  /** A genuinely position-decreasing order: right symbol and side, no more than held. */
  predicate MayReduce(position: Option<Position>, intent: Intent) {
    && position.Some?
    && position.value.qty != 0.0
    && intent.isReducing
    && intent.symbol == position.value.symbol
    && intent.side == ReducingSide(position.value.qty)
    && 0.0 < intent.qty <= Abs(position.value.qty)
  }

  function ReduceAuthorization(position: Position, intent: Intent): Authorization {
    Authorization(ReduceOnly, position.symbol, ReducingSide(position.qty), intent.qty, None, None, None)
  }

  /** How an authorization came about. */
  datatype Mint =
    | OpenMint(inputs: Inputs)
    | ReduceMint(position: Position, intent: Intent)

  ghost predicate Backs(mint: Mint, auth: Authorization) {
    match mint
    case OpenMint(i) => i.legs != [] && Evaluate(i).Cleared? && auth == OpenAuthorization(i)
    case ReduceMint(position, intent) =>
      MayReduce(Some(position), intent) && auth == ReduceAuthorization(position, intent)
  }

  /** Signed effect of filling `filled` shares on a position. */
  function AfterFill(held: real, side: Side, filled: real): real {
    if side.Sell? then held - filled else held + filled
  }

  /** Whatever part of a reduce authorization is filled, the position shrinks or
      goes flat; it is flat exactly when all that was held is filled. */
  lemma ReduceNeverFlips(position: Position, intent: Intent, filled: real)
    requires MayReduce(Some(position), intent)
    requires 0.0 <= filled <= ReduceAuthorization(position, intent).qty
    ensures var left := AfterFill(position.qty, ReduceAuthorization(position, intent).side, filled);
            && (position.qty > 0.0 ==> 0.0 <= left <= position.qty)
            && (position.qty < 0.0 ==> position.qty <= left <= 0.0)
            && (left == 0.0 <==> filled == Abs(position.qty))
  {}

  /** An intent is covered by an authorization of its own kind that names the same
      symbol, side and quantity, and for opens the same limit. */
  predicate Covers(auth: Authorization, intent: Intent) {
    && (if intent.isReducing then auth.kind.ReduceOnly? else auth.kind.Open?)
    && auth.symbol == intent.symbol && auth.side == intent.side && auth.qty == intent.qty
    && (!intent.isReducing ==> auth.limitPrice == intent.limitPrice)
  }

  /** A reduce is allowed exactly if filling all of it takes the same symbol's position
      towards zero and not beyond. */
  lemma MayReduceIff(position: Position, intent: Intent)
    ensures MayReduce(Some(position), intent) <==>
              && intent.isReducing && intent.symbol == position.symbol && intent.qty > 0.0
              && var left := AfterFill(position.qty, intent.side, intent.qty);
                 0.0 <= left < position.qty || position.qty < left <= 0.0
    ensures !MayReduce(None, intent)
  {}

  /** An open authorization covers exactly the order the ladder passed. */
  lemma OpenCoversIff(i: Inputs, intent: Intent)
    requires i.legs != [] && Evaluate(i).Cleared?
    ensures var p := Evaluate(i).passed;
            Covers(OpenAuthorization(i), intent) <==>
              && !intent.isReducing && intent.symbol == p.symbol && intent.side == p.side && intent.qty == p.qty
              && intent.limitPrice == Some(p.cappedLimit)
  {}

  /** A reduce authorization covers exactly the orders of that size which reduce: at
      whatever limit. */
  lemma ReduceCoversIff(position: Position, minted: Intent, intent: Intent)
    requires MayReduce(Some(position), minted)
    ensures Covers(ReduceAuthorization(position, minted), intent) <==>
              MayReduce(Some(position), intent) && intent.qty == minted.qty
  {}

  /** What is known about a successful consumption. */
  datatype Consumption = Consumption(nonce: Nonce, bound: bool, atMs: int, killGeneration: int)

  /** A consumption its mint warrants. */
  ghost predicate Warranted(mint: Mint, c: Consumption) {
    match mint
    case OpenMint(i) =>
      && i.legs != [] && Evaluate(i).Cleared?
      && c.bound && c.atMs - i.nowMs <= OPEN_TOKEN_TTL_MS && c.killGeneration == i.killGeneration
    case ReduceMint(position, intent) => MayReduce(Some(position), intent)
  }

  lemma BackedMeansWarranted(mint: Mint, auth: Authorization, c: Consumption)
    requires Backs(mint, auth)
    requires auth.kind.Open? ==>
      && auth.mintedAtMs.Some? && auth.killGeneration.Some?
      && c.bound && c.atMs - auth.mintedAtMs.value <= OPEN_TOKEN_TTL_MS
      && c.killGeneration == auth.killGeneration.value
    ensures Warranted(mint, c)
  {}

  // ---------------------------------------------------------------- the registry

  class Registry {
    var authorizations: map<Nonce, Authorization>
    var runtime: Runtime?
    ghost var mints: map<Nonce, Mint>            // everything ever issued
    ghost var consumptions: seq<Consumption>     // every successful consumption, in order

    constructor ()
      ensures Valid() && authorizations == map[] && runtime == null && consumptions == []
    {
      authorizations, runtime := map[], null;
      mints, consumptions := map[], [];
    }

    /** Holds through every sequence of mint, consume, void, bind and unbind. Each
        stored authorization was issued by a mint and is unspent; no nonce was spent
        twice; and every spent open came from a ladder run without reasons, at most
        2000 ms earlier, under the same kill generation, with a runtime bound. */
    ghost predicate Valid() reads this {
      && (forall n :: n in authorizations ==> n in mints && Backs(mints[n], authorizations[n]))
      && (forall k :: 0 <= k < |consumptions| ==>
            && consumptions[k].nonce !in authorizations
            && consumptions[k].nonce in mints
            && Warranted(mints[consumptions[k].nonce], consumptions[k]))
      && (forall j, k :: 0 <= j < k < |consumptions| ==> consumptions[j].nonce != consumptions[k].nonce)
    }

    method Issue(auth: Authorization, ghost mint: Mint) returns (token: Token)
      requires Valid() && Backs(mint, auth)
      modifies this
      ensures Valid() && fresh(token.nonce)
      ensures authorizations == old(authorizations)[token.nonce := auth]
      ensures runtime == old(runtime) && consumptions == old(consumptions)
      ensures mints == old(mints)[token.nonce := mint]
    {
      var nonce := new Nonce();
      token := Token(nonce);
      authorizations := authorizations[nonce := auth];
      mints := mints[nonce := mint];
    }

    /** The only way to an open authorization: the ladder itself must pass. */
    method MintOpen(i: Inputs) returns (r: Result<Token, PreflightError>)
      requires Valid() && i.legs != []
      modifies this
      ensures Valid() && consumptions == old(consumptions) && runtime == old(runtime)
      ensures r.Success? <==> Evaluate(i).Cleared?
      ensures r.Failure? ==> authorizations == old(authorizations)
      ensures r.Success? ==>
        && fresh(r.value.nonce)
        && Evaluate(i).Cleared?
        && authorizations == old(authorizations)[r.value.nonce := OpenAuthorization(i)]
    {
      if !Evaluate(i).Cleared? {
        return Failure(Rejected);
      }
      var token := Issue(OpenAuthorization(i), OpenMint(i));
      r := Success(token);
    }

    method MintReduceOnly(position: Option<Position>, intent: Intent) returns (r: Result<Token, PreflightError>)
      requires Valid()
      modifies this
      ensures Valid() && consumptions == old(consumptions) && runtime == old(runtime)
      ensures r.Success? <==> MayReduce(position, intent)
      ensures r.Failure? ==> authorizations == old(authorizations)
      ensures r.Success? ==>
        && fresh(r.value.nonce)
        && authorizations == old(authorizations)[r.value.nonce := ReduceAuthorization(position.value, intent)]
    {
      if !MayReduce(position, intent) {
        return Failure(Rejected);
      }
      var token := Issue(ReduceAuthorization(position.value, intent), ReduceMint(position.value, intent));
      r := Success(token);
    }

    /** Spends an authorization. A reduce is never questioned; an open is checked
        against the bound clock and generation, and is gone whatever they say. */
    method Consume(token: Token) returns (r: Result<Authorization, PreflightError>)
      requires Valid()
      modifies this
      ensures Valid() && runtime == old(runtime) && mints == old(mints)
      ensures authorizations == old(authorizations) - {token.nonce}
      ensures token.nonce !in old(authorizations) ==> r == Failure(Forgery)
      ensures r.Success? ==> token.nonce in old(authorizations) && r.value == old(authorizations)[token.nonce]
      ensures token.nonce in old(authorizations) ==>
        var auth := old(authorizations)[token.nonce];
        r.Success? <==>
          auth.kind.ReduceOnly?
          || (runtime != null
              && runtime.nowMs - auth.mintedAtMs.value <= OPEN_TOKEN_TTL_MS
              && runtime.killGeneration == auth.killGeneration.value)
      ensures r.Failure? && token.nonce in old(authorizations) ==>
        r.error == if runtime == null then RuntimeUnbound
                   else if runtime.nowMs - old(authorizations)[token.nonce].mintedAtMs.value > 2000 then TokenExpired
                   else GenerationChanged
      ensures r.Failure? ==> consumptions == old(consumptions)
      ensures r.Success? ==> consumptions == old(consumptions) + [ConsumptionOf(token)]
    {
      if token.nonce !in authorizations {
        return Failure(Forgery);
      }
      var auth := authorizations[token.nonce];
      var stale := if auth.kind.Open? then StaleReason(auth) else None;
      if stale.Some? {
        VoidToken(token);
        return Failure(stale.value);
      }
      Spend(token);
      r := Success(auth);
    }

    /** The spending itself, once nothing speaks against it. */
    method Spend(token: Token)
      requires Valid() && token.nonce in authorizations
      requires authorizations[token.nonce].kind.Open? ==> StaleReason(authorizations[token.nonce]).None?
      modifies this
      ensures Valid() && runtime == old(runtime) && mints == old(mints)
      ensures authorizations == old(authorizations) - {token.nonce}
      ensures consumptions == old(consumptions) + [ConsumptionOf(token)] && IsSpent(ConsumptionOf(token), token)
    {
      BackedMeansWarranted(mints[token.nonce], authorizations[token.nonce], ConsumptionOf(token));
      VoidToken(token);
      consumptions := consumptions + [ConsumptionOf(token)];
    }

    /** Why an open authorization can no longer be consumed, if it cannot. */
    function StaleReason(auth: Authorization): Option<PreflightError>
      reads this, runtime
    {
      if runtime == null then Some(RuntimeUnbound)
      else if auth.mintedAtMs.None? || runtime.nowMs - auth.mintedAtMs.value > OPEN_TOKEN_TTL_MS then Some(TokenExpired)
      else if auth.killGeneration.None? || runtime.killGeneration != auth.killGeneration.value then Some(GenerationChanged)
      else None
    }

    /** Records the token, and the clock and kill generation of that moment if there are any. */
    ghost predicate IsSpent(c: Consumption, token: Token)
      reads this, runtime
    {
      && c.nonce == token.nonce && (c.bound <==> runtime != null)
      && (runtime != null ==> (c.atMs, c.killGeneration) == (runtime.nowMs, runtime.killGeneration))
    }

    ghost function ConsumptionOf(token: Token): Consumption
      reads this, runtime
    {
      if runtime == null then Consumption(token.nonce, false, 0, 0)
      else Consumption(token.nonce, true, runtime.nowMs, runtime.killGeneration)
    }

    /** Idempotent: an authorization that is not there stays not there. */
    method VoidToken(token: Token)
      requires Valid()
      modifies this
      ensures Valid() && runtime == old(runtime) && mints == old(mints) && consumptions == old(consumptions)
      ensures authorizations == old(authorizations) - {token.nonce}
    {
      authorizations := authorizations - {token.nonce};
    }

    method BindRuntime(runtime: Runtime) returns (r: Outcome<PreflightError>)
      requires Valid()
      modifies this`runtime
      ensures Valid()
      ensures r.Pass? <==> old(this.runtime) == null
      ensures this.runtime == if r.Pass? then runtime else old(this.runtime)
    {
      if this.runtime != null {
        return Fail(AlreadyBound);
      }
      this.runtime := runtime;
      r := Pass;
    }

    method UnbindRuntime()
      requires Valid()
      modifies this`runtime
      ensures Valid() && runtime == null
    {
      runtime := null;
    }

    /** The broker's chokepoint. A failed check leaves the token for its own intent;
        passing it consumes the token. */
    method RequireToken(intent: Intent, token: Token) returns (r: Outcome<PreflightError>)
      requires Valid()
      modifies this
      ensures Valid() && runtime == old(runtime) && mints == old(mints)
      ensures var covered := token.nonce in old(authorizations) && Covers(old(authorizations)[token.nonce], intent);
              && authorizations == (if covered then old(authorizations) - {token.nonce} else old(authorizations))
              && (!covered ==> r == Fail(Forgery))
              && (covered && intent.isReducing ==> r.Pass?)
              && (covered && !intent.isReducing ==>
                    var auth := old(authorizations)[token.nonce];
                    r.Pass? <==>
                      && runtime != null && runtime.nowMs - auth.mintedAtMs.value <= 2000
                      && runtime.killGeneration == auth.killGeneration.value)
              && (r.Pass? ==> covered)
      ensures r.Fail? ==> consumptions == old(consumptions)
      ensures r.Pass? ==> consumptions == old(consumptions) + [ConsumptionOf(token)]
    {
      if token.nonce !in authorizations || !Covers(authorizations[token.nonce], intent) {
        return Fail(Forgery);
      }
      var consumed := Consume(token);
      match consumed {
        case Success(_) => r := Pass;
        case Failure(e) => r := Fail(e);
      }
    }
  }
}
