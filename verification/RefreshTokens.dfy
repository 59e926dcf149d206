/**
 * Refresh-token rotation (internal/service/auth.go) with each call to Redis or Postgres as one atomic step,
 * so that any number of sign-ins, refreshes and logouts interleave.
 */
module RefreshTokens {
  import opened Common
  import opened KeyStore

  type Token = nat
  type User = nat

  /**
   * A call between two steps. The sign-in a call goes back to, directly or through the token it presented,
   * is its chain.
   */
  datatype Call =
    | Getting(presented: Token)                                    // Refresh, inside Get
    | Got(presented: Token, user: User, chain: nat)                // Refresh, inside Delete
    | LookingUp(origin: Option<Token>, user: User, chain: nat)     // Refresh, inside FindByID
    | Minting(origin: Option<Token>, user: User, chain: nat)       // issueTokens, before the token is generated
    | Storing(origin: Option<Token>, user: User, chain: nat, token: Token)  // issueTokens, inside Set
    | Revoking(presented: Token)                                   // Logout, inside Delete

  /** A pair handed to a client, with the refresh token it was obtained for, if any. */
  datatype Pair = Pair(call: nat, origin: Option<Token>, token: Token)

  datatype State = State(
    now: int,
    ttl: int,
    tokens: map<Token, Entry<User>>,   // the refresh: keys
    minted: map<Token, nat>,           // every token generated so far, with its chain
    signIns: map<nat, User>,           // the accepted Signup and Login calls
    calls: nat,
    inFlight: map<nat, Call>,
    hits: set<(nat, Token)>,           // the Refresh calls whose Get found their token
    pairs: seq<Pair>)

  datatype Action =
    | Tick(elapsed: nat)
    | SignIn(user: User)               // Signup has inserted the user, or Login has checked the password
    | RefreshBegins(token: Token)
    | LogoutBegins(token: Token)
    | GetReturns(call: nat, failed: bool)
    | DeleteReturns(call: nat, applied: bool)
    | LookupReturns(call: nat, found: bool)
    | Mints(call: nat, token: Token)
    | StoreReturns(call: nat, ok: bool, applied: bool)
    | CallEnds(call: nat)              // an error on the way, or the end of the process

  predicate Enabled(s: State, a: Action) {
    match a
    case Tick(_) => true
    case SignIn(_) => true
    case RefreshBegins(_) => true
    case LogoutBegins(_) => true
    case GetReturns(c, _) => c in s.inFlight && s.inFlight[c].Getting?
    case DeleteReturns(c, _) => c in s.inFlight && (s.inFlight[c].Got? || s.inFlight[c].Revoking?)
    case LookupReturns(c, _) => c in s.inFlight && s.inFlight[c].LookingUp?
    // 32 random bytes: a generated token is new.
    case Mints(c, token) => c in s.inFlight && s.inFlight[c].Minting? && token !in s.minted
    case StoreReturns(c, ok, applied) => c in s.inFlight && s.inFlight[c].Storing? && (ok ==> applied)
    case CallEnds(c) => c in s.inFlight
  }

  function Begin(s: State, call: Call): State {
    s.(calls := s.calls + 1, inFlight := s.inFlight[s.calls := call])
  }

  function Apply(s: State, a: Action): State
    requires Enabled(s, a)
  {
    match a
    case Tick(elapsed) => s.(now := s.now + elapsed)
    case SignIn(user) => Begin(s, Minting(None, user, s.calls)).(signIns := s.signIns[s.calls := user])
    case RefreshBegins(token) => Begin(s, Getting(token))
    case LogoutBegins(token) => Begin(s, Revoking(token))
    case GetReturns(c, failed) =>
      var token := s.inFlight[c].presented;
      if !failed && Live(s.tokens, token, s.now) && token in s.minted then
        s.(inFlight := s.inFlight[c := Got(token, s.tokens[token].value, s.minted[token])],
           hits := s.hits + {(c, token)})
      else
        s.(inFlight := s.inFlight - {c})
    // Refresh ignores the error of its Delete and goes on; Logout ends here.
    case DeleteReturns(c, applied) =>
      var call := s.inFlight[c];
      s.(tokens := if applied then s.tokens - {call.presented} else s.tokens,
         inFlight := if call.Got? then s.inFlight[c := LookingUp(Some(call.presented), call.user, call.chain)]
                     else s.inFlight - {c})
    case LookupReturns(c, found) =>
      var LookingUp(origin, user, chain) := s.inFlight[c];
      s.(inFlight := if found then s.inFlight[c := Minting(origin, user, chain)] else s.inFlight - {c})
    case Mints(c, token) =>
      var Minting(origin, user, chain) := s.inFlight[c];
      s.(minted := s.minted[token := chain], inFlight := s.inFlight[c := Storing(origin, user, chain, token)])
    case StoreReturns(c, ok, applied) =>
      var Storing(origin, user, chain, token) := s.inFlight[c];
      s.(tokens := if applied then Write(s.tokens, token, user, s.now, s.ttl) else s.tokens,
         inFlight := s.inFlight - {c},
         pairs := if ok then s.pairs + [Pair(c, origin, token)] else s.pairs)
    case CallEnds(c) => s.(inFlight := s.inFlight - {c})
  }

  predicate ValidRun(s: State, run: seq<Action>)
    decreases |run|
  {
    run == [] || (Enabled(s, run[0]) && ValidRun(Apply(s, run[0]), run[1..]))
  }

  function After(s: State, run: seq<Action>): State
    requires ValidRun(s, run)
    decreases |run|
  {
    if run == [] then s else After(Apply(s, run[0]), run[1..])
  }

  predicate Initial(s: State) {
    && s.tokens == map[] && s.minted == map[] && s.signIns == map[] && s.calls == 0 && s.inFlight == map[]
    && s.hits == {} && s.pairs == []
  }
}
