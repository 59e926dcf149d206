/**
 * The authentication service as an object over the shared cache. Its step methods are what a call does
 * between two round trips; Refresh, Logout and SignIn put them together as the source does.
 */
module AuthService {
  import opened Common
  import opened KeyStore
  import opened RefreshTokens
  import opened RefreshTokenTheorems

  /** What a Refresh meets: the answers of Redis and Postgres, and the token the generator draws. */
  datatype World = World(
    getFails: bool, deleteApplied: bool, userFound: bool, drawn: Token, storeOk: bool, storeApplied: bool)

  class AuthService {
    const cache: Client<Token, User>
    const ttl: int
    var now: int
    var minted: map<Token, nat>
    var signIns: map<nat, User>
    var calls: nat
    var inFlight: map<nat, Call>
    var hits: set<(nat, Token)>
    var pairs: seq<Pair>

    ghost function Abs(): State
      reads this, cache
    {
      State(now, ttl, cache.store, minted, signIns, calls, inFlight, hits, pairs)
    }

    /** Some run of sign-ins, refreshes and logouts has led here, so every theorem about reachable states applies. */
    ghost predicate Valid()
      reads this, cache
    {
      Reachable(Abs())
    }

    constructor (now: int, ttl: int)
      ensures Valid() && fresh(cache) && Initial(Abs()) && this.ttl == ttl
    {
      cache := new Client<Token, User>();
      this.now, this.ttl := now, ttl;
      minted, signIns, calls, inFlight, hits, pairs := map[], map[], 0, map[], {}, [];
      new;
      assert ValidRun(Abs(), []) && After(Abs(), []) == Abs();
    }

    // ---------------------------------------------------------------- the steps

    method BeginSignIn(user: User) returns (c: nat)
      requires Valid()
      modifies this`signIns, this`calls, this`inFlight
      ensures Valid() && c == old(calls) && Abs() == Apply(old(Abs()), Action.SignIn(user))
    {
      StepReaches(Abs(), Action.SignIn(user));
      c := calls;
      signIns := signIns[c := user];
      inFlight := inFlight[c := Minting(None, user, c)];
      calls := calls + 1;
    }

    method BeginRefresh(token: Token) returns (c: nat)
      requires Valid()
      modifies this`calls, this`inFlight
      ensures Valid() && c == old(calls) && Abs() == Apply(old(Abs()), RefreshBegins(token))
    {
      StepReaches(Abs(), RefreshBegins(token));
      c := calls;
      inFlight := inFlight[c := Getting(token)];
      calls := calls + 1;
    }

    method BeginLogout(token: Token) returns (c: nat)
      requires Valid()
      modifies this`calls, this`inFlight
      ensures Valid() && c == old(calls) && Abs() == Apply(old(Abs()), LogoutBegins(token))
    {
      StepReaches(Abs(), LogoutBegins(token));
      c := calls;
      inFlight := inFlight[c := Revoking(token)];
      calls := calls + 1;
    }

    method Get(c: nat, failed: bool) returns (found: bool)
      requires Valid() && Enabled(Abs(), GetReturns(c, failed))
      modifies this`inFlight, this`hits
      ensures Valid() && Abs() == Apply(old(Abs()), GetReturns(c, failed))
      ensures found <==> c in inFlight
    {
      StepReaches(Abs(), GetReturns(c, failed));
      var token := inFlight[c].presented;
      if !failed {
        var user := cache.Get(token, now);
        if user.Some? && token in minted {
          inFlight := inFlight[c := Got(token, user.value, minted[token])];
          hits := hits + {(c, token)};
          return true;
        }
      }
      inFlight := inFlight - {c};
      return false;
    }

    method Delete(c: nat, applied: bool)
      requires Valid() && Enabled(Abs(), DeleteReturns(c, applied))
      modifies this`inFlight, cache
      ensures Valid() && Abs() == Apply(old(Abs()), DeleteReturns(c, applied))
    {
      StepReaches(Abs(), DeleteReturns(c, applied));
      var call := inFlight[c];
      if applied {
        cache.Delete([call.presented]);
        assert (set k | k in [call.presented]) == {call.presented};
      }
      if call.Got? {
        inFlight := inFlight[c := LookingUp(Some(call.presented), call.user, call.chain)];
      } else {
        inFlight := inFlight - {c};
      }
    }

    method Lookup(c: nat, found: bool)
      requires Valid() && Enabled(Abs(), LookupReturns(c, found))
      modifies this`inFlight
      ensures Valid() && Abs() == Apply(old(Abs()), LookupReturns(c, found))
    {
      StepReaches(Abs(), LookupReturns(c, found));
      var LookingUp(origin, user, chain) := inFlight[c];
      if found {
        inFlight := inFlight[c := Minting(origin, user, chain)];
      } else {
        inFlight := inFlight - {c};
      }
    }

    method Mint(c: nat, token: Token)
      requires Valid() && Enabled(Abs(), Mints(c, token))
      modifies this`minted, this`inFlight
      ensures Valid() && Abs() == Apply(old(Abs()), Mints(c, token))
    {
      StepReaches(Abs(), Mints(c, token));
      var Minting(origin, user, chain) := inFlight[c];
      minted := minted[token := chain];
      inFlight := inFlight[c := Storing(origin, user, chain, token)];
    }

    method Store(c: nat, ok: bool, applied: bool)
      requires Valid() && Enabled(Abs(), StoreReturns(c, ok, applied))
      modifies this`inFlight, this`pairs, cache
      ensures Valid() && Abs() == Apply(old(Abs()), StoreReturns(c, ok, applied))
    {
      StepReaches(Abs(), StoreReturns(c, ok, applied));
      var Storing(origin, user, chain, token) := inFlight[c];
      if applied {
        cache.Set(token, user, now, ttl);
      }
      inFlight := inFlight - {c};
      if ok {
        pairs := pairs + [Pair(c, origin, token)];
      }
    }

    // ---------------------------------------------------------------- whole calls, while no other runs

    /** issueTokens for a call that may hand out a pair. */
    method IssueTokens(c: nat, w: World) returns (issued: Option<Token>)
      requires Valid() && c in inFlight && inFlight[c].Minting? && w.drawn !in minted && (w.storeOk ==> w.storeApplied)
      modifies this`minted, this`inFlight, this`pairs, cache
      ensures Valid() && issued == if w.storeOk then Some(w.drawn) else None
      ensures inFlight == old(inFlight) - {c}
      ensures pairs == if w.storeOk then old(pairs) + [Pair(c, old(inFlight[c].origin), w.drawn)] else old(pairs)
      ensures minted == old(minted)[w.drawn := old(inFlight[c].chain)]
      ensures cache.store == if w.storeApplied then Write(old(cache.store), w.drawn, old(inFlight[c].user), now, ttl)
                             else old(cache.store)
    {
      Mint(c, w.drawn);
      Store(c, w.storeOk, w.storeApplied);
      issued := if w.storeOk then Some(w.drawn) else None;
    }

    /** Signup or Login, once the user is established. */
    method SignIn(user: User, w: World) returns (issued: Option<Token>)
      requires Valid() && inFlight == map[] && w.drawn !in minted && (w.storeOk ==> w.storeApplied)
      modifies this, cache
      ensures Valid() && inFlight == map[] && now == old(now)
      ensures issued == if w.storeOk then Some(w.drawn) else None
      ensures issued.Some? ==>
        && w.drawn in cache.store
        && cache.store[w.drawn] == Entry(user, if ttl > 0 then Some(now + ttl) else None)
      ensures forall t | t != w.drawn :: Read(cache.store, t, now) == Read(old(cache.store), t, now)
    {
      var c := BeginSignIn(user);
      issued := IssueTokens(c, w);
    }

    /**
     * Refresh: a pair comes out exactly if the token was alive, the user still exists and every call but the
     * Delete succeeded; from then on the new token stands for the user. Whatever else happens later, nobody
     * finds the old token again exactly if the Delete took effect.
     */
    method Refresh(token: Token, w: World) returns (issued: Option<Token>)
      requires Valid() && inFlight == map[] && w.drawn !in minted && (w.storeOk ==> w.storeApplied)
      modifies this, cache
      ensures Valid() && inFlight == map[] && now == old(now)
      ensures var found := !w.getFails && Live(old(cache.store), token, now);
              && issued == (if found && w.userFound && w.storeOk then Some(w.drawn) else None)
              && (issued.Some? ==>
                    && w.drawn in cache.store && Some(cache.store[w.drawn].value) == Read(old(cache.store), token, now)
                    && cache.store[w.drawn].expiry == if ttl > 0 then Some(now + ttl) else None)
              && Read(cache.store, token, now) == (if found && w.deleteApplied then None else Read(old(cache.store), token, now))
              && (found ==> (NeverFoundAgain(Abs(), token) <==> w.deleteApplied))
              && (!found ==> cache.store == old(cache.store))
      ensures forall t | t != token && t != w.drawn :: Read(cache.store, t, now) == Read(old(cache.store), t, now)
    {
      var c := Present(token, w.getFails);
      if c.None? {
        return None;
      }
      issued := Rotate(c.value, w);
      NeverFoundAgainIffSpent(Abs(), token);
    }

    /** The first half of Refresh: Get the presented token, and give up on an error or a miss. */
    method Present(token: Token, getFails: bool) returns (call: Option<nat>)
      requires Valid() && inFlight == map[]
      modifies this`calls, this`inFlight, this`hits
      ensures Valid()
      ensures call.Some? <==> !getFails && Live(cache.store, token, now)
      ensures call.Some? ==> token in minted && inFlight == map[call.value := Got(token, cache.store[token].value, minted[token])]
      ensures call.None? ==> inFlight == map[]
    {
      assert token in cache.store ==> token in minted by {
        ReachableIsInv(Abs());
      }
      var c := BeginRefresh(token);
      var found := Get(c, getFails);
      return if found then Some(c) else None;
    }

    /** The second half: the Delete, whose error is ignored, and a new pair if the user still exists. */
    method Rotate(c: nat, w: World) returns (issued: Option<Token>)
      requires Valid() && inFlight.Keys == {c} && inFlight[c].Got?
      requires w.drawn !in minted && (w.storeOk ==> w.storeApplied)
      modifies this`minted, this`inFlight, this`pairs, cache
      ensures Valid() && inFlight == map[]
      ensures issued == if w.userFound && w.storeOk then Some(w.drawn) else None
      ensures minted.Keys >= old(minted.Keys)
      ensures var call := old(inFlight[c]);
              var rest := if w.deleteApplied then old(cache.store) - {call.presented} else old(cache.store);
              cache.store == if w.userFound && w.storeApplied then Write(rest, w.drawn, call.user, now, ttl) else rest
    {
      Delete(c, w.deleteApplied);
      Lookup(c, w.userFound);
      if !w.userFound {
        return None;
      }
      issued := IssueTokens(c, w);
    }

    /** Logout touches no other token; its own is never found again exactly if it is dead from here on. */
    method Logout(token: Token, applied: bool)
      requires Valid() && inFlight == map[]
      modifies this, cache
      ensures Valid() && inFlight == map[] && now == old(now)
      ensures cache.store == if applied then old(cache.store) - {token} else old(cache.store)
      ensures Live(old(cache.store), token, now) ==> (NeverFoundAgain(Abs(), token) <==> applied)
    {
      assert token in cache.store ==> token in minted by {
        ReachableIsInv(Abs());
      }
      var c := BeginLogout(token);
      Delete(c, applied);
      NeverFoundAgainIffSpent(Abs(), token);
    }
  }
}
