/** How often a refresh token can be used, and how many stay alive. */
module RefreshTokenTheorems {
  import opened Common
  import opened KeyStore
  import opened RefreshTokens

  // ---------------------------------------------------------------- the invariant

  /** Some call is about to store this token. */
  predicate BeingStored(inFlight: map<nat, Call>, token: Token) {
    exists c :: c in inFlight && inFlight[c].Storing? && inFlight[c].token == token
  }

  /** A token is generated before it is stored, by one call, and stored once. */
  ghost predicate TokensOk(tokens: map<Token, Entry<User>>, minted: map<Token, nat>, inFlight: map<nat, Call>) {
    && (forall t | t in tokens :: t in minted && !BeingStored(inFlight, t))
    && (forall c | c in inFlight && inFlight[c].Storing? :: inFlight[c].token in minted)
    && (forall c, d | c in inFlight && d in inFlight && inFlight[c].Storing? && inFlight[d].Storing?
                      && inFlight[c].token == inFlight[d].token :: c == d)
    && (forall c | c in inFlight && inFlight[c].Got? ::
          inFlight[c].presented in minted && !BeingStored(inFlight, inFlight[c].presented))
  }

  /** The refresh token a call has used, once its Get has found it. */
  function Used(call: Call): Option<Token> {
    match call
    case Getting(_) => None
    case Got(token, _, _) => Some(token)
    case LookingUp(origin, _, _) => origin
    case Minting(origin, _, _) => origin
    case Storing(origin, _, _, _) => origin
    case Revoking(_) => None
  }

  /** A call that uses a token has hit it, and has no pair yet; every pair for a token has its own hit. */
  ghost predicate UsesOk(s: State) {
    && (forall c | c in s.inFlight :: c < s.calls && (Used(s.inFlight[c]).Some? ==> (c, Used(s.inFlight[c]).value) in s.hits))
    && (forall h | h in s.hits :: h.0 < s.calls)
    && (forall k | 0 <= k < |s.pairs| ::
          s.pairs[k].call < s.calls && s.pairs[k].call !in s.inFlight
          && (s.pairs[k].origin.Some? ==> (s.pairs[k].call, s.pairs[k].origin.value) in s.hits))
    && (forall j, k | 0 <= j < k < |s.pairs| :: s.pairs[j].call != s.pairs[k].call)
  }

  ghost predicate Inv(s: State) {
    TokensOk(s.tokens, s.minted, s.inFlight) && UsesOk(s)
  }

  /** A call that begins, moves on without a token to store, or ends, is no danger to the tokens. */
  lemma MovingKeepsTokens(tokens: map<Token, Entry<User>>, minted: map<Token, nat>, inFlight: map<nat, Call>, c: nat,
                          next: Call)
    requires TokensOk(tokens, minted, inFlight) && (c in inFlight ==> !inFlight[c].Storing?) && !next.Storing?
    requires next.Got? ==> next.presented in minted && !BeingStored(inFlight, next.presented)
    ensures TokensOk(tokens, minted, inFlight[c := next])
  {
    var after := inFlight[c := next];
    forall t | BeingStored(after, t)
      ensures BeingStored(inFlight, t)
    {
    }
  }

  lemma EndingKeepsTokens(tokens: map<Token, Entry<User>>, minted: map<Token, nat>, inFlight: map<nat, Call>, c: nat)
    requires TokensOk(tokens, minted, inFlight)
    ensures TokensOk(tokens, minted, inFlight - {c})
  {
    var after := inFlight - {c};
    forall t | BeingStored(after, t)
      ensures BeingStored(inFlight, t)
    {
    }
  }

  lemma DeletingKeepsTokens(tokens: map<Token, Entry<User>>, minted: map<Token, nat>, inFlight: map<nat, Call>, t: Token)
    requires TokensOk(tokens, minted, inFlight)
    ensures TokensOk(tokens - {t}, minted, inFlight)
  {
  }

  lemma MintKeepsTokens(s: State, c: nat, token: Token)
    requires TokensOk(s.tokens, s.minted, s.inFlight) && Enabled(s, Mints(c, token))
    ensures var t := Apply(s, Mints(c, token)); TokensOk(t.tokens, t.minted, t.inFlight)
  {
    var t := Apply(s, Mints(c, token));
    forall u | BeingStored(t.inFlight, u)
      ensures u == token || BeingStored(s.inFlight, u)
    {
    }
  }

  lemma StoreKeepsTokens(s: State, c: nat, ok: bool, applied: bool)
    requires TokensOk(s.tokens, s.minted, s.inFlight) && Enabled(s, StoreReturns(c, ok, applied))
    ensures var t := Apply(s, StoreReturns(c, ok, applied)); TokensOk(t.tokens, t.minted, t.inFlight)
  {
    var t := Apply(s, StoreReturns(c, ok, applied));
    var token := s.inFlight[c].token;
    EndingKeepsTokens(s.tokens, s.minted, s.inFlight, c);
    assert !BeingStored(t.inFlight, token);
  }

  lemma DeleteKeepsTokens(s: State, c: nat, applied: bool)
    requires TokensOk(s.tokens, s.minted, s.inFlight) && Enabled(s, DeleteReturns(c, applied))
    ensures var t := Apply(s, DeleteReturns(c, applied)); TokensOk(t.tokens, t.minted, t.inFlight)
  {
    var call := s.inFlight[c];
    var tokens := if applied then s.tokens - {call.presented} else s.tokens;
    DeletingKeepsTokens(s.tokens, s.minted, s.inFlight, call.presented);
    if call.Got? {
      MovingKeepsTokens(tokens, s.minted, s.inFlight, c, LookingUp(Some(call.presented), call.user, call.chain));
    } else {
      EndingKeepsTokens(tokens, s.minted, s.inFlight, c);
    }
  }

  lemma StepKeepsTokens(s: State, a: Action)
    requires TokensOk(s.tokens, s.minted, s.inFlight) && Enabled(s, a)
    requires forall c | c in s.inFlight :: c < s.calls
    ensures TokensOk(Apply(s, a).tokens, Apply(s, a).minted, Apply(s, a).inFlight)
  {
    match a
    case Tick(_) =>
    case SignIn(user) => MovingKeepsTokens(s.tokens, s.minted, s.inFlight, s.calls, Minting(None, user, s.calls));
    case RefreshBegins(token) => MovingKeepsTokens(s.tokens, s.minted, s.inFlight, s.calls, Getting(token));
    case LogoutBegins(token) => MovingKeepsTokens(s.tokens, s.minted, s.inFlight, s.calls, Revoking(token));
    case GetReturns(c, _) =>
      EndingKeepsTokens(s.tokens, s.minted, s.inFlight, c);
      var token := s.inFlight[c].presented;
      if Live(s.tokens, token, s.now) && token in s.minted {
        MovingKeepsTokens(s.tokens, s.minted, s.inFlight, c, Got(token, s.tokens[token].value, s.minted[token]));
      }
    case DeleteReturns(c, applied) => DeleteKeepsTokens(s, c, applied);
    case LookupReturns(c, found) =>
      EndingKeepsTokens(s.tokens, s.minted, s.inFlight, c);
      var LookingUp(origin, user, chain) := s.inFlight[c];
      MovingKeepsTokens(s.tokens, s.minted, s.inFlight, c, Minting(origin, user, chain));
    case Mints(c, token) => MintKeepsTokens(s, c, token);
    case StoreReturns(c, ok, applied) => StoreKeepsTokens(s, c, ok, applied);
    case CallEnds(c) => EndingKeepsTokens(s.tokens, s.minted, s.inFlight, c);
  }

  lemma StepKeepsUses(s: State, a: Action)
    requires UsesOk(s) && Enabled(s, a)
    ensures UsesOk(Apply(s, a))
  {
  }

  lemma {:induction false} RunKeepsInv(s: State, run: seq<Action>)
    requires Inv(s) && ValidRun(s, run)
    ensures Inv(After(s, run))
    decreases |run|
  {
    if run != [] {
      StepKeepsTokens(s, run[0]);
      StepKeepsUses(s, run[0]);
      RunKeepsInv(Apply(s, run[0]), run[1..]);
    }
  }

  ghost predicate Reachable(s: State) {
    exists s0: State, run: seq<Action> :: Initial(s0) && ValidRun(s0, run) && After(s0, run) == s
  }

  lemma ReachableIsInv(s: State)
    requires Reachable(s)
    ensures Inv(s)
  {
    var s0: State, run: seq<Action> :| Initial(s0) && ValidRun(s0, run) && After(s0, run) == s;
    assert Inv(s0);
    RunKeepsInv(s0, run);
  }

  lemma {:induction false} RunsConcatenate(s: State, run: seq<Action>, more: seq<Action>)
    requires ValidRun(s, run) && ValidRun(After(s, run), more)
    ensures ValidRun(s, run + more) && After(s, run + more) == After(After(s, run), more)
    decreases |run|
  {
    if run == [] {
      assert run + more == more;
    } else {
      RunsConcatenate(Apply(s, run[0]), run[1..], more);
      assert (run + more)[0] == run[0] && (run + more)[1..] == run[1..] + more;
    }
  }

  lemma StepReaches(s: State, a: Action)
    requires Reachable(s) && Enabled(s, a)
    ensures Reachable(Apply(s, a))
  {
    var s0: State, run: seq<Action> :| Initial(s0) && ValidRun(s0, run) && After(s0, run) == s;
    assert ValidRun(Apply(s, a), []) && [a][1..] == [];
    RunsConcatenate(s0, run, [a]);
  }

  // ---------------------------------------------------------------- single use

  /** A token that was generated, is not alive, and is not on its way into the store. */
  predicate Spent(s: State, token: Token) {
    token in s.minted && !Live(s.tokens, token, s.now) && !BeingStored(s.inFlight, token)
  }

  /** In every continuation, no Get finds the token any more. */
  ghost predicate NeverFoundAgain(s: State, token: Token) {
    forall run, h | ValidRun(s, run) && h in After(s, run).hits && h.1 == token :: h in s.hits
  }

  lemma StepKeepsSpent(s: State, a: Action, token: Token)
    requires Inv(s) && Enabled(s, a) && Spent(s, token)
    ensures Spent(Apply(s, a), token)
    ensures forall h | h in Apply(s, a).hits && h.1 == token :: h in s.hits
  {
  }

  lemma {:induction false} RunKeepsSpent(s: State, run: seq<Action>, token: Token)
    requires Inv(s) && ValidRun(s, run) && Spent(s, token)
    ensures Spent(After(s, run), token)
    ensures forall h | h in After(s, run).hits && h.1 == token :: h in s.hits
    decreases |run|
  {
    if run != [] {
      StepKeepsTokens(s, run[0]);
      StepKeepsUses(s, run[0]);
      StepKeepsSpent(s, run[0], token);
      RunKeepsSpent(Apply(s, run[0]), run[1..], token);
    }
  }

  lemma RunsThen(s: State, a: Action, rest: seq<Action>)
    requires Enabled(s, a) && ValidRun(Apply(s, a), rest)
    ensures ValidRun(s, [a] + rest) && After(s, [a] + rest) == After(Apply(s, a), rest)
  {
    assert ([a] + rest)[1..] == rest;
  }

  /** Call c is a Refresh that has found the token since state s. */
  predicate FoundSince(s: State, t: State, c: nat, token: Token) {
    && c in t.inFlight && t.inFlight[c].Got? && t.inFlight[c].presented == token
    && (c, token) in t.hits && (c, token) !in s.hits
  }

  /** A live token is found by the next Refresh that presents it. */
  lemma LiveIsFound(s: State, token: Token) returns (run: seq<Action>, c: nat)
    requires Inv(s) && Live(s.tokens, token, s.now)
    ensures ValidRun(s, run) && FoundSince(s, After(s, run), c, token)
  {
    c := s.calls;
    var begin, get := RefreshBegins(token), GetReturns(c, false);
    var s1 := Apply(s, begin);
    RunsThen(s1, get, []);
    RunsThen(s, begin, [get] + []);
    run := [begin] + ([get] + []);
  }

  /** A call that stores a token makes it live. */
  lemma StoredIsFound(s: State, d: nat) returns (run: seq<Action>, c: nat)
    requires Inv(s) && d in s.inFlight && s.inFlight[d].Storing?
    ensures ValidRun(s, run) && FoundSince(s, After(s, run), c, s.inFlight[d].token)
  {
    var store := StoreReturns(d, true, true);
    StepKeepsTokens(s, store);
    StepKeepsUses(s, store);
    run, c := LiveIsFound(Apply(s, store), s.inFlight[d].token);
    RunsThen(s, store, run);
    run := [store] + run;
  }

  /** A token nobody has generated yet may still be. */
  lemma MintedIsFound(s: State, token: Token) returns (run: seq<Action>, c: nat)
    requires Inv(s) && token !in s.minted
    ensures ValidRun(s, run) && FoundSince(s, After(s, run), c, token)
  {
    var signIn, mint := SignIn(0), Mints(s.calls, token);
    StepKeepsTokens(s, signIn);
    StepKeepsUses(s, signIn);
    var s1 := Apply(s, signIn);
    StepKeepsTokens(s1, mint);
    StepKeepsUses(s1, mint);
    var s2 := Apply(s1, mint);
    run, c := StoredIsFound(s2, s.calls);
    RunsThen(s1, mint, run);
    run := [mint] + run;
    RunsThen(s, signIn, run);
    run := [signIn] + run;
  }

  /** As long as a token is not spent, some Refresh may yet find it. */
  lemma UnspentIsFound(s: State, token: Token) returns (run: seq<Action>, c: nat)
    requires Inv(s) && !Spent(s, token)
    ensures ValidRun(s, run) && FoundSince(s, After(s, run), c, token)
  {
    if Live(s.tokens, token, s.now) {
      run, c := LiveIsFound(s, token);
    } else if token !in s.minted {
      run, c := MintedIsFound(s, token);
    } else {
      var d :| d in s.inFlight && s.inFlight[d].Storing? && s.inFlight[d].token == token;
      run, c := StoredIsFound(s, d);
    }
  }

  /**
   * From a reachable state on, every Refresh whose Get comes later fails for a token exactly when the token
   * was generated, is not alive now and is not being stored.
   */
  lemma NeverFoundAgainIffSpent(s: State, token: Token)
    requires Reachable(s)
    ensures NeverFoundAgain(s, token) <==> Spent(s, token)
  {
    ReachableIsInv(s);
    if Spent(s, token) {
      forall run, h | ValidRun(s, run) && h in After(s, run).hits && h.1 == token
        ensures h in s.hits
      {
        RunKeepsSpent(s, run, token);
      }
    } else {
      var run, c := UnspentIsFound(s, token);
      assert (c, token) in After(s, run).hits;
    }
  }

  /** The Refresh calls that found a token. */
  ghost function FoundBy(s: State, token: Token): set<nat> {
    set h | h in s.hits && h.1 == token :: h.0
  }

  /** The calls that handed out a pair for a token. */
  ghost function PaidBy(s: State, token: Token): set<nat> {
    set k | 0 <= k < |s.pairs| && s.pairs[k].origin == Some(token) :: s.pairs[k].call
  }

  /**
   * Single use: once a Refresh or Logout has deleted a stored token, the token is spent for good, and all the
   * pairs ever obtained for it are obtained by Refresh calls whose Get came before that Delete, one each.
   */
  lemma SingleUse(s: State, c: nat, run: seq<Action>)
    requires Reachable(s) && Enabled(s, DeleteReturns(c, true))
    requires s.inFlight[c].Got? || s.inFlight[c].presented in s.tokens
    requires ValidRun(Apply(s, DeleteReturns(c, true)), run)
    ensures var token, end := s.inFlight[c].presented, After(Apply(s, DeleteReturns(c, true)), run);
            && Spent(end, token)
            && FoundBy(end, token) == FoundBy(s, token)
            && PaidBy(end, token) <= FoundBy(s, token)
            && |PaidBy(end, token)| <= |FoundBy(s, token)|
            && forall j, k | 0 <= j < k < |end.pairs| :: end.pairs[j].call != end.pairs[k].call
  {
    var token, delete := s.inFlight[c].presented, DeleteReturns(c, true);
    ReachableIsInv(s);
    var t := Apply(s, delete);
    DeleteSpends(s, c);
    StepKeepsTokens(s, delete);
    StepKeepsUses(s, delete);
    RunKeepsSpent(t, run, token);
    RunKeepsInv(t, run);
    HitsStay(t, run);
    var end := After(t, run);
    assert t.hits == s.hits;
    assert forall n | n in PaidBy(end, token) :: (n, token) in end.hits;
    SubsetSize(PaidBy(end, token), FoundBy(s, token));
  }

  lemma DeleteSpends(s: State, c: nat)
    requires Inv(s) && Enabled(s, DeleteReturns(c, true))
    requires s.inFlight[c].Got? || s.inFlight[c].presented in s.tokens
    ensures Spent(Apply(s, DeleteReturns(c, true)), s.inFlight[c].presented)
  {
  }

  lemma {:induction false} HitsStay(s: State, run: seq<Action>)
    requires ValidRun(s, run)
    ensures s.hits <= After(s, run).hits && s.pairs <= After(s, run).pairs
    decreases |run|
  {
    if run != [] {
      HitsStay(Apply(s, run[0]), run[1..]);
    }
  }

  // Calls that overlap do share a token: both find it before either deletes it.

  lemma FreshToken(s: State) returns (token: Token)
    ensures token !in s.minted
  {
    token := 0;
    if s.minted.Keys != {} {
      var last := Largest(s.minted.Keys);
      token := last + 1;
    }
  }

  function StepsLeft(call: Call): nat {
    match call
    case Got(_, _, _) => 4
    case LookingUp(_, _, _) => 3
    case Minting(_, _, _) => 2
    case Storing(_, _, _, _) => 1
    case _ => 0
  }

  /** A Refresh that has found its token can go through to a new pair, and disturbs no other call. */
  lemma {:induction false} GoesThrough(s: State, c: nat) returns (run: seq<Action>)
    requires c in s.inFlight && Used(s.inFlight[c]).Some?
    ensures ValidRun(s, run)
    ensures var t := After(s, run);
            && |t.pairs| == |s.pairs| + 1 && s.pairs <= t.pairs
            && t.pairs[|s.pairs|].origin == Used(s.inFlight[c]) && t.pairs[|s.pairs|].call == c
            && t.inFlight == s.inFlight - {c}
    decreases StepsLeft(s.inFlight[c])
  {
    if s.inFlight[c].Storing? {
      RunsThen(s, StoreReturns(c, true, true), []);
      run := [StoreReturns(c, true, true)] + [];
    } else {
      var token := FreshToken(s);
      var a := if s.inFlight[c].Got? then DeleteReturns(c, true)
               else if s.inFlight[c].LookingUp? then LookupReturns(c, true) else Mints(c, token);
      var rest := GoesThrough(Apply(s, a), c);
      assert Apply(s, a).inFlight - {c} == s.inFlight - {c};
      RunsThen(s, a, rest);
      run := [a] + rest;
    }
  }

  /** Two Refresh calls present a live token and both find it. */
  lemma BothFind(s: State, token: Token) returns (run: seq<Action>)
    requires Inv(s) && Live(s.tokens, token, s.now)
    ensures ValidRun(s, run)
    ensures var t, c, d := After(s, run), s.calls, s.calls + 1;
            && c in t.inFlight && t.inFlight[c].Got? && t.inFlight[c].presented == token
            && d in t.inFlight && t.inFlight[d].Got? && t.inFlight[d].presented == token
            && t.pairs == s.pairs
  {
    var a1, a2, a3, a4 := RefreshBegins(token), RefreshBegins(token), GetReturns(s.calls, false), GetReturns(s.calls + 1, false);
    var s1 := Apply(s, a1);
    var s2 := Apply(s1, a2);
    var s3 := Apply(s2, a3);
    RunsThen(s3, a4, []);
    RunsThen(s2, a3, [a4] + []);
    run := [a3] + ([a4] + []);
    RunsThen(s1, a2, run);
    run := [a2] + run;
    RunsThen(s, a1, run);
    run := [a1] + run;
  }

  /** In any reachable state, two overlapping Refresh calls can obtain two pairs for one live token. */
  lemma OverlapPaysTwice(s: State, token: Token) returns (run: seq<Action>)
    requires Reachable(s) && Live(s.tokens, token, s.now)
    ensures ValidRun(s, run)
    ensures var t := After(s, run);
            && |t.pairs| == |s.pairs| + 2
            && t.pairs[|s.pairs|].origin == Some(token) && t.pairs[|s.pairs| + 1].origin == Some(token)
            && t.pairs[|s.pairs|].call != t.pairs[|s.pairs| + 1].call
  {
    ReachableIsInv(s);
    run := BothFind(s, token);
    var more := GoesThrough(After(s, run), s.calls);
    RunsConcatenate(s, run, more);
    run := run + more;
    more := GoesThrough(After(s, run), s.calls + 1);
    RunsConcatenate(s, run, more);
    run := run + more;
  }

  // ---------------------------------------------------------------- how long a token lives

  /** The step deletes the token. */
  predicate Revokes(s: State, a: Action, token: Token)
    requires Enabled(s, a)
  {
    a.DeleteReturns? && a.applied && s.inFlight[a.call].presented == token
  }

  predicate Revoked(s: State, run: seq<Action>, token: Token)
    requires ValidRun(s, run)
    decreases |run|
  {
    run != [] && (Revokes(s, run[0], token) || Revoked(Apply(s, run[0]), run[1..], token))
  }

  /** A stored token is written once; only a Delete takes it out of the store. */
  lemma StepKeepsEntry(s: State, a: Action, token: Token)
    requires Enabled(s, a) && token in s.minted && !BeingStored(s.inFlight, token)
    ensures var t := Apply(s, a);
            && token in t.minted && !BeingStored(t.inFlight, token)
            && (token in t.tokens <==> token in s.tokens && !Revokes(s, a, token))
            && (token in t.tokens ==> t.tokens[token] == s.tokens[token])
  {
  }

  lemma {:induction false} RunKeepsEntry(s: State, run: seq<Action>, token: Token)
    requires ValidRun(s, run) && token in s.minted && !BeingStored(s.inFlight, token)
    ensures var t := After(s, run);
            && (token in t.tokens <==> token in s.tokens && !Revoked(s, run, token))
            && (token in t.tokens ==> t.tokens[token] == s.tokens[token])
    decreases |run|
  {
    if run != [] {
      StepKeepsEntry(s, run[0], token);
      RunKeepsEntry(Apply(s, run[0]), run[1..], token);
    }
  }

  /**
   * Once a call has stored its token, the token stands for the call's user exactly until a Delete of it takes effect
   * or its time to live is over (never, if that is not positive).
   */
  lemma TokenLivesIff(s: State, c: nat, ok: bool, run: seq<Action>)
    requires Reachable(s) && Enabled(s, StoreReturns(c, ok, true)) && ValidRun(Apply(s, StoreReturns(c, ok, true)), run)
    ensures var start, token, user := Apply(s, StoreReturns(c, ok, true)), s.inFlight[c].token, s.inFlight[c].user;
            var end := After(start, run);
            Read(end.tokens, token, end.now)
            == if !Revoked(start, run, token) && (s.ttl > 0 ==> end.now < s.now + s.ttl) then Some(user) else None
  {
    ReachableIsInv(s);
    var t := Apply(s, StoreReturns(c, ok, true));
    StoreKeepsTokens(s, c, ok, true);
    RunKeepsEntry(t, run, s.inFlight[c].token);
  }

  // ---------------------------------------------------------------- no further pair

  /** In every continuation, nobody obtains another pair for the token. */
  ghost predicate NeverPaidAgain(s: State, token: Token) {
    forall run, k | ValidRun(s, run) && |s.pairs| <= k < |After(s, run).pairs| ::
      After(s, run).pairs[k].origin != Some(token)
  }

  ghost predicate Unused(s: State, token: Token) {
    forall c | c in s.inFlight :: Used(s.inFlight[c]) != Some(token)
  }

  lemma StepKeepsUnused(s: State, a: Action, token: Token)
    requires Inv(s) && Enabled(s, a) && Spent(s, token) && Unused(s, token)
    ensures Unused(Apply(s, a), token)
    ensures s.pairs <= Apply(s, a).pairs
    ensures forall k | |s.pairs| <= k < |Apply(s, a).pairs| :: Apply(s, a).pairs[k].origin != Some(token)
  {
  }

  lemma {:induction false} RunKeepsUnused(s: State, run: seq<Action>, token: Token)
    requires Inv(s) && ValidRun(s, run) && Spent(s, token) && Unused(s, token)
    ensures s.pairs <= After(s, run).pairs
    ensures forall k | |s.pairs| <= k < |After(s, run).pairs| :: After(s, run).pairs[k].origin != Some(token)
    decreases |run|
  {
    if run != [] {
      StepKeepsTokens(s, run[0]);
      StepKeepsUses(s, run[0]);
      StepKeepsSpent(s, run[0], token);
      StepKeepsUnused(s, run[0], token);
      RunKeepsUnused(Apply(s, run[0]), run[1..], token);
    }
  }

  /** A token is paid for no more exactly when it is spent and no running call has used it. */
  lemma NeverPaidAgainIff(s: State, token: Token)
    requires Reachable(s)
    ensures NeverPaidAgain(s, token) <==> Spent(s, token) && Unused(s, token)
  {
    ReachableIsInv(s);
    if Spent(s, token) && Unused(s, token) {
      forall run, k | ValidRun(s, run) && |s.pairs| <= k < |After(s, run).pairs|
        ensures After(s, run).pairs[k].origin != Some(token)
      {
        RunKeepsUnused(s, run, token);
      }
    } else {
      var run := MayBePaidAgain(s, token);
    }
  }

  lemma MayBePaidAgain(s: State, token: Token) returns (run: seq<Action>)
    requires Inv(s) && !(Spent(s, token) && Unused(s, token))
    ensures ValidRun(s, run)
    ensures exists k :: |s.pairs| <= k < |After(s, run).pairs| && After(s, run).pairs[k].origin == Some(token)
  {
    if c :| c in s.inFlight && Used(s.inFlight[c]) == Some(token) {
      run := GoesThrough(s, c);
      assert After(s, run).pairs[|s.pairs|].origin == Some(token);
    } else {
      var c;
      run, c := UnspentIsFound(s, token);
      HitsStay(s, run);
      var t := After(s, run);
      var more := GoesThrough(t, c);
      RunsConcatenate(s, run, more);
      run := run + more;
      assert After(s, run).pairs[|t.pairs|].origin == Some(token);
    }
  }
}
