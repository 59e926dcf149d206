/** Rotation chains: how many live tokens a sign-in leaves behind when calls do not overlap. */
module RefreshTokenChains {
  import opened Common
  import opened KeyStore
  import opened RefreshTokens
  import opened RefreshTokenTheorems

  predicate Begins(a: Action) {
    a.SignIn? || a.RefreshBegins? || a.LogoutBegins?
  }

  /** A call begins only when no other is running. */
  predicate NonOverlapping(s: State, run: seq<Action>)
    requires ValidRun(s, run)
    decreases |run|
  {
    run == [] || ((Begins(run[0]) ==> s.inFlight == map[]) && NonOverlapping(Apply(s, run[0]), run[1..]))
  }

  /** The Delete of a Refresh takes effect, or its token has expired since it was found; the source ignores its error. */
  predicate Disposes(s: State, a: Action)
    requires Enabled(s, a)
  {
    a.DeleteReturns? && s.inFlight[a.call].Got? ==> a.applied || !Live(s.tokens, s.inFlight[a.call].presented, s.now)
  }

  predicate AllDispose(s: State, run: seq<Action>)
    requires ValidRun(s, run)
    decreases |run|
  {
    run == [] || (Disposes(s, run[0]) && AllDispose(Apply(s, run[0]), run[1..]))
  }

  // ---------------------------------------------------------------- the invariant

  /** A token in the store belongs to a chain of its owner's, and no two live ones to the same. */
  ghost predicate ChainsOk(tokens: map<Token, Entry<User>>, minted: map<Token, nat>, signIns: map<nat, User>, now: int) {
    && (forall t | t in tokens :: t in minted && minted[t] in signIns && signIns[minted[t]] == tokens[t].value)
    && (forall t, u | Live(tokens, t, now) && Live(tokens, u, now) && minted[t] == minted[u] :: t == u)
  }

  predicate HasChain(call: Call) {
    !call.Getting? && !call.Revoking?
  }

  /** The running call extends a chain whose tokens are all dead, but for the one it has yet to delete. */
  ghost predicate CallOk(call: Call, tokens: map<Token, Entry<User>>, minted: map<Token, nat>, signIns: map<nat, User>,
                         now: int) {
    HasChain(call) ==>
      && call.chain in signIns && signIns[call.chain] == call.user
      && (call.Got? ==> call.presented in minted && minted[call.presented] == call.chain)
      && (call.Storing? ==> call.token in minted && minted[call.token] == call.chain && call.origin != Some(call.token))
      && (forall t | Live(tokens, t, now) && t in minted && minted[t] == call.chain :: call.Got? && t == call.presented)
      && (!call.Got? && call.origin.Some? ==> call.origin.value in minted && !Live(tokens, call.origin.value, now))
  }

  ghost predicate CallsOk(s: State) {
    && (forall c, d | c in s.inFlight && d in s.inFlight :: c == d)
    && (forall c | c in s.inFlight :: c < s.calls && CallOk(s.inFlight[c], s.tokens, s.minted, s.signIns, s.now))
    && (forall c | c in s.signIns :: c < s.calls)
    && (forall t | t in s.minted :: s.minted[t] < s.calls)
  }

  /** A token that was paid for is dead, and the running call neither uses it nor stores it. */
  predicate PaidFor(s: State, token: Token) {
    && token in s.minted && !Live(s.tokens, token, s.now)
    && forall c | c in s.inFlight ::
         Used(s.inFlight[c]) != Some(token) && (s.inFlight[c].Storing? ==> s.inFlight[c].token != token)
  }

  ghost predicate PaidOk(s: State) {
    forall k | 0 <= k < |s.pairs| && s.pairs[k].origin.Some? :: PaidFor(s, s.pairs[k].origin.value)
  }

  /** No token was paid for twice. */
  ghost predicate PaidOnce(pairs: seq<Pair>) {
    forall j, k | 0 <= j < k < |pairs| && pairs[j].origin.Some? :: pairs[j].origin != pairs[k].origin
  }

  ghost predicate ChainInv(s: State) {
    ChainsOk(s.tokens, s.minted, s.signIns, s.now) && CallsOk(s) && PaidOk(s) && PaidOnce(s.pairs)
  }

  lemma StepKeepsChains(s: State, a: Action)
    requires Inv(s) && ChainInv(s) && Enabled(s, a)
    ensures ChainsOk(Apply(s, a).tokens, Apply(s, a).minted, Apply(s, a).signIns, Apply(s, a).now)
  {
    if a.StoreReturns? {
      assert CallOk(s.inFlight[a.call], s.tokens, s.minted, s.signIns, s.now);
    }
  }

  /** Steps that a running call takes before it has a token to store. */
  lemma EarlyKeepsCalls(s: State, a: Action)
    requires Inv(s) && ChainInv(s) && Enabled(s, a) && Disposes(s, a)
    requires a.GetReturns? || a.DeleteReturns? || a.LookupReturns?
    ensures CallsOk(Apply(s, a))
  {
    assert CallOk(s.inFlight[a.call], s.tokens, s.minted, s.signIns, s.now);
  }

  lemma BeginKeepsCalls(s: State, a: Action)
    requires ChainInv(s) && Begins(a) && s.inFlight == map[]
    ensures CallsOk(Apply(s, a))
  {
  }

  lemma MintKeepsCalls(s: State, c: nat, token: Token)
    requires Inv(s) && ChainInv(s) && Enabled(s, Mints(c, token))
    ensures CallsOk(Apply(s, Mints(c, token)))
  {
    assert CallOk(s.inFlight[c], s.tokens, s.minted, s.signIns, s.now);
  }

  lemma StepKeepsCalls(s: State, a: Action)
    requires Inv(s) && ChainInv(s) && Enabled(s, a) && Disposes(s, a) && (Begins(a) ==> s.inFlight == map[])
    ensures CallsOk(Apply(s, a))
  {
    if Begins(a) {
      BeginKeepsCalls(s, a);
    } else if a.GetReturns? || a.DeleteReturns? || a.LookupReturns? {
      EarlyKeepsCalls(s, a);
    } else if a.Mints? {
      MintKeepsCalls(s, a.call, a.token);
    }
  }

  lemma StepKeepsPaidFor(s: State, a: Action, token: Token)
    requires TokensOk(s.tokens, s.minted, s.inFlight) && Enabled(s, a) && PaidFor(s, token)
    ensures PaidFor(Apply(s, a), token)
  {
  }

  lemma StepKeepsPaid(s: State, a: Action)
    requires Inv(s) && ChainInv(s) && Enabled(s, a)
    ensures PaidOk(Apply(s, a)) && PaidOnce(Apply(s, a).pairs)
  {
    var t := Apply(s, a);
    forall k | 0 <= k < |t.pairs| && t.pairs[k].origin.Some?
      ensures PaidFor(t, t.pairs[k].origin.value)
    {
      if k < |s.pairs| {
        StepKeepsPaidFor(s, a, s.pairs[k].origin.value);
      } else {
        StorePays(s, a);
      }
    }
    if a.StoreReturns? {
      assert forall k | 0 <= k < |s.pairs| && s.pairs[k].origin.Some? ::
          PaidFor(s, s.pairs[k].origin.value) && Used(s.inFlight[a.call]) != s.pairs[k].origin;
    }
  }

  /** Handing out a pair leaves the presented token dead. */
  lemma StorePays(s: State, a: Action)
    requires Inv(s) && CallsOk(s) && Enabled(s, a) && a.StoreReturns? && s.inFlight[a.call].origin.Some?
    ensures PaidFor(Apply(s, a), s.inFlight[a.call].origin.value)
  {
    assert CallOk(s.inFlight[a.call], s.tokens, s.minted, s.signIns, s.now);
    assert Apply(s, a).inFlight == map[];
  }

  lemma {:induction false} RunKeepsChains(s: State, run: seq<Action>)
    requires Inv(s) && ChainInv(s) && ValidRun(s, run) && NonOverlapping(s, run) && AllDispose(s, run)
    ensures Inv(After(s, run)) && ChainInv(After(s, run))
    decreases |run|
  {
    if run != [] {
      StepKeepsTokens(s, run[0]);
      StepKeepsUses(s, run[0]);
      StepKeepsChains(s, run[0]);
      StepKeepsCalls(s, run[0]);
      StepKeepsPaid(s, run[0]);
      RunKeepsChains(Apply(s, run[0]), run[1..]);
    }
  }

  // ---------------------------------------------------------------- one live token for each chain

  ghost predicate OneLiveToken(s: State, chain: nat) {
    forall t, u | Live(s.tokens, t, s.now) && t in s.minted && s.minted[t] == chain
                  && Live(s.tokens, u, s.now) && u in s.minted && s.minted[u] == chain ::
      t == u
  }

  ghost function LiveTokens(s: State, user: User): set<Token> {
    set t | t in s.tokens && Live(s.tokens, t, s.now) && s.tokens[t].value == user
  }

  ghost function SignInsOf(s: State, user: User): set<nat> {
    set c | c in s.signIns && s.signIns[c] == user
  }

  /**
   * When calls do not overlap and the Delete of every Refresh takes effect, a chain of rotations has at most one
   * live token, a user has at most as many live tokens as accepted sign-ins, and no token is paid for twice.
   */
  lemma RotationKeepsOneTokenPerChain(s0: State, run: seq<Action>, user: User, chain: nat)
    requires Initial(s0) && ValidRun(s0, run) && NonOverlapping(s0, run) && AllDispose(s0, run)
    ensures var s := After(s0, run);
            && OneLiveToken(s, chain)
            && |LiveTokens(s, user)| <= |SignInsOf(s, user)|
            && PaidOnce(s.pairs)
  {
    assert Inv(s0) && ChainInv(s0);
    RunKeepsChains(s0, run);
    var s := After(s0, run);
    ImageSize(s.minted, LiveTokens(s, user));
    SubsetSize(set t | t in LiveTokens(s, user) :: s.minted[t], SignInsOf(s, user));
  }

  // ---------------------------------------------------------------- when a Delete fails

  lemma ExtendsRun(s: State, a: Action, rest: seq<Action>)
    requires Enabled(s, a) && ValidRun(Apply(s, a), rest) && NonOverlapping(Apply(s, a), rest)
    requires Begins(a) ==> s.inFlight == map[]
    ensures ValidRun(s, [a] + rest) && NonOverlapping(s, [a] + rest)
    ensures After(s, [a] + rest) == After(Apply(s, a), rest)
    ensures Disposes(s, a) && AllDispose(Apply(s, a), rest) ==> AllDispose(s, [a] + rest)
  {
    assert ([a] + rest)[1..] == rest;
  }

  /** A Refresh past its Delete goes through to storing a new token of its chain, and no call begins. */
  lemma StoresNext(s: State, c: nat, next: Token) returns (run: seq<Action>)
    requires c in s.inFlight && s.inFlight[c].LookingUp? && next !in s.minted
    ensures ValidRun(s, run) && NonOverlapping(s, run) && AllDispose(s, run)
    ensures var t := After(s, run);
            && t.tokens == Write(s.tokens, next, s.inFlight[c].user, s.now, s.ttl) && t.now == s.now
            && t.minted == s.minted[next := s.inFlight[c].chain] && t.inFlight == s.inFlight - {c}
  {
    var a1, a2, a3 := LookupReturns(c, true), Mints(c, next), StoreReturns(c, true, true);
    var s1 := Apply(s, a1);
    var s2 := Apply(s1, a2);
    ExtendsRun(s2, a3, []);
    ExtendsRun(s1, a2, [a3] + []);
    run := [a2] + ([a3] + []);
    ExtendsRun(s, a1, run);
    run := [a1] + run;
  }

  /** Calls have not overlapped so far, and every Delete of a Refresh took effect. */
  ghost predicate ReachedInOrder(s: State) {
    exists s0: State, run: seq<Action> ::
      Initial(s0) && ValidRun(s0, run) && NonOverlapping(s0, run) && AllDispose(s0, run) && After(s0, run) == s
  }

  /** From here on, whatever happens, the chain keeps to one live token. */
  ghost predicate StaysSingle(s: State, chain: nat) {
    forall run | ValidRun(s, run) && NonOverlapping(s, run) && AllDispose(s, run) :: OneLiveToken(After(s, run), chain)
  }

  /**
   * When a Refresh that runs alone comes to delete the token it found, its chain keeps at most one live token
   * in all that follows, calls not overlapping and later Deletes taking effect, exactly when this Delete takes
   * effect or the token has expired in the meantime.
   */
  lemma ChainStaysSingleIff(s: State, c: nat, applied: bool)
    requires ReachedInOrder(s) && c in s.inFlight && s.inFlight[c].Got?
    ensures StaysSingle(Apply(s, DeleteReturns(c, applied)), s.inFlight[c].chain)
            <==> applied || !Live(s.tokens, s.inFlight[c].presented, s.now)
  {
    InOrderIsInv(s);
    var a := DeleteReturns(c, applied);
    var t, chain := Apply(s, a), s.inFlight[c].chain;
    if Disposes(s, a) {
      forall run | ValidRun(t, run) && NonOverlapping(t, run) && AllDispose(t, run)
        ensures OneLiveToken(After(t, run), chain)
      {
        ExtendsRun(s, a, run);
        RunKeepsChains(s, [a] + run);
      }
    } else {
      LiveTokenForks(s, c);
    }
  }

  lemma InOrderIsInv(s: State)
    requires ReachedInOrder(s)
    ensures Inv(s) && ChainInv(s)
  {
    var s0: State, run: seq<Action> :|
      Initial(s0) && ValidRun(s0, run) && NonOverlapping(s0, run) && AllDispose(s0, run) && After(s0, run) == s;
    assert Inv(s0) && ChainInv(s0);
    RunKeepsChains(s0, run);
  }

  lemma LiveTokenForks(s: State, c: nat)
    requires Inv(s) && ChainInv(s) && c in s.inFlight && s.inFlight[c].Got?
    requires Live(s.tokens, s.inFlight[c].presented, s.now)
    ensures !StaysSingle(Apply(s, DeleteReturns(c, false)), s.inFlight[c].chain)
  {
    var t, presented := Apply(s, DeleteReturns(c, false)), s.inFlight[c].presented;
    assert CallOk(s.inFlight[c], s.tokens, s.minted, s.signIns, s.now);
    var next := FreshToken(t);
    var run := StoresNext(t, c, next);
    var end := After(t, run);
    assert Live(end.tokens, presented, end.now) && Live(end.tokens, next, end.now) && presented != next;
    assert !OneLiveToken(end, s.inFlight[c].chain);
  }

  /** Without any overlap: a sign-in, and one Refresh whose Delete fails, leave two live tokens of one chain. */
  lemma FailedDeleteForksChain(s0: State, user: User, first: Token, next: Token) returns (run: seq<Action>)
    requires Initial(s0) && first != next
    ensures ValidRun(s0, run) && NonOverlapping(s0, run)
    ensures var s := After(s0, run);
            && s.inFlight == map[] && Live(s.tokens, first, s.now) && Live(s.tokens, next, s.now)
            && s.minted == map[first := 0, next := 0]
  {
    var a1, a2, a3 := SignIn(user), Mints(0, first), StoreReturns(0, true, true);
    var a4, a5, a6 := RefreshBegins(first), GetReturns(1, false), DeleteReturns(1, false);
    var s1 := Apply(s0, a1);
    var s2 := Apply(s1, a2);
    var s3 := Apply(s2, a3);
    assert s3.inFlight == map[] && Live(s3.tokens, first, s3.now);
    var s4 := Apply(s3, a4);
    var s5 := Apply(s4, a5);
    var s6 := Apply(s5, a6);
    run := StoresNext(s6, 1, next);
    ExtendsRun(s5, a6, run);
    run := [a6] + run;
    ExtendsRun(s4, a5, run);
    run := [a5] + run;
    ExtendsRun(s3, a4, run);
    run := [a4] + run;
    ExtendsRun(s2, a3, run);
    run := [a3] + run;
    ExtendsRun(s1, a2, run);
    run := [a2] + run;
    ExtendsRun(s0, a1, run);
    run := [a1] + run;
  }

  // ---------------------------------------------------------------- accepted and successful sign-ins

  // An accepted sign-in is not yet a successful one: the call may die, or the store's answer may get lost.

  /** Some pair was handed out by this call. */
  predicate Handed(pairs: seq<Pair>, call: nat) {
    exists k :: 0 <= k < |pairs| && pairs[k].call == call
  }

  /** The Signup and Login calls of a user that handed out a pair. */
  ghost function SuccessesOf(s: State, user: User): set<nat> {
    set c | c in SignInsOf(s, user) && Handed(s.pairs, c)
  }

  /** No Set of a Signup or Login that took effect is reported as failed. */
  predicate Answers(s: State, a: Action)
    requires Enabled(s, a)
  {
    a.StoreReturns? && s.inFlight[a.call].origin.None? && a.applied ==> a.ok
  }

  predicate AllAnswer(s: State, run: seq<Action>)
    requires ValidRun(s, run)
    decreases |run|
  {
    run == [] || (Answers(s, run[0]) && AllAnswer(Apply(s, run[0]), run[1..]))
  }

  /** A call that goes back to a token, or else is a sign-in, knows where its chain began. */
  predicate OriginOk(pairs: seq<Pair>, minted: map<Token, nat>, c: nat, call: Call) {
    HasChain(call) ==>
      && (if call.Got? || call.origin.Some? then Handed(pairs, call.chain) else call.chain == c)
      && (call.Storing? ==> call.token in minted && minted[call.token] == call.chain)
  }

  /** Every token in the store goes back to a sign-in that handed out a pair. */
  ghost predicate HandedOk(s: State) {
    && (forall t | t in s.tokens :: t in s.minted && Handed(s.pairs, s.minted[t]))
    && (forall c | c in s.inFlight :: OriginOk(s.pairs, s.minted, c, s.inFlight[c]))
  }

  lemma StoreKeepsHanded(s: State, a: Action)
    requires HandedOk(s) && Enabled(s, a) && a.StoreReturns? && Answers(s, a)
    ensures HandedOk(Apply(s, a))
  {
    var t := Apply(s, a);
    assert OriginOk(s.pairs, s.minted, a.call, s.inFlight[a.call]);
    assert a.ok ==> t.pairs[|s.pairs|].call == a.call;
    forall n | Handed(s.pairs, n)
      ensures Handed(t.pairs, n)
    {
      var k :| 0 <= k < |s.pairs| && s.pairs[k].call == n;
      assert t.pairs[k].call == n;
    }
  }

  lemma StepKeepsHanded(s: State, a: Action)
    requires HandedOk(s) && Enabled(s, a) && Answers(s, a)
    ensures HandedOk(Apply(s, a))
  {
    if a.StoreReturns? {
      StoreKeepsHanded(s, a);
    } else if a.GetReturns? || a.DeleteReturns? || a.LookupReturns? || a.Mints? {
      assert OriginOk(s.pairs, s.minted, a.call, s.inFlight[a.call]);
    }
  }

  lemma {:induction false} RunKeepsHanded(s: State, run: seq<Action>)
    requires HandedOk(s) && ValidRun(s, run) && AllAnswer(s, run)
    ensures HandedOk(After(s, run))
    decreases |run|
  {
    if run != [] {
      StepKeepsHanded(s, run[0]);
      RunKeepsHanded(Apply(s, run[0]), run[1..]);
    }
  }

  /** If moreover no sign-in's Set has its answer lost, a user's live tokens are at most the successful sign-ins. */
  lemma LiveTokensWithinSuccesses(s0: State, run: seq<Action>, user: User)
    requires Initial(s0) && ValidRun(s0, run) && NonOverlapping(s0, run) && AllDispose(s0, run) && AllAnswer(s0, run)
    ensures |LiveTokens(After(s0, run), user)| <= |SuccessesOf(After(s0, run), user)|
  {
    assert Inv(s0) && ChainInv(s0);
    RunKeepsChains(s0, run);
    RunKeepsHanded(s0, run);
    var s := After(s0, run);
    var live := LiveTokens(s, user);
    ImageSize(s.minted, live);
    SubsetSize(set t | t in live :: s.minted[t], SuccessesOf(s, user));
  }

  ghost predicate LiveAreHanded(s: State) {
    forall t | Live(s.tokens, t, s.now) :: t in s.minted && Handed(s.pairs, s.minted[t])
  }

  /** From here on, no sign-in's answer being lost, every live token goes back to a sign-in that handed out a pair. */
  ghost predicate StaysHanded(s: State) {
    forall run | ValidRun(s, run) && AllAnswer(s, run) :: LiveAreHanded(After(s, run))
  }

  /** No sign-in's answer has been lost so far. */
  ghost predicate ReachedAnswered(s: State) {
    exists s0: State, run: seq<Action> ::
      Initial(s0) && ValidRun(s0, run) && AllAnswer(s0, run) && After(s0, run) == s
  }

  /** A sign-in's Set keeps that so, whatever overlaps, exactly when it is answered or did not take effect. */
  lemma StaysHandedIffAnswered(s: State, c: nat, ok: bool, applied: bool)
    requires ReachedAnswered(s) && Enabled(s, StoreReturns(c, ok, applied)) && s.inFlight[c].origin.None?
    ensures StaysHanded(Apply(s, StoreReturns(c, ok, applied))) <==> ok || !applied
  {
    var s0: State, before: seq<Action> :|
      Initial(s0) && ValidRun(s0, before) && AllAnswer(s0, before) && After(s0, before) == s;
    assert Inv(s0) && HandedOk(s0);
    RunKeepsInv(s0, before);
    RunKeepsHanded(s0, before);
    var a := StoreReturns(c, ok, applied);
    var t := Apply(s, a);
    if ok || !applied {
      StepKeepsHanded(s, a);
      forall run | ValidRun(t, run) && AllAnswer(t, run)
        ensures LiveAreHanded(After(t, run))
      {
        RunKeepsHanded(t, run);
      }
    } else {
      assert OriginOk(s.pairs, s.minted, c, s.inFlight[c]);
      assert Live(t.tokens, s.inFlight[c].token, t.now) && !Handed(t.pairs, c);
      assert ValidRun(t, []) && AllAnswer(t, []) && !LiveAreHanded(After(t, []));
    }
  }

  /** A lost answer leaves a live token behind that no sign-in has handed out. */
  lemma LostAnswerLeavesToken(s0: State, user: User, token: Token) returns (run: seq<Action>)
    requires Initial(s0)
    ensures ValidRun(s0, run) && NonOverlapping(s0, run) && AllDispose(s0, run)
    ensures LiveTokens(After(s0, run), user) == {token} && SuccessesOf(After(s0, run), user) == {}
  {
    var a1, a2, a3 := SignIn(user), Mints(0, token), StoreReturns(0, false, true);
    var s1 := Apply(s0, a1);
    var s2 := Apply(s1, a2);
    var s3 := Apply(s2, a3);
    assert s3.tokens.Keys == {token} && s3.pairs == [];
    ExtendsRun(s2, a3, []);
    ExtendsRun(s1, a2, [a3] + []);
    run := [a2] + ([a3] + []);
    ExtendsRun(s0, a1, run);
    run := [a1] + run;
    assert After(s0, run) == s3;
  }
}
