/**
  Refresh tokens.  A refresh validates its token in one statement and rotates it in later ones, so a request in
  flight is a token waiting in `validated`; everything may happen in between.  Tokens are random and their hashes
  are injective: a token is its index.
*/
module RefreshTokens {
  import opened SetSizes

  /** `chain` is the login or registration the token descends from. */
  datatype Token = Token(user: nat, expires: nat, revoked: bool, chain: nat)

  /** `owners[c]` logged in as chain `c`; `late[u]` counts rotations of tokens revoked since they were validated. */
  datatype State = State(now: nat, tokens: seq<Token>, owners: seq<nat>, validated: seq<nat>, late: map<nat, nat>)

  datatype Act =
    | Tick(elapsed: nat)
    | Login(user: nat, lifetime: nat)
    | Validate(token: nat)
    | Rotate(request: nat, lifetime: nat, created: bool)
    | Abandon(request: nat)
    | Logout(token: nat)
    | Reset(user: nat)

  const START := State(0, [], [], [], map[])

  predicate Open(s: State, t: nat) { t < |s.tokens| && !s.tokens[t].revoked }

  /** What `validateRefreshToken` accepts. */
  predicate Live(s: State, t: nat) { Open(s, t) && s.now < s.tokens[t].expires }

  function Revoked(tokens: seq<Token>, t: nat): seq<Token> {
    if t < |tokens| then tokens[t := tokens[t].(revoked := true)] else tokens
  }

  function AllRevoked(tokens: seq<Token>, user: nat): (r: seq<Token>)
    ensures |r| == |tokens|
    ensures forall t | 0 <= t < |tokens| ::
              r[t] == if tokens[t].user == user then tokens[t].(revoked := true) else tokens[t]
  {
    seq(|tokens|, t requires 0 <= t < |tokens| =>
      if tokens[t].user == user then tokens[t].(revoked := true) else tokens[t])
  }

  function Late(s: State, user: nat): nat {
    if user in s.late then s.late[user] else 0
  }

  function Without(requests: seq<nat>, k: nat): seq<nat>
    requires k < |requests|
  {
    requests[..k] + requests[k + 1..]
  }

  function RotateStep(s: State, k: nat, lifetime: nat, created: bool): State
    requires k < |s.validated| && s.validated[k] < |s.tokens|
  {
    var t := s.validated[k];
    var prior := s.tokens[t];
    var tokens := Revoked(s.tokens, t);
    if !created then s.(tokens := tokens, validated := Without(s.validated, k))
    else
      s.(tokens := tokens + [Token(prior.user, s.now + lifetime, false, prior.chain)],
         validated := Without(s.validated, k),
         late := if prior.revoked then s.late[prior.user := Late(s, prior.user) + 1] else s.late)
  }

  function Step(s: State, a: Act): State {
    match a
    case Tick(elapsed) => s.(now := s.now + elapsed)
    case Login(user, lifetime) =>
      s.(tokens := s.tokens + [Token(user, s.now + lifetime, false, |s.owners|)], owners := s.owners + [user])
    case Validate(t) => if Live(s, t) then s.(validated := s.validated + [t]) else s
    case Rotate(k, lifetime, created) =>
      if k < |s.validated| && s.validated[k] < |s.tokens| then RotateStep(s, k, lifetime, created) else s
    case Abandon(k) => if k < |s.validated| then s.(validated := Without(s.validated, k)) else s
    case Logout(t) => s.(tokens := Revoked(s.tokens, t))
    case Reset(user) => s.(tokens := AllRevoked(s.tokens, user))
  }

  function Run(s: State, acts: seq<Act>): State
    decreases |acts|
  {
    if acts == [] then s else Step(Run(s, acts[..|acts| - 1]), acts[|acts| - 1])
  }

  lemma RunTwo(s: State, a: Act, b: Act)
    ensures Run(s, [a, b]) == Step(Step(s, a), b)
  {
    assert [a, b][..1] == [a] && [a][..0] == [];
    assert Run(s, [a][..0]) == s;
    assert Run(s, [a]) == Step(s, a);
  }

  /** The table and whole requests on it, with nothing in between. */
  class TokenTable {
    var tokens: seq<Token>

    constructor ()
      ensures tokens == []
    {
      tokens := [];
    }

    method Create(user: nat, chain: nat, now: nat, lifetime: nat) returns (token: nat)
      modifies this
      ensures token == |old(tokens)| && tokens == old(tokens) + [Token(user, now + lifetime, false, chain)]
    {
      token := |tokens|;
      tokens := tokens + [Token(user, now + lifetime, false, chain)];
    }

    method Revoke(token: nat)
      modifies this
      ensures tokens == Revoked(old(tokens), token)
    {
      if token < |tokens| {
        tokens := tokens[token := tokens[token].(revoked := true)];
      }
    }

    /** `POST /refresh`: `None` is the 401. */
    method Refresh(token: nat, now: nat, lifetime: nat) returns (replacement: seq<nat>)
      modifies this
      ensures var s := State(now, old(tokens), [], [], map[]);
              && tokens == Run(s, [Validate(token), Rotate(0, lifetime, true)]).tokens
              && replacement == if Live(s, token) then [|old(tokens)|] else []
      ensures replacement != [] <==> token < |old(tokens)| && !old(tokens)[token].revoked && now < old(tokens)[token].expires
      ensures replacement == [] ==> tokens == old(tokens)
      ensures replacement != [] ==>
                var prior := old(tokens)[token];
                && replacement == [|old(tokens)|]
                && tokens == old(tokens)[token := Token(prior.user, prior.expires, true, prior.chain)]
                             + [Token(prior.user, now + lifetime, false, prior.chain)]
    {
      ghost var s := State(now, tokens, [], [], map[]);
      RunTwo(s, Validate(token), Rotate(0, lifetime, true));
      if token >= |tokens| || tokens[token].revoked || now >= tokens[token].expires {
        return [];
      }
      var user, chain := tokens[token].user, tokens[token].chain;
      Revoke(token);
      var created := Create(user, chain, now, lifetime);
      return [created];
    }

    /** The revocations of `POST /reset-password`. */
    method RevokeAll(user: nat)
      modifies this
      ensures tokens == AllRevoked(old(tokens), user)
      ensures forall t | 0 <= t < |tokens| :: tokens[t].user == user ==> tokens[t].revoked
    {
      tokens := AllRevoked(tokens, user);
    }
  }

  /** A refresh begins exactly for a token that exists, is not revoked and has not expired. */
  lemma OnlyLiveTokensValidate(s: State, t: nat)
    ensures Step(s, Validate(t)).validated ==
            if t < |s.tokens| && !s.tokens[t].revoked && s.now < s.tokens[t].expires then s.validated + [t] else s.validated
  {}

  /** What the other requests do to the table. */
  lemma TableSteps(s: State, a: Act)
    ensures a.Login? ==> Step(s, a).tokens == s.tokens + [Token(a.user, s.now + a.lifetime, false, |s.owners|)]
                         && Step(s, a).owners == s.owners + [a.user]
    ensures a.Logout? ==> Step(s, a).tokens ==
                          if a.token < |s.tokens| then s.tokens[a.token := s.tokens[a.token].(revoked := true)] else s.tokens
    ensures a.Reset? ==> |Step(s, a).tokens| == |s.tokens| && forall t | 0 <= t < |s.tokens| ::
                           Step(s, a).tokens[t].revoked == (s.tokens[t].revoked || s.tokens[t].user == a.user)
  {}

  // ------------------------------------------------------------------ every interleaving

  ghost predicate Inv(s: State) {
    && (forall t | 0 <= t < |s.tokens| :: s.tokens[t].chain < |s.owners| && s.owners[s.tokens[t].chain] == s.tokens[t].user)
    && forall k | 0 <= k < |s.validated| :: s.validated[k] < |s.tokens|
  }

  lemma StepKeepsInv(s: State, a: Act)
    requires Inv(s)
    ensures Inv(Step(s, a))
  {}

  lemma {:induction false} RunKeepsInv(s: State, acts: seq<Act>)
    requires Inv(s)
    ensures Inv(Run(s, acts))
    decreases |acts|
  {
    if acts != [] {
      RunKeepsInv(s, acts[..|acts| - 1]);
      StepKeepsInv(Run(s, acts[..|acts| - 1]), acts[|acts| - 1]);
    }
  }

  /** A revoked token stays revoked, for the same user and chain. */
  lemma {:induction false} RevokedForever(s: State, acts: seq<Act>, t: nat)
    requires t < |s.tokens| && s.tokens[t].revoked
    ensures t < |Run(s, acts).tokens| && Run(s, acts).tokens[t] == s.tokens[t]
    ensures !Live(Run(s, acts), t)
    decreases |acts|
  {
    if acts != [] {
      RevokedForever(s, acts[..|acts| - 1], t);
    }
  }

  function OpenOf(s: State, user: nat): (r: set<nat>) {
    set t | 0 <= t < |s.tokens| && Open(s, t) && s.tokens[t].user == user
  }

  function LiveOf(s: State, user: nat): (r: set<nat>) {
    set t | 0 <= t < |s.tokens| && Live(s, t) && s.tokens[t].user == user
  }

  function Logins(owners: seq<nat>, user: nat): nat {
    if owners == [] then 0
    else Logins(owners[..|owners| - 1], user) + (if owners[|owners| - 1] == user then 1 else 0)
  }

  /** The user's open tokens of `t` are those of `s`, but for the ones in `extra`. */
  lemma OpenGrowth(s: State, t: State, user: nat, extra: set<nat>)
    requires forall i: nat | Open(t, i) && t.tokens[i].user == user ::
               i in extra || (Open(s, i) && s.tokens[i].user == user)
    ensures |OpenOf(t, user)| <= |OpenOf(s, user)| + |extra|
  {
    assert OpenOf(t, user) <= OpenOf(s, user) + extra;
    hide OpenOf;
    UnionBound(OpenOf(t, user), OpenOf(s, user), extra);
  }

  lemma RevokeCounts(s: State, t: nat, user: nat)
    requires Open(s, t)
    ensures |OpenOf(s.(tokens := Revoked(s.tokens, t)), user)|
         == |OpenOf(s, user)| - if s.tokens[t].user == user then 1 else 0
  {
    var after := OpenOf(s.(tokens := Revoked(s.tokens, t)), user);
    if s.tokens[t].user == user {
      assert OpenOf(s, user) == after + {t} && t !in after;
    } else {
      assert OpenOf(s, user) == after;
    }
  }

  lemma RotateCounts(s: State, k: nat, lifetime: nat, created: bool, user: nat)
    requires Inv(s) && k < |s.validated|
    ensures var t := RotateStep(s, k, lifetime, created);
            |OpenOf(t, user)| + Late(s, user) <= |OpenOf(s, user)| + Late(t, user)
  {
    var t := RotateStep(s, k, lifetime, created);
    var prior := s.validated[k];
    var mid := s.(tokens := Revoked(s.tokens, prior));
    var added: set<nat> := if created && s.tokens[prior].user == user then {|s.tokens|} else {};
    OpenGrowth(mid, t, user, added);
    if s.tokens[prior].revoked {
      OpenGrowth(s, mid, user, {});
    } else {
      RevokeCounts(s, prior, user);
    }
  }

  lemma RotateKeepsOwners(s: State, k: nat, lifetime: nat, created: bool)
    requires k < |s.validated| && s.validated[k] < |s.tokens|
    ensures RotateStep(s, k, lifetime, created).owners == s.owners
  {}

  lemma StepCounts(s: State, a: Act, user: nat)
    requires Inv(s) && |OpenOf(s, user)| <= Logins(s.owners, user) + Late(s, user)
    ensures var t := Step(s, a); |OpenOf(t, user)| <= Logins(t.owners, user) + Late(t, user)
  {
    hide OpenOf, RotateStep;
    var t := Step(s, a);
    match a
    case Rotate(k, lifetime, created) =>
      if k < |s.validated| {
        RotateCounts(s, k, lifetime, created, user);
        RotateKeepsOwners(s, k, lifetime, created);
      }
    case Login(owner, _) =>
      OpenGrowth(s, t, user, if owner == user then {|s.tokens|} else {});
      assert t.owners[..|s.owners|] == s.owners;
    case _ => OpenGrowth(s, t, user, {});
  }

  /** In any interleaving, live tokens never outnumber logins and registrations plus late rotations. */
  lemma {:induction false} LiveTokensBounded(acts: seq<Act>, user: nat)
    ensures var s := Run(START, acts);
            |LiveOf(s, user)| <= |OpenOf(s, user)| <= Logins(s.owners, user) + Late(s, user)
    decreases |acts|
  {
    var s := Run(START, acts);
    if acts != [] {
      LiveTokensBounded(acts[..|acts| - 1], user);
      RunKeepsInv(START, acts[..|acts| - 1]);
      StepCounts(Run(START, acts[..|acts| - 1]), acts[|acts| - 1], user);
    } else {
      assert OpenOf(s, user) == {};
    }
    SubsetSize(LiveOf(s, user), OpenOf(s, user));
  }

  // ------------------------------------------------------------------ serialised requests

  /** A refresh finishes before anything else happens. */
  ghost predicate Serialised(acts: seq<Act>)
    decreases |acts|
  {
    acts == [] ||
    (Serialised(acts[..|acts| - 1]) &&
     (Run(START, acts[..|acts| - 1]).validated != [] ==> acts[|acts| - 1].Rotate? || acts[|acts| - 1].Abandon?))
  }

  /** No token follows an open one in its chain. */
  ghost predicate LastOfChains(s: State) {
    forall t, u | 0 <= t < u < |s.tokens| :: s.tokens[t].chain == s.tokens[u].chain ==> s.tokens[t].revoked
  }

  ghost predicate SerialInv(s: State) {
    && Inv(s) && LastOfChains(s) && s.late == map[]
    && |s.validated| <= 1
    && forall k | 0 <= k < |s.validated| :: Open(s, s.validated[k])
  }

  lemma SerialStep(s: State, a: Act)
    requires SerialInv(s) && (s.validated != [] ==> a.Rotate? || a.Abandon?)
    ensures SerialInv(Step(s, a))
  {
    StepKeepsInv(s, a);
    var t := Step(s, a);
    if a.Rotate? && a.request < |s.validated| {
      var prior := s.validated[0];
      assert forall u | 0 <= u < |s.tokens| && u != prior :: s.tokens[u].chain == s.tokens[prior].chain ==> s.tokens[u].revoked;
    }
  }

  lemma {:induction false} SerialRun(acts: seq<Act>)
    requires Serialised(acts)
    ensures SerialInv(Run(START, acts))
    decreases |acts|
  {
    if acts != [] {
      SerialRun(acts[..|acts| - 1]);
      SerialStep(Run(START, acts[..|acts| - 1]), acts[|acts| - 1]);
    }
  }

  /** With requests serialised: a live token is the last of its login's chain, and each user has at most one per login. */
  lemma SerialisedRefreshes(acts: seq<Act>, user: nat)
    requires Serialised(acts)
    ensures var s := Run(START, acts);
            && (forall t, u | 0 <= t < u < |s.tokens| && Live(s, t) :: s.tokens[u].chain != s.tokens[t].chain)
            && |LiveOf(s, user)| <= Logins(s.owners, user)
  {
    SerialRun(acts);
    LiveTokensBounded(acts, user);
  }

  // ------------------------------------------------------------------ when a chain forks

  /** Apart from the rotated token, its chain is revoked. */
  ghost predicate RotatesLast(s: State, a: Act) {
    a.Rotate? && a.created && a.request < |s.validated| && s.validated[a.request] < |s.tokens| ==>
      var t := s.validated[a.request];
      forall u | 0 <= u < |s.tokens| && u != t :: s.tokens[u].chain == s.tokens[t].chain ==> s.tokens[u].revoked
  }

  /** From unforked chains, a rotation forks its chain exactly when another token of the chain is still open. */
  lemma RotationForksIff(s: State, k: nat, lifetime: nat, created: bool)
    requires Inv(s) && LastOfChains(s) && k < |s.validated|
    ensures LastOfChains(RotateStep(s, k, lifetime, created)) <==> RotatesLast(s, Rotate(k, lifetime, created))
  {
    var t := RotateStep(s, k, lifetime, created);
    var prior, n := s.validated[k], |s.tokens|;
    if created && LastOfChains(t) {
      forall u | 0 <= u < n && u != prior && s.tokens[u].chain == s.tokens[prior].chain ensures s.tokens[u].revoked {
        assert t.tokens[u] == s.tokens[u] && t.tokens[n].chain == s.tokens[prior].chain;
      }
    }
  }

  lemma StepForksIff(s: State, a: Act)
    requires Inv(s) && LastOfChains(s)
    ensures LastOfChains(Step(s, a)) <==> RotatesLast(s, a)
  {
    hide RotateStep;
    if a.Rotate? && a.request < |s.validated| {
      RotationForksIff(s, a.request, a.lifetime, a.created);
    }
  }

  ghost predicate AllRotateLast(acts: seq<Act>)
    decreases |acts|
  {
    acts == [] || (AllRotateLast(acts[..|acts| - 1]) && RotatesLast(Run(START, acts[..|acts| - 1]), acts[|acts| - 1]))
  }

  ghost predicate NeverForked(acts: seq<Act>)
    decreases |acts|
  {
    LastOfChains(Run(START, acts)) && (acts != [] ==> NeverForked(acts[..|acts| - 1]))
  }

  /** In any interleaving, no chain is ever forked exactly when every rotation meets the rest of its chain revoked. */
  lemma {:induction false} NeverForkedIff(acts: seq<Act>)
    ensures NeverForked(acts) <==> AllRotateLast(acts)
    decreases |acts|
  {
    if acts != [] {
      var front, a := acts[..|acts| - 1], acts[|acts| - 1];
      NeverForkedIff(front);
      RunKeepsInv(START, front);
      if NeverForked(front) {
        assert LastOfChains(Run(START, front));
        StepForksIff(Run(START, front), a);
      }
    }
  }

  function ChainsOf(owners: seq<nat>, user: nat): (r: set<nat>)
    ensures forall c: nat :: c in r <==> c < |owners| && owners[c] == user
    ensures |r| == Logins(owners, user)
  {
    if owners == [] then {}
    else
      var n := |owners| - 1;
      ChainsOf(owners[..n], user) + if owners[n] == user then {n} else {}
  }

  lemma {:induction false} OnePerChain(s: State, open: set<nat>, chains: set<nat>)
    requires LastOfChains(s)
    requires forall t | t in open :: Open(s, t) && s.tokens[t].chain in chains
    ensures |open| <= |chains|
    decreases open
  {
    if open != {} {
      var t :| t in open;
      forall u | u in open - {t} ensures s.tokens[u].chain in chains - {s.tokens[t].chain} {
        assert s.tokens[u].chain == s.tokens[t].chain ==> !(u < t) && !(t < u);
      }
      OnePerChain(s, open - {t}, chains - {s.tokens[t].chain});
    }
  }

  /** Then every live token is the last of its chain and a user has at most one per login, races and all. */
  lemma UnforkedLiveTokens(acts: seq<Act>, user: nat)
    requires AllRotateLast(acts)
    ensures var s := Run(START, acts);
            && (forall t, u | 0 <= t < u < |s.tokens| && Live(s, t) :: s.tokens[u].chain != s.tokens[t].chain)
            && |LiveOf(s, user)| <= |OpenOf(s, user)| <= Logins(s.owners, user)
  {
    NeverForkedIff(acts);
    RunKeepsInv(START, acts);
    var s := Run(START, acts);
    hide Run, AllRotateLast;
    OnePerChain(s, OpenOf(s, user), ChainsOf(s.owners, user));
    SubsetSize(LiveOf(s, user), OpenOf(s, user));
  }

  // ------------------------------------------------------------------ password resets

  /** No token of the user from the first `chains` logins is open or waits to be rotated. */
  ghost predicate Shut(s: State, user: nat, chains: nat) {
    && (forall t | 0 <= t < |s.tokens| :: s.tokens[t].user == user && s.tokens[t].chain < chains ==> s.tokens[t].revoked)
    && (forall k | 0 <= k < |s.validated| && s.validated[k] < |s.tokens| ::
          var t := s.tokens[s.validated[k]]; t.user == user ==> t.chain >= chains)
    && chains <= |s.owners|
  }

  lemma RotateKeepsShut(s: State, k: nat, lifetime: nat, created: bool, user: nat, chains: nat)
    requires Inv(s) && Shut(s, user, chains) && k < |s.validated|
    ensures Shut(RotateStep(s, k, lifetime, created), user, chains)
  {}

  lemma StepKeepsShut(s: State, a: Act, user: nat, chains: nat)
    requires Inv(s) && Shut(s, user, chains)
    ensures Shut(Step(s, a), user, chains)
  {
    hide RotateStep;
    if a.Rotate? && a.request < |s.validated| {
      RotateKeepsShut(s, a.request, a.lifetime, a.created, user, chains);
    }
  }

  lemma {:induction false} ShutForever(s: State, acts: seq<Act>, user: nat, chains: nat)
    requires Inv(s) && Shut(s, user, chains)
    ensures Shut(Run(s, acts), user, chains)
    decreases |acts|
  {
    hide Step, Inv, Shut;
    if acts != [] {
      var front := acts[..|acts| - 1];
      ShutForever(s, front, user, chains);
      RunKeepsInv(s, front);
      StepKeepsShut(Run(s, front), acts[|acts| - 1], user, chains);
    }
  }

  ghost predicate RefreshInFlight(s: State, user: nat) {
    exists k | 0 <= k < |s.validated| :: s.validated[k] < |s.tokens| && s.tokens[s.validated[k]].user == user
  }

  ghost predicate OldSessionOpen(s: State, user: nat, chains: nat) {
    exists t | 0 <= t < |s.tokens| :: Open(s, t) && s.tokens[t].user == user && s.tokens[t].chain < chains
  }

  ghost predicate MayReopen(s: State, user: nat, chains: nat) {
    exists after: seq<Act> :: OldSessionOpen(Run(s, after), user, chains)
  }

  lemma InFlightReopens(s: State, user: nat)
    requires Inv(s) && RefreshInFlight(s, user)
    ensures MayReopen(s, user, |s.owners|)
  {
    var k :| 0 <= k < |s.validated| && s.validated[k] < |s.tokens| && s.tokens[s.validated[k]].user == user;
    var overtaken := [Rotate(k, 1, true)];
    assert overtaken[..0] == [];
    assert Run(s, overtaken[..0]) == s;
    var t := Run(s, overtaken);
    assert t == RotateStep(s, k, 1, true);
    assert t.tokens[|s.tokens|] == Token(user, s.now + 1, false, s.tokens[s.validated[k]].chain);
    assert Open(t, |s.tokens|);
    assert OldSessionOpen(t, user, |s.owners|);
  }

  lemma ShutStaysShut(s: State, user: nat)
    requires Inv(s) && OpenOf(s, user) == {} && !RefreshInFlight(s, user)
    ensures !MayReopen(s, user, |s.owners|)
  {
    forall t | 0 <= t < |s.tokens| && s.tokens[t].user == user ensures s.tokens[t].revoked {
      assert t !in OpenOf(s, user);
    }
    assert Shut(s, user, |s.owners|);
    forall after: seq<Act> ensures !OldSessionOpen(Run(s, after), user, |s.owners|) {
      ShutForever(s, after, user, |s.owners|);
    }
  }

  /**
    A reset leaves the user no live token, and no later interleaving ever opens a token descending from a login
    before it, exactly when no refresh of that user was in flight.
  */
  lemma ResetEndsOldSessions(before: seq<Act>, user: nat)
    ensures var s := Step(Run(START, before), Reset(user));
            OpenOf(s, user) == {} && (MayReopen(s, user, |s.owners|) <==> RefreshInFlight(s, user))
  {
    var s := Step(Run(START, before), Reset(user));
    RunKeepsInv(START, before);
    StepKeepsInv(Run(START, before), Reset(user));
    assert OpenOf(s, user) == {};
    if RefreshInFlight(s, user) {
      InFlightReopens(s, user);
    } else {
      ShutStaysShut(s, user);
    }
  }

  lemma RunNext(s: State, front: seq<Act>, a: Act)
    ensures Run(s, front + [a]) == Step(Run(s, front), a)
  {
    assert (front + [a])[..|front|] == front;
  }

  lemma ForkedStates()
    ensures var s1 := State(0, [Token(0, 10, false, 0)], [0], [], map[]);
            var s4 := State(0, [Token(0, 10, true, 0), Token(0, 10, false, 0)], [0], [0], map[]);
            && Step(START, Login(0, 10)) == s1
            && Step(s1, Validate(0)) == s1.(validated := [0])
            && Step(s1.(validated := [0]), Validate(0)) == s1.(validated := [0, 0])
            && Step(s1.(validated := [0, 0]), Rotate(0, 10, true)) == s4
            && Step(s4, Rotate(0, 10, true)) ==
               State(0, [Token(0, 10, true, 0), Token(0, 10, false, 0), Token(0, 10, false, 0)], [0], [], map[0 := 1])
  {
    assert Without([0, 0], 0) == [0] && Without([0], 0) == [];
    var s1 := State(0, [Token(0, 10, false, 0)], [0], [], map[]);
    assert RotateStep(s1.(validated := [0, 0]), 0, 10, true).tokens == [Token(0, 10, true, 0), Token(0, 10, false, 0)];
  }

  lemma OneLogin()
    ensures Logins([0], 0) == 1
  {
    assert [0][..0] == [];
  }

  lemma LiveNow(s: State, t: nat)
    requires t < |s.tokens| && !s.tokens[t].revoked && s.now < s.tokens[t].expires
    ensures Live(s, t)
  {}

  /** Two refreshes that both validate one token before either rotates it leave two live tokens for one login. */
  lemma RacingRefreshesFork()
    ensures var acts := [Login(0, 10)] + [Validate(0)] + [Validate(0)] + [Rotate(0, 10, true)] + [Rotate(0, 10, true)];
            var s := Run(START, acts);
            Logins(s.owners, 0) == 1 && Live(s, 1) && Live(s, 2) && s.tokens[1].user == 0 == s.tokens[2].user
  {
    var a1 := [Login(0, 10)];
    var a2 := a1 + [Validate(0)];
    var a3 := a2 + [Validate(0)];
    var a4 := a3 + [Rotate(0, 10, true)];
    RunNext(START, [], Login(0, 10));
    assert [] + a1 == a1;
    RunNext(START, a1, Validate(0));
    RunNext(START, a2, Validate(0));
    RunNext(START, a3, Rotate(0, 10, true));
    RunNext(START, a4, Rotate(0, 10, true));
    assert Run(START, []) == START;
    hide Run, Live, Logins, Step;
    ForkedStates();
    var s1 := State(0, [Token(0, 10, false, 0)], [0], [], map[]);
    var s5 := State(0, [Token(0, 10, true, 0), Token(0, 10, false, 0), Token(0, 10, false, 0)], [0], [], map[0 := 1]);
    assert Run(START, a1) == s1;
    assert Run(START, a4 + [Rotate(0, 10, true)]) == s5;
    OneLogin();
    LiveNow(s5, 1);
    LiveNow(s5, 2);
  }
}
