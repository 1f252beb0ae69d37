/**
  The contribution rate limiter: two fixed-window counters in Redis, each bumped by an INCR and an EXPIRE of one
  pipeline.  Commands of different requests interleave freely; the clock is one monotone millisecond clock.
*/
module RateLimiter {
  import opened SetSizes
  import opened Options

  const IP_LIMIT := 10
  const WALLET_LIMIT := 5
  const WINDOW := 60_000

  datatype Key = IpKey(ip: string, window: nat) | WalletKey(wallet: string, window: nat)
  datatype Counter = Counter(count: nat, expires: Option<nat>)

  // ------------------------------------------------------------------ Redis

  predicate Live(counters: map<Key, Counter>, key: Key, now: nat) {
    key in counters && (counters[key].expires.None? || now < counters[key].expires.value)
  }

  function Count(counters: map<Key, Counter>, key: Key, now: nat): nat {
    if Live(counters, key, now) then counters[key].count else 0
  }

  function Incremented(counters: map<Key, Counter>, key: Key, now: nat): map<Key, Counter> {
    if Live(counters, key, now) then counters[key := Counter(counters[key].count + 1, counters[key].expires)]
    else counters[key := Counter(1, None)]
  }

  function Expiring(counters: map<Key, Counter>, key: Key, now: nat): map<Key, Counter> {
    if Live(counters, key, now) then counters[key := Counter(counters[key].count, Some(now + 2 * WINDOW))]
    else counters
  }

  // ------------------------------------------------------------------ requests

  /** `wallet` is the wallet the limiter saw; `sent` counts the commands of the pipeline already executed. */
  datatype Request = Request(
    ip: string, wallet: Option<string>, stamp: nat, sent: nat, ipCount: nat, walletCount: nat)

  function IpKeyOf(r: Request): Key { IpKey(r.ip, r.stamp / WINDOW) }

  function WalletKeyOf(r: Request): Key
    requires r.wallet.Some?
  {
    WalletKey(r.wallet.value, r.stamp / WINDOW)
  }

  function Commands(r: Request): nat { if r.wallet.Some? then 4 else 2 }

  predicate Accepted(r: Request) {
    r.sent == Commands(r) && r.ipCount <= IP_LIMIT && r.walletCount <= WALLET_LIMIT
  }

  /** The middleware on its own: the whole pipeline at one instant. */
  class Redis {
    var counters: map<Key, Counter>

    constructor ()
      ensures counters == map[]
    {
      counters := map[];
    }

    method Incr(key: Key, now: nat) returns (count: nat)
      modifies this
      ensures counters == Incremented(old(counters), key, now)
      ensures count == Count(old(counters), key, now) + 1 == Count(counters, key, now)
    {
      if Live(counters, key, now) {
        counters := counters[key := Counter(counters[key].count + 1, counters[key].expires)];
      } else {
        counters := counters[key := Counter(1, None)];
      }
      count := counters[key].count;
    }

    method Expire(key: Key, now: nat)
      modifies this
      ensures counters == Expiring(old(counters), key, now)
    {
      if Live(counters, key, now) {
        counters := counters[key := Counter(counters[key].count, Some(now + 2 * WINDOW))];
      }
    }

    method Limit(ip: string, wallet: Option<string>, now: nat) returns (allowed: bool)
      modifies this
      ensures allowed <==>
                && Count(old(counters), IpKey(ip, now / WINDOW), now) < IP_LIMIT
                && (wallet.Some? ==> Count(old(counters), WalletKey(wallet.value, now / WINDOW), now) < WALLET_LIMIT)
      ensures var afterIp := Expiring(Incremented(old(counters), IpKey(ip, now / WINDOW), now), IpKey(ip, now / WINDOW), now);
              counters == if wallet.None? then afterIp
                          else var key := WalletKey(wallet.value, now / WINDOW);
                            Expiring(Incremented(afterIp, key, now), key, now)
    {
      var ipKey := IpKey(ip, now / WINDOW);
      var ipCount := Incr(ipKey, now);
      Expire(ipKey, now);
      var walletCount := 0;
      if wallet.Some? {
        var walletKey := WalletKey(wallet.value, now / WINDOW);
        walletCount := Incr(walletKey, now);
        Expire(walletKey, now);
      }
      return ipCount <= IP_LIMIT && walletCount <= WALLET_LIMIT;
    }
  }

  // ------------------------------------------------------------------ interleaved pipelines

  /** `log` records, per counter, the requests whose INCR ran, in that order. */
  datatype State = State(now: nat, counters: map<Key, Counter>, requests: seq<Request>, log: map<Key, seq<nat>>)
  datatype Act =
    | Tick(elapsed: nat)
    | Arrive(ip: string, wallet: Option<string>)
    | Command(request: nat)

  const START := State(0, map[], [], map[])

  function Log(s: State, key: Key): seq<nat> {
    if key in s.log then s.log[key] else []
  }

  function RunCommand(s: State, i: nat): State
    requires i < |s.requests|
  {
    var r := s.requests[i];
    if r.sent >= Commands(r) then s
    else if r.sent == 0 then
      var key := IpKeyOf(r);
      s.(counters := Incremented(s.counters, key, s.now),
         log := s.log[key := Log(s, key) + [i]],
         requests := s.requests[i := r.(sent := 1, ipCount := Count(s.counters, key, s.now) + 1)])
    else if r.sent == 1 then
      s.(counters := Expiring(s.counters, IpKeyOf(r), s.now), requests := s.requests[i := r.(sent := 2)])
    else if r.sent == 2 then
      var key := WalletKeyOf(r);
      s.(counters := Incremented(s.counters, key, s.now),
         log := s.log[key := Log(s, key) + [i]],
         requests := s.requests[i := r.(sent := 3, walletCount := Count(s.counters, key, s.now) + 1)])
    else
      s.(counters := Expiring(s.counters, WalletKeyOf(r), s.now), requests := s.requests[i := r.(sent := 4)])
  }

  function Step(s: State, a: Act): State {
    match a
    case Tick(elapsed) => s.(now := s.now + elapsed)
    case Arrive(ip, wallet) => s.(requests := s.requests + [Request(ip, wallet, s.now, 0, 0, 0)])
    case Command(i) => if i < |s.requests| then RunCommand(s, i) else s
  }

  function Run(acts: seq<Act>): State {
    if acts == [] then START else Step(Run(acts[..|acts| - 1]), acts[|acts| - 1])
  }

  function Target(r: Request): Key
    requires r.sent < Commands(r)
  {
    if r.sent < 2 then IpKeyOf(r) else WalletKeyOf(r)
  }

  predicate IsIncr(s: State, i: nat) {
    i < |s.requests| && s.requests[i].sent < Commands(s.requests[i]) && (s.requests[i].sent == 0 || s.requests[i].sent == 2)
  }

  /** An INCR finds its counter untouched so far, or still alive. */
  predicate Keeps(s: State, a: Act) {
    a.Command? && IsIncr(s, a.request) ==>
      var key := Target(s.requests[a.request]);
      Log(s, key) == [] || Live(s.counters, key, s.now)
  }

  ghost predicate Kept(acts: seq<Act>) {
    acts != [] ==> Kept(acts[..|acts| - 1]) && Keeps(Run(acts[..|acts| - 1]), acts[|acts| - 1])
  }

  // ------------------------------------------------------------------ the invariant

  /** No counter has lost a hit. */
  ghost predicate CountersExact(s: State) {
    && (forall key | key in s.log :: s.log[key] != [])
    && (forall key | key in s.counters :: key in s.log)
    && forall key | key in s.log :: key in s.counters && s.counters[key].count == |s.log[key]|
  }

  /** Every count a request read is its position in the counter's log. */
  ghost predicate Positioned(s: State, i: nat)
    requires i < |s.requests|
  {
    var r := s.requests[i];
    && (r.sent >= 1 ==> 1 <= r.ipCount <= |Log(s, IpKeyOf(r))| && Log(s, IpKeyOf(r))[r.ipCount - 1] == i)
    && (r.sent >= 3 && r.wallet.Some? ==>
          1 <= r.walletCount <= |Log(s, WalletKeyOf(r))| && Log(s, WalletKeyOf(r))[r.walletCount - 1] == i)
  }

  ghost predicate Exact(s: State) {
    forall i | 0 <= i < |s.requests| :: Positioned(s, i)
  }

  ghost predicate Placed(s: State, i: nat)
    requires i < |s.requests|
  {
    var r := s.requests[i];
    && r.sent <= Commands(r) && (r.sent == 0 ==> r.ipCount == 0) && (r.sent < 3 ==> r.walletCount == 0)
    && Positioned(s, i)
  }

  ghost predicate Logged(s: State, key: Key, k: nat)
    requires key in s.log && k < |s.log[key]|
  {
    var i := s.log[key][k];
    && i < |s.requests|
    && var r := s.requests[i];
       if key.IpKey? then r.sent >= 1 && key == IpKeyOf(r) && r.ipCount == k + 1
       else r.sent >= 3 && r.wallet.Some? && key == WalletKeyOf(r) && r.walletCount == k + 1
  }

  ghost predicate Inv(s: State) {
    && CountersExact(s)
    && (forall i | 0 <= i < |s.requests| :: Placed(s, i))
    && (forall key, k | key in s.log && 0 <= k < |s.log[key]| :: Logged(s, key, k))
  }

  lemma StartHolds()
    ensures Inv(START)
  {}

  lemma QuietKeeps(s: State, a: Act)
    requires Inv(s) && (a.Tick? || a.Arrive?)
    ensures Inv(Step(s, a))
  {
    var t := Step(s, a);
    assert forall i | 0 <= i < |s.requests| :: t.requests[i] == s.requests[i] && Placed(s, i);
    forall key, k | key in t.log && 0 <= k < |t.log[key]| ensures Logged(t, key, k) {
      assert Logged(s, key, k);
    }
  }

  lemma IncrCounts(s: State, i: nat)
    requires Inv(s) && IsIncr(s, i) && Keeps(s, Command(i))
    ensures CountersExact(RunCommand(s, i))
    ensures var key := Target(s.requests[i]); Count(s.counters, key, s.now) == |Log(s, key)|
  {
    var key := Target(s.requests[i]);
    assert key in s.log ==> Live(s.counters, key, s.now);
  }

  lemma IncrPlaces(s: State, i: nat, j: nat)
    requires Inv(s) && IsIncr(s, i) && Keeps(s, Command(i))
    requires j < |s.requests|
    ensures Placed(RunCommand(s, i), j)
  {
    hide CountersExact;
    IncrCounts(s, i);
    assert Placed(s, i) && Placed(s, j);
  }

  lemma IncrLogs(s: State, i: nat, key: Key, k: nat)
    requires Inv(s) && IsIncr(s, i) && Keeps(s, Command(i))
    requires var t := RunCommand(s, i); key in t.log && k < |t.log[key]|
    ensures Logged(RunCommand(s, i), key, k)
  {
    hide CountersExact;
    IncrCounts(s, i);
    assert Placed(s, i);
    if key in s.log && k < |s.log[key]| {
      assert Logged(s, key, k);
    }
  }

  lemma IncrKeeps(s: State, i: nat)
    requires Inv(s) && IsIncr(s, i) && Keeps(s, Command(i))
    ensures Inv(RunCommand(s, i))
  {
    hide Placed, Logged, CountersExact;
    IncrCounts(s, i);
    var t := RunCommand(s, i);
    forall j | 0 <= j < |t.requests| ensures Placed(t, j) { IncrPlaces(s, i, j); }
    forall key, k | key in t.log && 0 <= k < |t.log[key]| ensures Logged(t, key, k) { IncrLogs(s, i, key, k); }
  }

  lemma ExpireCounts(s: State, i: nat)
    requires Inv(s) && i < |s.requests| && !IsIncr(s, i)
    ensures CountersExact(RunCommand(s, i))
  {
    assert Placed(s, i);
  }

  lemma ExpireKeeps(s: State, i: nat)
    requires Inv(s) && i < |s.requests| && !IsIncr(s, i)
    ensures Inv(RunCommand(s, i))
  {
    ExpireCounts(s, i);
    hide CountersExact;
    var t := RunCommand(s, i);
    assert t.log == s.log && Placed(s, i);
    forall j | 0 <= j < |t.requests| ensures Placed(t, j) {
      assert Placed(s, j);
    }
    forall key, k | key in t.log && 0 <= k < |t.log[key]| ensures Logged(t, key, k) {
      assert Logged(s, key, k);
    }
  }

  lemma StepKeepsInv(s: State, a: Act)
    requires Inv(s) && Keeps(s, a)
    ensures Inv(Step(s, a))
  {
    if !a.Command? {
      QuietKeeps(s, a);
    } else if a.request < |s.requests| {
      if IsIncr(s, a.request) { IncrKeeps(s, a.request); } else { ExpireKeeps(s, a.request); }
    }
  }

  lemma {:induction false} RunKeepsInv(acts: seq<Act>)
    requires Kept(acts)
    ensures Inv(Run(acts))
  {
    if acts == [] {
      StartHolds();
    } else {
      RunKeepsInv(acts[..|acts| - 1]);
      StepKeepsInv(Run(acts[..|acts| - 1]), acts[|acts| - 1]);
    }
  }

  // ------------------------------------------------------------------ when counts are positions

  function CountOf(r: Request, key: Key): nat {
    if key.IpKey? then r.ipCount else r.walletCount
  }

  /** From an exact state, an INCR reads its request's position exactly when its counter is untouched or alive. */
  lemma CountIsPositionIffUnexpired(s: State, i: nat)
    requires Inv(s) && IsIncr(s, i)
    ensures var key := Target(s.requests[i]);
            var t := RunCommand(s, i);
            && Log(t, key) == Log(s, key) + [i]
            && (CountOf(t.requests[i], key) == |Log(t, key)| <==> Keeps(s, Command(i)))
  {
    var key := Target(s.requests[i]);
    assert CountOf(RunCommand(s, i).requests[i], key) == Count(s.counters, key, s.now) + 1;
  }

  /** A step changes no count already read and only appends to logs, so a miscount stays. */
  lemma MiscountStays(s: State, a: Act)
    requires Exact(Step(s, a))
    ensures Exact(s)
  {
    var t := Step(s, a);
    forall i | 0 <= i < |s.requests| ensures Positioned(s, i) {
      assert Positioned(t, i);
    }
  }

  /** An INCR on an expired counter reads 1, which is another request's position. */
  lemma ExpiredIncrMiscounts(s: State, i: nat)
    requires Inv(s) && IsIncr(s, i) && !Keeps(s, Command(i))
    ensures !Positioned(RunCommand(s, i), i)
  {
    var key := Target(s.requests[i]);
    var t := RunCommand(s, i);
    assert CountOf(t.requests[i], key) == 1 && Log(t, key) == Log(s, key) + [i];
    assert Logged(s, key, 0);
    assert Log(t, key)[0] == Log(s, key)[0] != i;
  }

  /** All counts are positions exactly when every INCR found an untouched or a live counter. */
  lemma {:induction false} ExactIffKept(acts: seq<Act>)
    ensures Exact(Run(acts)) <==> Kept(acts)
  {
    if Kept(acts) {
      RunKeepsInv(acts);
      forall i | 0 <= i < |Run(acts).requests| ensures Positioned(Run(acts), i) {
        assert Placed(Run(acts), i);
      }
    } else {
      var front, a := acts[..|acts| - 1], acts[|acts| - 1];
      ExactIffKept(front);
      if Kept(front) {
        RunKeepsInv(front);
        ExpiredIncrMiscounts(Run(front), a.request);
      } else if Exact(Run(acts)) {
        MiscountStays(Run(front), a);
      }
    }
  }

  // ------------------------------------------------------------------ prompt pipelines

  /** A command reaches Redis before the window after its own ends. */
  predicate OnTime(s: State, a: Act) {
    a.Command? && a.request < |s.requests| ==> s.now < (s.requests[a.request].stamp / WINDOW + 2) * WINDOW
  }

  ghost predicate Prompt(acts: seq<Act>) {
    acts != [] ==> Prompt(acts[..|acts| - 1]) && OnTime(Run(acts[..|acts| - 1]), acts[|acts| - 1])
  }

  /** In every run a counter expires no earlier than two windows after its own began. */
  ghost predicate Lasting(s: State) {
    && (forall i | 0 <= i < |s.requests| :: s.requests[i].stamp <= s.now)
    && forall key | key in s.counters :: s.counters[key].expires.Some? ==> s.counters[key].expires.value >= (key.window + 2) * WINDOW
  }

  lemma StepLasts(s: State, a: Act)
    requires Lasting(s)
    ensures Lasting(Step(s, a))
  {}

  lemma {:induction false} CountersLast(acts: seq<Act>)
    ensures Lasting(Run(acts))
  {
    if acts != [] {
      CountersLast(acts[..|acts| - 1]);
      StepLasts(Run(acts[..|acts| - 1]), acts[|acts| - 1]);
    }
  }

  /** Pipelines whose commands run before the window after their own ends lose no count. */
  lemma {:induction false} PromptIsKept(acts: seq<Act>)
    requires Prompt(acts)
    ensures Kept(acts)
  {
    if acts != [] {
      var front, a := acts[..|acts| - 1], acts[|acts| - 1];
      PromptIsKept(front);
      RunKeepsInv(front);
      CountersLast(front);
      var s := Run(front);
      if a.Command? && IsIncr(s, a.request) {
        var key := Target(s.requests[a.request]);
        assert key in s.log ==> Live(s.counters, key, s.now);
      }
    }
  }

  // ------------------------------------------------------------------ what the limiter promises

  predicate Among(requests: seq<nat>, first: nat, i: nat) {
    i in requests[..if first <= |requests| then first else |requests|]
  }

  lemma AmongMeansCount(s: State, key: Key, limit: nat, i: nat)
    requires Inv(s) && i < |s.requests| && s.requests[i].sent == Commands(s.requests[i])
    requires key == IpKeyOf(s.requests[i]) || (s.requests[i].wallet.Some? && key == WalletKeyOf(s.requests[i]))
    ensures Among(Log(s, key), limit, i) <==>
              (if key.IpKey? then s.requests[i].ipCount else s.requests[i].walletCount) <= limit
  {
    assert Placed(s, i);
    var log := Log(s, key);
    var n := if limit <= |log| then limit else |log|;
    if i in log[..n] {
      var k :| 0 <= k < n && log[k] == i;
      assert Logged(s, key, k);
    }
  }

  /** A request whose pipeline ran is accepted exactly when it is among the first of its IP and of its wallet. */
  lemma AcceptedIffAmongTheFirst(acts: seq<Act>, i: nat)
    requires Kept(acts) && i < |Run(acts).requests|
    requires var r := Run(acts).requests[i]; r.sent == Commands(r)
    ensures var s := Run(acts);
            var r := s.requests[i];
            Accepted(r) <==>
              && Among(Log(s, IpKey(r.ip, r.stamp / 60_000)), 10, i)
              && (r.wallet.Some? ==> Among(Log(s, WalletKey(r.wallet.value, r.stamp / 60_000)), 5, i))
  {
    RunKeepsInv(acts);
    var s := Run(acts);
    var r := s.requests[i];
    assert Placed(s, i);
    AmongMeansCount(s, IpKeyOf(r), IP_LIMIT, i);
    if r.wallet.Some? {
      AmongMeansCount(s, WalletKeyOf(r), WALLET_LIMIT, i);
    }
  }

  /** Each request enters a counter's log at most once. */
  lemma LoggedOnce(acts: seq<Act>, key: Key, j: nat, k: nat)
    requires Kept(acts) && j < |Log(Run(acts), key)| && k < |Log(Run(acts), key)|
    requires Log(Run(acts), key)[j] == Log(Run(acts), key)[k]
    ensures j == k
  {
    RunKeepsInv(acts);
    assert Logged(Run(acts), key, j) && Logged(Run(acts), key, k);
  }

  function AcceptedOf(s: State, key: Key): (r: set<nat>) {
    set i | 0 <= i < |s.requests| && Accepted(s.requests[i])
      && (key == IpKeyOf(s.requests[i]) || (s.requests[i].wallet.Some? && key == WalletKeyOf(s.requests[i])))
  }

  function Elements(requests: seq<nat>): set<nat> {
    set i | i in requests
  }

  lemma {:induction false} ElementsBound(requests: seq<nat>)
    ensures |Elements(requests)| <= |requests|
  {
    if requests != [] {
      var n := |requests| - 1;
      ElementsBound(requests[..n]);
      assert requests == requests[..n] + [requests[n]];
      assert Elements(requests) == Elements(requests[..n]) + {requests[n]};
    }
  }

  lemma WindowAccepts(s: State, key: Key)
    requires Inv(s)
    ensures |AcceptedOf(s, key)| <= if key.IpKey? then IP_LIMIT else WALLET_LIMIT
  {
    var limit := if key.IpKey? then IP_LIMIT else WALLET_LIMIT;
    var log := Log(s, key);
    var first := log[..if limit <= |log| then limit else |log|];
    forall i | i in AcceptedOf(s, key) ensures i in first {
      assert Placed(s, i);
      AmongMeansCount(s, key, limit, i);
    }
    ElementsBound(first);
    SubsetSize(AcceptedOf(s, key), Elements(first));
  }

  function AcceptedFrom(s: State, ip: string, from: nat): (r: set<nat>) {
    set i | 0 <= i < |s.requests| && Accepted(s.requests[i]) && s.requests[i].ip == ip
      && from <= s.requests[i].stamp < from + WINDOW
  }

  function AcceptedByWallet(s: State, wallet: string, from: nat): (r: set<nat>) {
    set i | 0 <= i < |s.requests| && Accepted(s.requests[i]) && s.requests[i].wallet == Some(wallet)
      && from <= s.requests[i].stamp < from + WINDOW
  }

  lemma TwoWindows(from: nat, stamp: nat)
    requires from <= stamp < from + WINDOW
    ensures stamp / WINDOW == from / WINDOW || stamp / WINDOW == from / WINDOW + 1
  {}

  /** Any half-open 60 s interval accepts at most 20 requests of an IP and 10 of a wallet. */
  lemma IntervalBound(acts: seq<Act>, ip: string, wallet: string, from: nat)
    requires Kept(acts)
    ensures |AcceptedFrom(Run(acts), ip, from)| <= 20
    ensures |AcceptedByWallet(Run(acts), wallet, from)| <= 10
  {
    RunKeepsInv(acts);
    var s := Run(acts);
    var w := from / WINDOW;
    forall i | 0 <= i < |s.requests| && from <= s.requests[i].stamp < from + WINDOW
      ensures s.requests[i].stamp / WINDOW == w || s.requests[i].stamp / WINDOW == w + 1
    {
      TwoWindows(from, s.requests[i].stamp);
    }
    WindowAccepts(s, IpKey(ip, w));
    WindowAccepts(s, IpKey(ip, w + 1));
    UnionBound(AcceptedFrom(s, ip, from), AcceptedOf(s, IpKey(ip, w)), AcceptedOf(s, IpKey(ip, w + 1)));
    WindowAccepts(s, WalletKey(wallet, w));
    WindowAccepts(s, WalletKey(wallet, w + 1));
    UnionBound(AcceptedByWallet(s, wallet, from), AcceptedOf(s, WalletKey(wallet, w)), AcceptedOf(s, WalletKey(wallet, w + 1)));
  }

  // ------------------------------------------------------------------ late commands

  /** `n` requests of one IP, each with its whole pipeline, at time 0. */
  function Burst(n: nat): seq<Act> {
    if n == 0 then [] else Burst(n - 1) + [Arrive("a", None)] + [Command(n - 1)] + [Command(n - 1)]
  }

  lemma RunSnoc(acts: seq<Act>, a: Act)
    ensures Run(acts + [a]) == Step(Run(acts), a)
  {
    assert (acts + [a])[..|acts|] == acts;
  }

  const HOT: Key := IpKey("a", 0)

  ghost predicate Bursted(s: State, n: nat) {
    && s.now == 0 && |s.requests| == n
    && |Log(s, HOT)| == n && (forall k | 0 <= k < n :: Log(s, HOT)[k] == k)
    && (if n > 0 then HOT in s.counters && s.counters[HOT] == Counter(n, Some(2 * WINDOW)) else HOT !in s.counters)
  }

  lemma OneMore(s: State, n: nat)
    requires Bursted(s, n)
    ensures var r := Request("a", None, 0, 0, 0, 0);
            Bursted(RunCommand(RunCommand(s.(requests := s.requests + [r]), n), n), n + 1)
  {
    var r := Request("a", None, 0, 0, 0, 0);
    var s1 := s.(requests := s.requests + [r]);
    assert s1.requests[n] == r && IpKeyOf(r) == HOT && Count(s.counters, HOT, 0) == n;
    var s2 := RunCommand(s1, n);
    assert s2.requests[n] == r.(sent := 1, ipCount := n + 1);
    assert s2.counters[HOT].count == n + 1 && Live(s2.counters, HOT, 0);
    assert Log(s2, HOT) == Log(s, HOT) + [n];
    var s3 := RunCommand(s2, n);
    assert s3.counters[HOT] == Counter(n + 1, Some(2 * WINDOW)) && s3.log == s2.log;
  }

  lemma KeepsRequests(s: State, i: nat)
    requires i < |s.requests|
    ensures |RunCommand(s, i).requests| == |s.requests|
  {}

  lemma {:induction false} AfterBurst(n: nat)
    ensures Bursted(Run(Burst(n)), n)
  {
    if n > 0 {
      AfterBurst(n - 1);
      var b := Burst(n - 1);
      var acts1 := b + [Arrive("a", None)];
      var acts2 := acts1 + [Command(n - 1)];
      assert Burst(n) == acts2 + [Command(n - 1)];
      hide Burst, Run;
      RunSnoc(b, Arrive("a", None));
      RunSnoc(acts1, Command(n - 1));
      RunSnoc(acts2, Command(n - 1));
      OneMore(Run(b), n - 1);
      hide RunCommand;
      assert |Run(acts1).requests| == n && |Run(acts2).requests| == n by {
        KeepsRequests(Run(acts1), n - 1);
      }
    }
  }

  /** One more request in the same minute, whose pipeline runs when the burst's counter has just expired. */
  function LateRun(n: nat): seq<Act> {
    Burst(n) + [Arrive("a", None)] + [Tick(2 * WINDOW)] + [Command(n)] + [Command(n)]
  }

  lemma AfterLateRun(n: nat)
    requires n > 0
    ensures var s := Run(LateRun(n));
            && |s.requests| == n + 1 && s.requests[n] == Request("a", None, 0, 2, 1, 0)
            && Log(s, HOT) == Log(Run(Burst(n)), HOT) + [n]
  {
    AfterBurst(n);
    var b, key := Burst(n), HOT;
    var s0 := Run(b);
    var acts1 := b + [Arrive("a", None)];
    var acts2 := acts1 + [Tick(2 * WINDOW)];
    var acts3 := acts2 + [Command(n)];
    RunSnoc(b, Arrive("a", None));
    RunSnoc(acts1, Tick(2 * WINDOW));
    RunSnoc(acts2, Command(n));
    RunSnoc(acts3, Command(n));
    hide Run, Burst;
    var r := Request("a", None, 0, 0, 0, 0);
    var s2 := s0.(now := 2 * WINDOW, requests := s0.requests + [r]);
    assert Run(acts2) == s2;
    assert s2.requests[n] == r && !Live(s2.counters, key, s2.now);
    var s3 := RunCommand(s2, n);
    assert s3.requests[n] == r.(sent := 1, ipCount := 1) && Log(s3, key) == Log(s0, key) + [n];
    var s4 := RunCommand(s3, n);
    assert s4.log == s3.log && s4.requests[n] == r.(sent := 2, ipCount := 1);
  }

  /** However many requests a minute has seen, a pipeline two windows late meets an expired counter and is accepted. */
  lemma LateRequestIsMiscounted(n: nat)
    requires n >= IP_LIMIT
    ensures var s := Run(LateRun(n));
            && |s.requests| == n + 1 && s.requests[n].stamp == 0
            && Accepted(s.requests[n]) && !Among(Log(s, HOT), IP_LIMIT, n)
  {
    AfterLateRun(n);
    AfterBurst(n);
    hide Run, Burst, LateRun;
    var log := Log(Run(Burst(n)), HOT);
    assert (log + [n])[..IP_LIMIT] == log[..IP_LIMIT];
    assert forall k | 0 <= k < IP_LIMIT :: log[k] == k;
  }
}
