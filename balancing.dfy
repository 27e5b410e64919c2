/** Choosing, for each request, the transport with the best rate-limit
    standing for the resource the request will consume. */
module Balancing {
  import opened Common
  import opened Resources
  import opened Rates
  import opened Infer
  import opened Transports

  /** What a strategy sees of one transport: its position in the balancer's
      list (its identity) and the contents of its registry at the time of the
      request. */
  datatype Candidate = Candidate(index: nat, limits: map<Resource, Rate>)

  /** A selection strategy `(resource, currentBest, candidate) -> winner`, where
      a nil winner means "no preference". `Custom` is any caller-supplied
      function; it may read the clock, passed as the last argument. */
  datatype Strategy =
    | MostRemaining
    | ResetTimeInPastAndMostRemaining
    | Custom(choose: (Resource, Option<Candidate>, Candidate, int) -> Option<Candidate>)

  /** `WithStrategy`, the one balancing option. */
  datatype BalancingOption = WithStrategy(strategy: Strategy)

  /** "no transports available". */
  datatype BalanceError = NoTransports

  /** `extractValues`: the remaining count and the reset time (as Go's
      `int64`) of a transport for a resource, both zero for a nil transport or
      a resource it has no entry for. */
  function ExtractValues(resource: Resource, t: Option<Candidate>): (v: (U64, int))
    ensures t.None? || resource !in t.value.limits ==> v == (0, 0)
    ensures t.Some? && resource in t.value.limits ==>
      v == (t.value.limits[resource].remaining, ToInt64(t.value.limits[resource].reset))
  {
    if t.Some? && resource in t.value.limits then
      var r := t.value.limits[resource];
      (r.remaining, ToInt64(r.reset))
    else
      (0, 0)
  }

  function RemainingOf(resource: Resource, t: Option<Candidate>): U64
  {
    ExtractValues(resource, t).0
  }

  function ResetOf(resource: Resource, t: Option<Candidate>): int
  {
    ExtractValues(resource, t).1
  }

  /** `resetIsInPastAndEarlierThanOther`: `reset` is set, already before `now`,
      and the other reset is unset or later. */
  predicate ResetIsInPastAndEarlierThanOther(reset: int, otherReset: int, now: int)
  {
    reset != 0 && reset < now && (otherReset == 0 || reset < otherReset)
  }

  /** At most one side can be in the past and earlier than the other, so the
      order in which the strategy tests the two sides does not matter. */
  lemma ResetInPastIsAsymmetric(a: int, b: int, now: int)
    ensures !(ResetIsInPastAndEarlierThanOther(a, b, now) && ResetIsInPastAndEarlierThanOther(b, a, now))
  {
  }

  /** `StrategyMostRemaining`: the candidate wins exactly when it has strictly
      more remaining than the incumbent; ties keep the incumbent. */
  function StrategyMostRemaining(resource: Resource, best: Option<Candidate>, candidate: Candidate): (r: Option<Candidate>)
    ensures RemainingOf(resource, Some(candidate)) > RemainingOf(resource, best) ==> r == Some(candidate)
    ensures RemainingOf(resource, Some(candidate)) <= RemainingOf(resource, best) ==> r == best
  {
    var (bestRem, _) := ExtractValues(resource, best);
    var (candidateRem, _) := ExtractValues(resource, Some(candidate));
    if candidateRem > bestRem then Some(candidate) else best
  }

  /** `StrategyResetTimeInPastAndMostRemaining`. Nil exactly when both sides
      have nothing remaining. Otherwise, in order: a side whose reset has
      passed and is earlier than the other's wins; then, when both resets are
      set, the side resetting strictly sooner wins if it has capacity; then
      strictly more remaining wins, ties keeping the incumbent. */
  function StrategyResetTimeInPastAndMostRemaining(resource: Resource, best: Option<Candidate>, candidate: Candidate, now: int): (r: Option<Candidate>)
    ensures r.None? <==> RemainingOf(resource, best) == 0 && RemainingOf(resource, Some(candidate)) == 0
    ensures r.Some? ==> r == best || r == Some(candidate)
    ensures best.None? && RemainingOf(resource, Some(candidate)) > 0 ==> r == Some(candidate)
    ensures r.Some? && ResetIsInPastAndEarlierThanOther(ResetOf(resource, Some(candidate)), ResetOf(resource, best), now) ==> r == Some(candidate)
    ensures r.Some? && ResetIsInPastAndEarlierThanOther(ResetOf(resource, best), ResetOf(resource, Some(candidate)), now) ==> r == best
    ensures
      var (bRem, bReset) := ExtractValues(resource, best);
      var (cRem, cReset) := ExtractValues(resource, Some(candidate));
      r.Some? && !ResetIsInPastAndEarlierThanOther(cReset, bReset, now) && !ResetIsInPastAndEarlierThanOther(bReset, cReset, now) ==>
        if cReset != 0 && bReset != 0 && cReset < bReset && cRem > 0 then r == Some(candidate)
        else if cReset != 0 && bReset != 0 && bReset < cReset && bRem > 0 then r == best
        else r == (if cRem > bRem then Some(candidate) else best)
  {
    var (bestRem, bestReset) := ExtractValues(resource, best);
    var (candidateRem, candidateReset) := ExtractValues(resource, Some(candidate));
    if bestRem == 0 && candidateRem == 0 then None
    else if ResetIsInPastAndEarlierThanOther(candidateReset, bestReset, now) then Some(candidate)
    else if ResetIsInPastAndEarlierThanOther(bestReset, candidateReset, now) then best
    else if candidateReset != 0 && bestReset != 0 && candidateReset < bestReset && candidateRem > 0 then Some(candidate)
    else if candidateReset != 0 && bestReset != 0 && bestReset < candidateReset && bestRem > 0 then best
    else if candidateRem > bestRem then Some(candidate)
    else best
  }

  /** One step of the fold: apply the configured strategy. */
  function Choose(s: Strategy, resource: Resource, best: Option<Candidate>, candidate: Candidate, now: int): Option<Candidate>
  {
    match s
    case MostRemaining => StrategyMostRemaining(resource, best, candidate)
    case ResetTimeInPastAndMostRemaining => StrategyResetTimeInPastAndMostRemaining(resource, best, candidate, now)
    case Custom(choose) => choose(resource, best, candidate, now)
  }

  /** The strategy folded left to right over the candidates, starting from nil. */
  function Fold(s: Strategy, resource: Resource, cs: seq<Candidate>, now: int): Option<Candidate>
  {
    if cs == [] then None
    else Choose(s, resource, Fold(s, resource, cs[..|cs| - 1], now), cs[|cs| - 1], now)
  }

  /** The transport a request is sent to: the fold's winner, or the one at the
      randomly drawn index `pick` when the fold ends at nil. */
  function Select(s: Strategy, resource: Resource, cs: seq<Candidate>, now: int, pick: nat): Candidate
    requires pick < |cs|
  {
    match Fold(s, resource, cs, now)
    case Some(c) => c
    case None => cs[pick]
  }

  /** The candidates of a list of transports, in order, as they stand now. */
  function CandidatesOf(ts: seq<Transport>): (cs: seq<Candidate>)
    reads set t | t in ts :: t.limits
    ensures |cs| == |ts|
    ensures forall i | 0 <= i < |ts| :: cs[i] == Candidate(i, ts[i].limits.m)
  {
    if ts == [] then []
    else CandidatesOf(ts[..|ts| - 1]) + [Candidate(|ts| - 1, ts[|ts| - 1].limits.m)]
  }

  /** Rank of `cs[k]` as the earliest candidate with the most remaining. */
  predicate IsEarliestMost(resource: Resource, cs: seq<Candidate>, k: nat)
  {
    && k < |cs|
    && (forall j | 0 <= j < |cs| :: RemainingOf(resource, Some(cs[j])) <= RemainingOf(resource, Some(cs[k])))
    && (forall j | 0 <= j < k :: RemainingOf(resource, Some(cs[j])) < RemainingOf(resource, Some(cs[k])))
  }

  /** The most-remaining fold ends at nil exactly when no candidate has
      anything remaining for the resource (an unknown entry counts as zero);
      otherwise it picks the earliest candidate with the most remaining, at
      the returned position `k`. */
  lemma {:induction false} MostRemainingFold(resource: Resource, cs: seq<Candidate>, now: int) returns (k: nat)
    ensures Fold(MostRemaining, resource, cs, now).None? <==>
      forall i | 0 <= i < |cs| :: RemainingOf(resource, Some(cs[i])) == 0
    ensures Fold(MostRemaining, resource, cs, now).Some? ==>
      IsEarliestMost(resource, cs, k) && Fold(MostRemaining, resource, cs, now) == Some(cs[k])
  {
    k := 0;
    if cs != [] {
      var n := |cs| - 1;
      var prefix := cs[..n];
      var j := MostRemainingFold(resource, prefix, now);
      var prev := Fold(MostRemaining, resource, prefix, now);
      assert forall i | 0 <= i < n :: cs[i] == prefix[i];
      if RemainingOf(resource, Some(cs[n])) > RemainingOf(resource, prev) {
        LastIsEarliestMost(resource, cs, prev);
        k := n;
      } else if prev.Some? {
        PrefixWinnerStays(resource, cs, j);
        k := j;
      }
    }
  }

  /** Step of `MostRemainingFold` where the last candidate takes over. */
  lemma LastIsEarliestMost(resource: Resource, cs: seq<Candidate>, prev: Option<Candidate>)
    requires cs != []
    requires prev.None? ==> forall i | 0 <= i < |cs| - 1 :: RemainingOf(resource, Some(cs[i])) == 0
    requires prev.Some? ==> forall i | 0 <= i < |cs| - 1 :: RemainingOf(resource, Some(cs[i])) <= RemainingOf(resource, prev)
    requires RemainingOf(resource, Some(cs[|cs| - 1])) > RemainingOf(resource, prev)
    ensures IsEarliestMost(resource, cs, |cs| - 1)
  {
  }

  /** Step of `MostRemainingFold` where the prefix's winner keeps its place. */
  lemma PrefixWinnerStays(resource: Resource, cs: seq<Candidate>, j: nat)
    requires cs != [] && IsEarliestMost(resource, cs[..|cs| - 1], j)
    requires RemainingOf(resource, Some(cs[|cs| - 1])) <= RemainingOf(resource, Some(cs[j]))
    ensures IsEarliestMost(resource, cs, j)
  {
    assert forall i | 0 <= i < |cs| - 1 :: cs[i] == cs[..|cs| - 1][i];
  }

  /** With either shipped strategy the fold's winner, when there is one, is
      one of the candidates. */
  lemma {:induction false} FoldPicksCandidate(s: Strategy, resource: Resource, cs: seq<Candidate>, now: int)
    requires !s.Custom?
    ensures Fold(s, resource, cs, now).Some? ==> Fold(s, resource, cs, now).value in cs
  {
    if cs != [] {
      var prefix := cs[..|cs| - 1];
      FoldPicksCandidate(s, resource, prefix, now);
      var prev := Fold(s, resource, prefix, now);
      if prev.Some? {
        assert prev.value in cs;
      }
    }
  }

  /** With either shipped strategy the transport finally used is always one
      of the list, whether the fold decided or the random fallback did. */
  lemma SelectPicksCandidate(s: Strategy, resource: Resource, cs: seq<Candidate>, now: int, pick: nat)
    requires !s.Custom? && pick < |cs|
    ensures Select(s, resource, cs, now, pick) in cs
  {
    FoldPicksCandidate(s, resource, cs, now);
  }

  /** When no candidate has anything remaining, the reset-aware fold ends at
      nil, whatever the reset times. */
  lemma {:induction false} ResetAwareFoldAllEmpty(resource: Resource, cs: seq<Candidate>, now: int)
    requires forall i | 0 <= i < |cs| :: RemainingOf(resource, Some(cs[i])) == 0
    ensures Fold(ResetTimeInPastAndMostRemaining, resource, cs, now) == None
  {
    if cs != [] {
      var prefix := cs[..|cs| - 1];
      assert forall i | 0 <= i < |prefix| :: prefix[i] == cs[i];
      ResetAwareFoldAllEmpty(resource, prefix, now);
    }
  }

  /** A candidate whose window has already reset (reset in the past, nothing
      remaining) against one that resets in an hour with capacity: compared
      directly, the reset one wins from either side, but folded from nil in
      the order [reset one, other] the reset one is dropped at the first step
      ("both have zero remaining") and the other wins. */
  lemma ResetAwareFoldIsOrderSensitive(resource: Resource, now: int)
    requires 10 < now < TwoTo63 - 3600
    ensures
      var a := Candidate(0, map[resource := Rate(5000, 5000, 0, now - 10)]);
      var b := Candidate(1, map[resource := Rate(5000, 4995, 5, now + 3600)]);
      && StrategyResetTimeInPastAndMostRemaining(resource, Some(b), a, now) == Some(a)
      && StrategyResetTimeInPastAndMostRemaining(resource, Some(a), b, now) == Some(a)
      && Fold(ResetTimeInPastAndMostRemaining, resource, [a, b], now) == Some(b)
      && Fold(ResetTimeInPastAndMostRemaining, resource, [b, a], now) == Some(a)
  {
    var a := Candidate(0, map[resource := Rate(5000, 5000, 0, now - 10)]);
    var b := Candidate(1, map[resource := Rate(5000, 4995, 5, now + 3600)]);
    var R := ResetTimeInPastAndMostRemaining;
    assert ResetOf(resource, Some(a)) == now - 10 && ResetOf(resource, Some(b)) == now + 3600;
    assert RemainingOf(resource, Some(a)) == 0 && RemainingOf(resource, Some(b)) == 5;
    assert [a, b][..1] == [a] && [a][..0] == [];
    assert Fold(R, resource, [a], now) == None;
    assert [b, a][..1] == [b] && [b][..0] == [];
    assert Fold(R, resource, [b], now) == Some(b);
  }

  /** A transport with capacity can be lost in the middle of the reset-aware
      fold: `a` has 5 left and no reset time, `b` has reset already with none
      left, `c` knows nothing. `b` displaces `a` (its reset is past), then `b`
      against `c` is "both zero", so the fold ends at nil and the request goes
      to a random transport although `a` could serve it. */
  lemma ResetAwareFoldDropsCapacity(resource: Resource, now: int)
    requires 10 < now < TwoTo63
    ensures
      var a := Candidate(0, map[resource := Rate(5000, 4995, 5, 0)]);
      var b := Candidate(1, map[resource := Rate(5000, 5000, 0, now - 10)]);
      var c := Candidate(2, map[]);
      Fold(ResetTimeInPastAndMostRemaining, resource, [a, b, c], now) == None
  {
    var a := Candidate(0, map[resource := Rate(5000, 4995, 5, 0)]);
    var b := Candidate(1, map[resource := Rate(5000, 5000, 0, now - 10)]);
    var c := Candidate(2, map[]);
    var R := ResetTimeInPastAndMostRemaining;
    assert [a, b, c][..2] == [a, b] && [a, b][..1] == [a] && [a][..0] == [];
    assert Fold(R, resource, [a], now) == Some(a);
    assert ResetOf(resource, Some(b)) == now - 10;
    assert Fold(R, resource, [a, b], now) == Some(b);
  }

  /** A candidate at position `i` whose only entry is `resource` with the
      given remaining count. */
  function Holding(i: nat, resource: Resource, remaining: U64): Candidate
    requires remaining <= 5000
  {
    Candidate(i, map[resource := Rate(5000, 5000 - remaining, remaining, 0)])
  }

  /** Remaining 10, 100 and 50: the one with 100 wins. */
  lemma MostRemainingPicksLargest(resource: Resource, now: int)
    ensures Fold(MostRemaining, resource, [Holding(0, resource, 10), Holding(1, resource, 100), Holding(2, resource, 50)], now)
      == Some(Holding(1, resource, 100))
  {
    var cs := [Holding(0, resource, 10), Holding(1, resource, 100), Holding(2, resource, 50)];
    var k := MostRemainingFold(resource, cs, now);
    assert RemainingOf(resource, Some(cs[1])) == 100;
  }

  /** With no entries at all the fold ends at nil, and the caller falls back
      to a random transport. */
  lemma MostRemainingAllUnknown(resource: Resource, now: int)
    ensures Fold(MostRemaining, resource, [Candidate(0, map[]), Candidate(1, map[])], now) == None
  {
    var k := MostRemainingFold(resource, [Candidate(0, map[]), Candidate(1, map[])], now);
  }

  /** An unknown candidate never beats a known one with capacity. */
  lemma MostRemainingSkipsUnknown(resource: Resource, now: int)
    ensures Fold(MostRemaining, resource, [Candidate(0, map[]), Holding(1, resource, 10)], now) == Some(Holding(1, resource, 10))
  {
    var cs := [Candidate(0, map[]), Holding(1, resource, 10)];
    var k := MostRemainingFold(resource, cs, now);
    assert RemainingOf(resource, Some(cs[1])) == 10;
  }

  /** The balancer: a fixed list of transports and the strategy to choose
      among them. */
  class BalancingTransport {
    const transports: seq<Transport>
    var strategy: Strategy

    /** `NewBalancingTransport`: the default strategy is most-remaining, and
        each option, applied in order, replaces it. */
    constructor (transports: seq<Transport>, opts: seq<BalancingOption>)
      ensures this.transports == transports
      ensures opts == [] ==> strategy.MostRemaining?
      ensures opts != [] ==> strategy == opts[|opts| - 1].strategy
    {
      var s := MostRemaining;
      for i := 0 to |opts|
        invariant i == 0 ==> s.MostRemaining?
        invariant i > 0 ==> s == opts[i - 1].strategy
      {
        s := opts[i].strategy;
      }
      this.transports := transports;
      strategy := s;
    }

    /** The selection part of `RoundTrip`: with no transports it fails;
        otherwise it infers the request's resource, folds the strategy over
        the transports' current rates and uses the winner, or the transport
        at the random index `pick` when the fold ends at nil. */
    method RoundTrip(httpMethod: string, path: string, now: int, pick: nat) returns (r: Result<Candidate, BalanceError>)
      requires transports == [] || pick < |transports|
      ensures r.Err? <==> transports == []
      ensures r.Err? ==> r.error == NoTransports
      ensures r.Ok? ==> r.value == Select(strategy, InferResource(httpMethod, path), CandidatesOf(transports), now, pick)
      ensures r.Ok? && !strategy.Custom? ==> r.value in CandidatesOf(transports)
    {
      if |transports| == 0 {
        return Err(NoTransports);
      }
      var resource := InferResource(httpMethod, path);
      ghost var cs := CandidatesOf(transports);
      var best: Option<Candidate> := None;
      for i := 0 to |transports|
        invariant best == Fold(strategy, resource, cs[..i], now)
      {
        assert cs[..i + 1][..i] == cs[..i];
        best := Choose(strategy, resource, best, Candidate(i, transports[i].limits.m), now);
      }
      assert cs[..|transports|] == cs;
      if best.None? {
        best := Some(Candidate(pick, transports[pick].limits.m));
      }
      r := Ok(best.value);
      if !strategy.Custom? {
        SelectPicksCandidate(strategy, resource, cs, now, pick);
      }
    }
  }
}
