/** Smooth weighted round robin (rpc/balancer.go): one signed credit per endpoint. */
module WeightedRoundRobin {
  import opened GoStrings
  import opened Endpoints

  type Weights = map<string, int>
  type Credits = map<string, int>

  /** Reading a missing key of a Go map gives zero. */
  function Credit(c: Credits, e: string): int {
    if e in c then c[e] else 0
  }

  function WeightOf(weights: Weights, e: string): (w: int)
    ensures w >= 1
  {
    if e in weights && weights[e] > 0 then weights[e] else 1
  }

  function TotalWeight(weights: Weights, cands: seq<string>): (total: int)
    ensures total >= |cands|
  {
    if cands == [] then 0 else WeightOf(weights, cands[0]) + TotalWeight(weights, cands[1..])
  }

  /** The credit of `e` once it gained its weight. */
  function Gain(weights: Weights, before: Credits, e: string): int {
    Credit(before, e) + WeightOf(weights, e)
  }

  /** Candidate `i` leads: after every candidate gained its weight, `i` is the first with the most credit. */
  ghost predicate Leads(weights: Weights, cands: seq<string>, before: Credits, i: nat) {
    && i < |cands|
    && forall j :: 0 <= j < |cands| ==>
         if j < i then Gain(weights, before, cands[j]) < Gain(weights, before, cands[i])
         else Gain(weights, before, cands[j]) <= Gain(weights, before, cands[i])
  }

  /** The chosen endpoint pays the total weight. */
  function Payment(weights: Weights, cands: seq<string>, chosen: string, e: string): int {
    if e == chosen then TotalWeight(weights, cands) else 0
  }

  /** One pick: everyone gains its weight, the leader pays the total, nobody else changes. */
  ghost predicate IsPick(weights: Weights, cands: seq<string>, before: Credits, after: Credits, chosen: string) {
    && (exists i: nat :: Leads(weights, cands, before, i) && cands[i] == chosen)
    && (forall e :: e in cands ==>
          e in after && after[e] == Credit(before, e) + WeightOf(weights, e) - Payment(weights, cands, chosen, e))
    && (forall e :: e !in cands ==> (e in after <==> e in before) && Credit(after, e) == Credit(before, e))
  }

  /** The credits after every endpoint of `part` gained its weight. */
  function Gains(weights: Weights, part: seq<string>, before: Credits): Credits {
    if part == [] then before
    else
      var n := |part| - 1;
      var now := Gains(weights, part[..n], before);
      now[part[n] := Credit(now, part[n]) + WeightOf(weights, part[n])]
  }

  /** The running choice of the loop: the endpoint kept unless the next one has more credit. */
  function Leader(weights: Weights, part: seq<string>, before: Credits): (chosen: string)
    ensures part != [] ==> chosen in part
  {
    if part == [] then ""
    else
      var n := |part| - 1;
      var now, chosen := Gains(weights, part, before), Leader(weights, part[..n], before);
      if chosen == "" || Credit(now, part[n]) > Credit(now, chosen) then part[n] else chosen
  }

  /** The credits a pick leaves. */
  function AfterPick(weights: Weights, cands: seq<string>, before: Credits): Credits {
    var now, chosen := Gains(weights, cands, before), Leader(weights, cands, before);
    now[chosen := Credit(now, chosen) - TotalWeight(weights, cands)]
  }

  class WeightedRoundRobinBalancer {
    const weights: Weights
    var current: Credits

    constructor (weights: Weights)
      ensures this.weights == weights && current == map[]
    {
      this.weights := weights;
      this.current := map[];
    }

    method Pick(cancelled: bool, endpoints: seq<string>) returns (r: Result<string, PickError>)
      modifies this
      ensures cancelled ==> r == Err(Cancelled) && current == old(current)
      ensures !cancelled && Normalized(endpoints) == [] ==> r == Err(NoEndpoint) && current == old(current)
      ensures !cancelled && Normalized(endpoints) != [] ==>
                && r == Ok(Leader(weights, Normalized(endpoints), old(current)))
                && current == AfterPick(weights, Normalized(endpoints), old(current))
    {
      if cancelled {
        return Err(Cancelled);
      }
      var cands := NormalizeEndpoints(endpoints);
      if |cands| == 0 {
        return Err(NoEndpoint);
      }
      var chosen, total := Charge(cands);
      NormalizedIsCandidateList(endpoints);
      if chosen == "" {
        return Err(NoEndpoint);
      }
      current := current[chosen := Credit(current, chosen) - total];
      return Ok(chosen);
    }

    /** The loop of Pick. */
    method Charge(cands: seq<string>) returns (chosen: string, total: int)
      modifies this
      ensures total == TotalWeight(weights, cands)
      ensures current == Gains(weights, cands, old(current))
      ensures chosen == Leader(weights, cands, old(current))
    {
      chosen, total := "", 0;
      for k := 0 to |cands|
        invariant total == TotalWeight(weights, cands[..k])
        invariant current == Gains(weights, cands[..k], old(current))
        invariant chosen == Leader(weights, cands[..k], old(current))
      {
        var endpoint := cands[k];
        assert cands[..k + 1][..k] == cands[..k];
        TotalWeightSnoc(weights, cands[..k], endpoint);
        assert cands[..k + 1] == cands[..k] + [endpoint];
        var weight := WeightOf(weights, endpoint);
        total := total + weight;
        current := current[endpoint := Credit(current, endpoint) + weight];
        if chosen == "" || Credit(current, endpoint) > Credit(current, chosen) {
          chosen := endpoint;
        }
      }
      assert cands[..|cands|] == cands;
    }
  }

  lemma {:induction false} GainsAre(weights: Weights, part: seq<string>, before: Credits, e: string)
    requires Distinct(part)
    ensures e in Gains(weights, part, before) <==> e in part || e in before
    ensures Credit(Gains(weights, part, before), e) == Credit(before, e) + (if e in part then WeightOf(weights, e) else 0)
  {
    if part != [] {
      var n := |part| - 1;
      GainsAre(weights, part[..n], before, e);
      assert part == part[..n] + [part[n]];
    }
  }

  lemma {:induction false} LeaderLeads(weights: Weights, part: seq<string>, before: Credits) returns (i: nat)
    requires IsCandidateList(part) && part != []
    ensures Leads(weights, part, before, i) && part[i] == Leader(weights, part, before)
  {
    var n := |part| - 1;
    GainsAre(weights, part, before, part[n]);
    if n == 0 {
      i := 0;
    } else {
      i := LeaderLeads(weights, part[..n], before);
      GainsAre(weights, part, before, part[i]);
      LeadsSnoc(weights, part, before, i);
      if Gain(weights, before, part[n]) > Gain(weights, before, part[i]) {
        i := n;
      }
    }
  }

  lemma LeadsSnoc(weights: Weights, part: seq<string>, before: Credits, i: nat)
    requires part != [] && Leads(weights, part[..|part| - 1], before, i)
    ensures if Gain(weights, before, part[|part| - 1]) > Gain(weights, before, part[i])
            then Leads(weights, part, before, |part| - 1)
            else Leads(weights, part, before, i)
  {
    var n := |part| - 1;
    assert forall j :: 0 <= j < n ==> part[j] == part[..n][j];
  }

  /** What the loop computes is a pick in the declarative sense. */
  lemma PickIsPick(weights: Weights, cands: seq<string>, before: Credits)
    requires IsCandidateList(cands) && cands != []
    ensures IsPick(weights, cands, before, AfterPick(weights, cands, before), Leader(weights, cands, before))
  {
    var i := LeaderLeads(weights, cands, before);
    forall e { GainsAre(weights, cands, before, e); }
  }

  lemma {:induction false} TotalWeightSnoc(weights: Weights, cands: seq<string>, e: string)
    ensures TotalWeight(weights, cands + [e]) == TotalWeight(weights, cands) + WeightOf(weights, e)
  {
    if cands != [] {
      TotalWeightSnoc(weights, cands[1..], e);
      assert (cands + [e])[1..] == cands[1..] + [e];
    }
  }

  // ---------------------------------------------------------------- one pick

  function CreditSum(cands: seq<string>, c: Credits): int {
    if cands == [] then 0 else Credit(c, cands[0]) + CreditSum(cands[1..], c)
  }

  ghost predicate ZeroCredits(cands: seq<string>, c: Credits) {
    forall e :: e in cands ==> Credit(c, e) == 0
  }

  /** A pick among `cands` changes the credits of any part of the list by that part's weight, less the
      total when the part holds the chosen endpoint. */
  lemma {:induction false} PartialSum(weights: Weights, cands: seq<string>, before: Credits, after: Credits, chosen: string, part: seq<string>)
    requires IsPick(weights, cands, before, after, chosen)
    requires Distinct(part) && forall e :: e in part ==> e in cands
    ensures CreditSum(part, after) ==
            CreditSum(part, before) + TotalWeight(weights, part) - (if chosen in part then TotalWeight(weights, cands) else 0)
  {
    if part != [] {
      PartialSum(weights, cands, before, after, chosen, part[1..]);
      assert part == [part[0]] + part[1..];
    }
  }

  /** A pick conserves the sum of the candidates' credits. */
  lemma PickConservesSum(weights: Weights, cands: seq<string>, before: Credits, after: Credits, chosen: string)
    requires Distinct(cands) && IsPick(weights, cands, before, after, chosen)
    ensures CreditSum(cands, after) == CreditSum(cands, before)
  {
    PartialSum(weights, cands, before, after, chosen, cands);
  }

  lemma {:induction false} SumOfNonPositive(weights: Weights, cands: seq<string>, c: Credits, bound: int)
    requires forall e :: e in cands ==> Gain(weights, c, e) <= bound
    requires bound <= 0
    ensures CreditSum(cands, c) + TotalWeight(weights, cands) <= 0
  {
    if cands != [] {
      assert Gain(weights, c, cands[0]) <= bound;
      SumOfNonPositive(weights, cands[1..], c, bound);
    }
  }

  /** Starting from a zero sum the leader has credit to pay with: no credit reaches -W. */
  lemma PickKeepsLowerBound(weights: Weights, cands: seq<string>, before: Credits, after: Credits, chosen: string)
    requires Distinct(cands) && IsPick(weights, cands, before, after, chosen)
    requires CreditSum(cands, before) == 0
    requires forall e :: e in cands ==> Credit(before, e) > -TotalWeight(weights, cands)
    ensures forall e :: e in cands ==> Credit(after, e) > -TotalWeight(weights, cands)
  {
    var lead := Gain(weights, before, chosen);
    if lead <= 0 {
      SumOfNonPositive(weights, cands, before, lead);
    }
  }

  /** Equal credits give the same pick and equal credits again. */
  lemma PickIsDeterministic(weights: Weights, cands: seq<string>,
                            before: Credits, after: Credits, chosen: string, before': Credits, after': Credits, chosen': string)
    requires Distinct(cands)
    requires IsPick(weights, cands, before, after, chosen) && IsPick(weights, cands, before', after', chosen')
    requires forall e :: e in cands ==> Credit(before, e) == Credit(before', e)
    ensures chosen == chosen'
    ensures forall e :: e in cands ==> Credit(after, e) == Credit(after', e)
  {
    var i: nat :| Leads(weights, cands, before, i) && cands[i] == chosen;
    var j: nat :| Leads(weights, cands, before', j) && cands[j] == chosen';
    assert cands[i] in cands && cands[j] in cands;
    assert i == j;
  }

  // ------------------------------------------------- runs over a fixed list

  /** `picks` are consecutive picks among the same candidates; `credits[k]` is the state before pick `k`. */
  ghost predicate IsRun(weights: Weights, cands: seq<string>, credits: seq<Credits>, picks: seq<string>) {
    && |credits| == |picks| + 1
    && forall k :: 0 <= k < |picks| ==> PickAt(weights, cands, credits, picks, k)
  }

  ghost predicate PickAt(weights: Weights, cands: seq<string>, credits: seq<Credits>, picks: seq<string>, k: int)
    requires 0 <= k < |picks| && |credits| == |picks| + 1
  {
    IsPick(weights, cands, credits[k], credits[k + 1], picks[k])
  }

  function Count(picks: seq<string>, e: string): nat {
    if picks == [] then 0 else Count(picks[..|picks| - 1], e) + (if picks[|picks| - 1] == e then 1 else 0)
  }

  /** Repeated addition. */
  function Times(n: nat, x: int): int {
    if n == 0 then 0 else Times(n - 1, x) + x
  }

  lemma {:induction false} TimesIsProduct(n: nat, x: int)
    ensures Times(n, x) == n * x
  {
    if n > 0 {
      TimesIsProduct(n - 1, x);
    }
  }

  /** The books balance: in any window of a run the credit moves by gains less payments. */
  lemma {:induction false} RunBooks(weights: Weights, cands: seq<string>, credits: seq<Credits>, picks: seq<string>, lo: nat, hi: nat, e: string)
    requires IsRun(weights, cands, credits, picks)
    requires lo <= hi <= |picks| && e in cands
    ensures Credit(credits[hi], e) ==
            Credit(credits[lo], e) + Times(hi - lo, WeightOf(weights, e)) - Times(Count(picks[lo..hi], e), TotalWeight(weights, cands))
    decreases hi
  {
    if lo < hi {
      RunBooks(weights, cands, credits, picks, lo, hi - 1, e);
      RunStep(weights, cands, credits, picks, hi - 1, e);
      assert picks[lo..hi][..hi - 1 - lo] == picks[lo..hi - 1];
    }
  }

  lemma RunStep(weights: Weights, cands: seq<string>, credits: seq<Credits>, picks: seq<string>, k: nat, e: string)
    requires IsRun(weights, cands, credits, picks)
    requires k < |picks| && e in cands
    ensures Credit(credits[k + 1], e) == Credit(credits[k], e) + WeightOf(weights, e) - Payment(weights, cands, picks[k], e)
  {
    assert PickAt(weights, cands, credits, picks, k);
  }

  lemma {:induction false} ZeroSum(cands: seq<string>, c: Credits)
    requires ZeroCredits(cands, c)
    ensures CreditSum(cands, c) == 0
  {
    if cands != [] {
      ZeroSum(cands[1..], c);
    }
  }

  /** From zero credits the sum stays zero and no credit reaches -W. */
  lemma {:induction false} RunInvariant(weights: Weights, cands: seq<string>, credits: seq<Credits>, picks: seq<string>, k: nat)
    requires Distinct(cands) && IsRun(weights, cands, credits, picks)
    requires ZeroCredits(cands, credits[0])
    requires k <= |picks|
    ensures CreditSum(cands, credits[k]) == 0
    ensures forall e :: e in cands ==> Credit(credits[k], e) > -TotalWeight(weights, cands)
  {
    if k == 0 {
      ZeroSum(cands, credits[0]);
    } else {
      RunInvariant(weights, cands, credits, picks, k - 1);
      assert PickAt(weights, cands, credits, picks, k - 1);
      PickConservesSum(weights, cands, credits[k - 1], credits[k], picks[k - 1]);
      PickKeepsLowerBound(weights, cands, credits[k - 1], credits[k], picks[k - 1]);
    }
  }

  /** No endpoint runs ahead: after any k picks from zero credits its count c has c*W < k*w + W. */
  lemma NoEndpointRunsAhead(weights: Weights, cands: seq<string>, credits: seq<Credits>, picks: seq<string>, k: nat, e: string)
    requires Distinct(cands) && IsRun(weights, cands, credits, picks)
    requires ZeroCredits(cands, credits[0])
    requires k <= |picks| && e in cands
    ensures Count(picks[..k], e) * TotalWeight(weights, cands) < k * WeightOf(weights, e) + TotalWeight(weights, cands)
  {
    RunInvariant(weights, cands, credits, picks, k);
    RunBooks(weights, cands, credits, picks, 0, k, e);
    assert picks[0..k] == picks[..k];
    assert e in cands;
    TimesIsProduct(k, WeightOf(weights, e));
    TimesIsProduct(Count(picks[..k], e), TotalWeight(weights, cands));
  }

  lemma {:induction false} SumAbove(cands: seq<string>, c: Credits, low: int)
    requires forall e :: e in cands ==> Credit(c, e) >= low
    ensures CreditSum(cands, c) >= Times(|cands|, low)
  {
    if cands != [] {
      assert cands[0] in cands;
      SumAbove(cands[1..], c, low);
    }
  }

  /** One credit is at most the sum less the lowest that the others can be. */
  lemma {:induction false} OneCreditInSum(cands: seq<string>, c: Credits, low: int, e: string)
    requires e in cands && forall e :: e in cands ==> Credit(c, e) >= low
    ensures Credit(c, e) + Times(|cands| - 1, low) <= CreditSum(cands, c)
  {
    assert cands[0] in cands;
    if cands[0] == e {
      SumAbove(cands[1..], c, low);
    } else {
      OneCreditInSum(cands[1..], c, low, e);
    }
  }

  lemma {:induction false} TimesNegates(n: nat, x: int)
    ensures Times(n, -x) == -Times(n, x)
  {
    if n > 0 {
      TimesNegates(n - 1, x);
    }
  }

  /** No credit gets above what all the others can owe. */
  lemma CreditIsBounded(weights: Weights, cands: seq<string>, credits: seq<Credits>, picks: seq<string>, k: nat, e: string)
    requires Distinct(cands) && IsRun(weights, cands, credits, picks)
    requires ZeroCredits(cands, credits[0])
    requires k <= |picks| && e in cands
    ensures Credit(credits[k], e) <= Times(|cands| - 1, TotalWeight(weights, cands) - 1)
  {
    var most := TotalWeight(weights, cands) - 1;
    RunInvariant(weights, cands, credits, picks, k);
    OneCreditInSum(cands, credits[k], -most, e);
    TimesNegates(|cands| - 1, most);
  }

  /** No endpoint falls behind: after any k picks from zero credits among n endpoints its count c has
      k*w <= c*W + (n - 1)*(W - 1). */
  lemma NoEndpointFallsBehind(weights: Weights, cands: seq<string>, credits: seq<Credits>, picks: seq<string>, k: nat, e: string)
    requires Distinct(cands) && IsRun(weights, cands, credits, picks)
    requires ZeroCredits(cands, credits[0])
    requires k <= |picks| && e in cands
    ensures var total := TotalWeight(weights, cands);
            k * WeightOf(weights, e) <= Count(picks[..k], e) * total + Times(|cands| - 1, total - 1)
  {
    var total := TotalWeight(weights, cands);
    GainsAreCovered(weights, cands, credits, picks, k, e);
    TimesIsProduct(k, WeightOf(weights, e));
    TimesIsProduct(Count(picks[..k], e), total);
  }

  lemma GainsAreCovered(weights: Weights, cands: seq<string>, credits: seq<Credits>, picks: seq<string>, k: nat, e: string)
    requires Distinct(cands) && IsRun(weights, cands, credits, picks)
    requires ZeroCredits(cands, credits[0])
    requires k <= |picks| && e in cands
    ensures var total := TotalWeight(weights, cands);
            Times(k, WeightOf(weights, e)) <= Times(Count(picks[..k], e), total) + Times(|cands| - 1, total - 1)
  {
    CreditIsBounded(weights, cands, credits, picks, k, e);
    RunBooks(weights, cands, credits, picks, 0, k, e);
    assert picks[0..k] == picks[..k];
  }

  function CountSum(cands: seq<string>, picks: seq<string>): nat {
    if cands == [] then 0 else Count(picks, cands[0]) + CountSum(cands[1..], picks)
  }

  lemma {:induction false} CountSumSnoc(cands: seq<string>, picks: seq<string>, pick: string)
    requires Distinct(cands)
    ensures CountSum(cands, picks + [pick]) == CountSum(cands, picks) + (if pick in cands then 1 else 0)
  {
    if cands != [] {
      CountSumSnoc(cands[1..], picks, pick);
      assert (picks + [pick])[..|picks|] == picks;
      assert cands == [cands[0]] + cands[1..];
    }
  }

  /** Every pick is counted for exactly one candidate. */
  lemma {:induction false} EveryPickCounted(cands: seq<string>, picks: seq<string>)
    requires Distinct(cands) && forall p :: p in picks ==> p in cands
    ensures CountSum(cands, picks) == |picks|
  {
    if picks == [] {
      NothingCounted(cands);
    } else {
      var n := |picks| - 1;
      EveryPickCounted(cands, picks[..n]);
      CountSumSnoc(cands, picks[..n], picks[n]);
      assert picks == picks[..n] + [picks[n]];
    }
  }

  lemma {:induction false} NothingCounted(cands: seq<string>)
    ensures CountSum(cands, []) == 0
  {
    if cands != [] {
      NothingCounted(cands[1..]);
    }
  }

  /** Counts that never exceed the weights and sum to the total are the weights. */
  lemma {:induction false} CountsAreWeights(weights: Weights, cands: seq<string>, picks: seq<string>)
    requires forall e :: e in cands ==> Count(picks, e) <= WeightOf(weights, e)
    ensures CountSum(cands, picks) <= TotalWeight(weights, cands)
    ensures CountSum(cands, picks) == TotalWeight(weights, cands) ==>
              forall e :: e in cands ==> Count(picks, e) == WeightOf(weights, e)
  {
    if cands != [] {
      CountsAreWeights(weights, cands[1..], picks);
    }
  }

  lemma AtMost(c: int, w: int, total: int)
    requires total > 0 && c * total < total * w + total
    ensures c <= w
  {
    var ahead := c - w;
    assert ahead * total == c * total - w * total;
    if ahead >= 1 {
      AtLeastOnce(ahead, total);
    }
  }

  lemma AtLeastOnce(n: int, total: int)
    requires n >= 1 && total > 0
    ensures n * total >= total
  {
    assert (n - 1) * total >= 0;
  }

  lemma PicksAreCandidates(weights: Weights, cands: seq<string>, credits: seq<Credits>, picks: seq<string>)
    requires IsRun(weights, cands, credits, picks)
    ensures forall p :: p in picks ==> p in cands
  {
    forall p | p in picks ensures p in cands {
      var k :| 0 <= k < |picks| && picks[k] == p;
      assert PickAt(weights, cands, credits, picks, k);
    }
  }

  /** The first W picks from zero credits are exactly fair and return every credit to zero. */
  lemma FirstCycle(weights: Weights, cands: seq<string>, credits: seq<Credits>, picks: seq<string>)
    requires Distinct(cands) && cands != [] && IsRun(weights, cands, credits, picks)
    requires ZeroCredits(cands, credits[0])
    requires TotalWeight(weights, cands) <= |picks|
    ensures forall e :: e in cands ==> Count(picks[..TotalWeight(weights, cands)], e) == WeightOf(weights, e)
    ensures ZeroCredits(cands, credits[TotalWeight(weights, cands)])
  {
    var total := TotalWeight(weights, cands);
    var cycle := picks[..total];
    forall e | e in cands ensures Count(cycle, e) <= WeightOf(weights, e) {
      NoEndpointRunsAhead(weights, cands, credits, picks, total, e);
      AtMost(Count(cycle, e), WeightOf(weights, e), total);
    }
    PicksAreCandidates(weights, cands, credits, picks);
    EveryPickCounted(cands, cycle);
    CountsAreWeights(weights, cands, cycle);
    forall e | e in cands ensures Credit(credits[total], e) == 0 {
      RunBooks(weights, cands, credits, picks, 0, total, e);
      assert picks[0..total] == cycle;
      TimesIsProduct(total, WeightOf(weights, e));
      TimesIsProduct(WeightOf(weights, e), total);
    }
  }

  /** The credits repeat with period W. */
  lemma {:induction false} CreditsRepeat(weights: Weights, cands: seq<string>, credits: seq<Credits>, picks: seq<string>, k: nat)
    requires Distinct(cands) && cands != [] && IsRun(weights, cands, credits, picks)
    requires ZeroCredits(cands, credits[0])
    requires k + TotalWeight(weights, cands) <= |picks|
    ensures forall e :: e in cands ==> Credit(credits[k + TotalWeight(weights, cands)], e) == Credit(credits[k], e)
  {
    var total := TotalWeight(weights, cands);
    if k == 0 {
      FirstCycle(weights, cands, credits, picks);
    } else {
      CreditsRepeat(weights, cands, credits, picks, k - 1);
      assert PickAt(weights, cands, credits, picks, k - 1);
      assert PickAt(weights, cands, credits, picks, k - 1 + total);
      PickIsDeterministic(weights, cands, credits[k - 1 + total], credits[k + total], picks[k - 1 + total],
                          credits[k - 1], credits[k], picks[k - 1]);
    }
  }

  /** Exact fairness: in a run from zero credits any W consecutive picks choose every candidate exactly its
      weight times and leave every credit as it was; a window that starts at zero credits ends there. */
  lemma WeightedRoundRobinIsExactlyFair(weights: Weights, cands: seq<string>, credits: seq<Credits>, picks: seq<string>, k: nat, e: string)
    requires Distinct(cands) && IsRun(weights, cands, credits, picks)
    requires ZeroCredits(cands, credits[0])
    requires k + TotalWeight(weights, cands) <= |picks| && e in cands
    ensures Count(picks[k..k + TotalWeight(weights, cands)], e) == WeightOf(weights, e)
    ensures Credit(credits[k + TotalWeight(weights, cands)], e) == Credit(credits[k], e)
  {
    var total := TotalWeight(weights, cands);
    CreditsRepeat(weights, cands, credits, picks, k);
    RunBooks(weights, cands, credits, picks, k, k + total, e);
    TimesCancel(Count(picks[k..k + total], e), WeightOf(weights, e), total);
  }

  lemma TimesCancel(c: nat, w: nat, total: nat)
    requires total > 0 && Times(total, w) == Times(c, total)
    ensures c == w
  {
    TimesIsProduct(total, w);
    TimesIsProduct(c, total);
    assert total * (c - w) == 0;
  }

  // ------------------------------------------- fairness by the configured table

  /** What the configuration gives each candidate: its positive entry, or one. */
  ghost predicate IsShares(weights: Weights, cands: seq<string>, shares: map<string, int>) {
    forall e :: e in cands ==>
      && e in shares
      && (e in weights && weights[e] > 0 ==> shares[e] == weights[e])
      && (e !in weights || weights[e] <= 0 ==> shares[e] == 1)
  }

  ghost function SumOfShares(cands: seq<string>, shares: map<string, int>): int
    requires forall e :: e in cands ==> e in shares
  {
    if cands == [] then 0 else shares[cands[0]] + SumOfShares(cands[1..], shares)
  }

  lemma {:induction false} SharesAreWeights(weights: Weights, cands: seq<string>, shares: map<string, int>)
    requires IsShares(weights, cands, shares)
    ensures forall e :: e in cands ==> shares[e] == WeightOf(weights, e)
    ensures SumOfShares(cands, shares) == TotalWeight(weights, cands)
  {
    if cands != [] {
      assert cands[0] in cands;
      SharesAreWeights(weights, cands[1..], shares);
    }
  }

  /** The balancer's own picks from its first one on: what each call of Pick answers and leaves. */
  ghost predicate IsPickRun(weights: Weights, cands: seq<string>, credits: seq<Credits>, picks: seq<string>) {
    && |credits| == |picks| + 1 && credits[0] == map[]
    && forall k :: 0 <= k < |picks| ==> PickedAt(weights, cands, credits, picks, k)
  }

  ghost predicate PickedAt(weights: Weights, cands: seq<string>, credits: seq<Credits>, picks: seq<string>, k: int)
    requires 0 <= k < |picks| && |credits| == |picks| + 1
  {
    picks[k] == Leader(weights, cands, credits[k]) && credits[k + 1] == AfterPick(weights, cands, credits[k])
  }

  lemma PickRunIsRun(weights: Weights, cands: seq<string>, credits: seq<Credits>, picks: seq<string>)
    requires IsCandidateList(cands) && cands != [] && IsPickRun(weights, cands, credits, picks)
    ensures IsRun(weights, cands, credits, picks) && ZeroCredits(cands, credits[0])
  {
    forall k | 0 <= k < |picks| ensures PickAt(weights, cands, credits, picks, k) {
      assert PickedAt(weights, cands, credits, picks, k);
      PickIsPick(weights, cands, credits[k]);
    }
  }

  /** Fairness as configured: among the candidates of any raw list, over as many consecutive picks of a new balancer as
      their configured shares add up to, each is picked as often as its share says. */
  lemma ConfiguredSharesAreExact(weights: Weights, endpoints: seq<string>, shares: map<string, int>,
                                 credits: seq<Credits>, picks: seq<string>, k: nat, e: string)
    requires Normalized(endpoints) != [] && IsShares(weights, Normalized(endpoints), shares)
    requires IsPickRun(weights, Normalized(endpoints), credits, picks)
    requires k + SumOfShares(Normalized(endpoints), shares) <= |picks| && e in Normalized(endpoints)
    ensures SumOfShares(Normalized(endpoints), shares) > 0
    ensures Count(picks[k..k + SumOfShares(Normalized(endpoints), shares)], e) == shares[e]
  {
    var cands := Normalized(endpoints);
    NormalizedIsCandidateList(endpoints);
    SharesAreWeights(weights, cands, shares);
    PickRunIsRun(weights, cands, credits, picks);
    WeightedRoundRobinIsExactlyFair(weights, cands, credits, picks, k, e);
  }

  // ------------------------------------------------ runs over changing lists

  /** The sum of every credit the balancer holds, candidates or not. */
  ghost function AllCredits(c: Credits, keys: set<string>): int {
    if keys == {} then 0
    else
      var e :| e in keys;
      Credit(c, e) + AllCredits(c, keys - {e})
  }

  lemma {:induction false} AllCreditsSplit(c: Credits, keys: set<string>, e: string)
    requires e in keys
    ensures AllCredits(c, keys) == Credit(c, e) + AllCredits(c, keys - {e})
  {
    var f :| f in keys && AllCredits(c, keys) == Credit(c, f) + AllCredits(c, keys - {f});
    if f != e {
      AllCreditsSplit(c, keys - {f}, e);
      AllCreditsSplit(c, keys - {e}, f);
      assert keys - {f} - {e} == keys - {e} - {f};
    }
  }

  lemma {:induction false} AllCreditsSame(c: Credits, c': Credits, keys: set<string>)
    requires forall e :: e in keys ==> Credit(c, e) == Credit(c', e)
    ensures AllCredits(c, keys) == AllCredits(c', keys)
  {
    if keys != {} {
      var e :| e in keys && AllCredits(c, keys) == Credit(c, e) + AllCredits(c, keys - {e});
      AllCreditsSame(c, c', keys - {e});
      AllCreditsSplit(c', keys, e);
    }
  }

  /** Separating a repetition-free list of keys from the rest. */
  lemma {:induction false} AllCreditsOf(c: Credits, keys: set<string>, part: seq<string>)
    requires Distinct(part) && forall e :: e in part ==> e in keys
    ensures AllCredits(c, keys) == CreditSum(part, c) + AllCredits(c, keys - set e | e in part)
  {
    if part == [] {
      assert keys - (set e | e in part) == keys;
    } else {
      AllCreditsSplit(c, keys, part[0]);
      assert part == [part[0]] + part[1..];
      AllCreditsOf(c, keys - {part[0]}, part[1..]);
      assert keys - {part[0]} - (set e | e in part[1..]) == keys - set e | e in part;
    }
  }

  lemma {:induction false} AllCreditsNew(c: Credits, keys: set<string>, more: set<string>)
    requires keys <= more && forall e :: e in more && e !in keys ==> Credit(c, e) == 0
    ensures AllCredits(c, keys) == AllCredits(c, more)
    decreases |more|
  {
    if keys != more {
      var e :| e in more && e !in keys;
      AllCreditsSplit(c, more, e);
      AllCreditsNew(c, keys, more - {e});
    }
  }

  /** A pick conserves the sum of all credits held. */
  lemma PickConservesAllCredits(weights: Weights, cands: seq<string>, before: Credits, after: Credits, chosen: string)
    requires Distinct(cands) && IsPick(weights, cands, before, after, chosen)
    ensures AllCredits(after, after.Keys) == AllCredits(before, before.Keys)
  {
    var rest := after.Keys - set e | e in cands;
    AllCreditsOf(after, after.Keys, cands);
    AllCreditsOf(before, after.Keys, cands);
    AllCreditsSame(before, after, rest);
    PickConservesSum(weights, cands, before, after, chosen);
    assert before.Keys <= after.Keys;
    AllCreditsNew(before, before.Keys, after.Keys);
  }

  /** Consecutive picks where the candidate list may be a different one each time. */
  ghost predicate IsChangingRun(weights: Weights, lists: seq<seq<string>>, credits: seq<Credits>, picks: seq<string>) {
    && |credits| == |picks| + 1 && |lists| == |picks|
    && forall k {:trigger picks[k]} :: 0 <= k < |picks| ==> Distinct(lists[k]) && IsPick(weights, lists[k], credits[k], credits[k + 1], picks[k])
  }

  /** Credits are never created or lost: from a new balancer they sum to zero after every pick, whatever
      lists the picks were made from. */
  lemma {:induction false} CreditsAlwaysSumToZero(weights: Weights, lists: seq<seq<string>>, credits: seq<Credits>, picks: seq<string>, k: nat)
    requires IsChangingRun(weights, lists, credits, picks)
    requires credits[0] == map[]
    requires k <= |picks|
    ensures AllCredits(credits[k], credits[k].Keys) == 0
  {
    if k > 0 {
      CreditsAlwaysSumToZero(weights, lists, credits, picks, k - 1);
      assert IsPick(weights, lists[k - 1], credits[k - 1], credits[k - 1 + 1], picks[k - 1]);
      PickConservesAllCredits(weights, lists[k - 1], credits[k - 1], credits[k], picks[k - 1]);
    }
  }
}
