/** Per-run token and cost budgeting. */
module TokenBudget {

  /** The fields of a budget. Costs are exact reals. */
  datatype Budget = Budget(
    maxTokens: int, maxCost: real, costPerToken: real, spent: int, cost: real, exhausted: bool)

  datatype Answer = Granted | Refused | Raised

  function Fresh(maxTokens: int, maxCost: real, costPerToken: real): Budget {
    Budget(maxTokens, maxCost, costPerToken, 0, 0.0, false)
  }

  function Reply(b: Budget, tokens: int): Answer {
    if tokens < 0 then Raised
    else if b.exhausted then Refused
    else if b.spent + tokens > b.maxTokens || b.cost + tokens as real * b.costPerToken > b.maxCost then Refused
    else Granted
  }

  function Charged(b: Budget, tokens: int): Budget {
    match Reply(b, tokens)
    case Granted => b.(spent := b.spent + tokens, cost := b.cost + tokens as real * b.costPerToken)
    case Refused => b.(exhausted := true)
    case Raised => b
  }

  class Tracker {
    const maxTokens: int
    const maxCostUsd: real
    const costPerToken: real
    var tokensSpent: int
    var costSpentUsd: real
    var exhausted: bool

    ghost function State(): Budget
      reads this
    {
      Budget(maxTokens, maxCostUsd, costPerToken, tokensSpent, costSpentUsd, exhausted)
    }

    constructor (maxTokens: int, maxCostUsd: real, costPerToken: real)
      ensures State() == Fresh(maxTokens, maxCostUsd, costPerToken)
    {
      this.maxTokens, this.maxCostUsd, this.costPerToken := maxTokens, maxCostUsd, costPerToken;
      tokensSpent, costSpentUsd, exhausted := 0, 0.0, false;
    }

    method Consume(tokens: int) returns (r: Answer)
      modifies this
      ensures r == Reply(old(State()), tokens)
      ensures State() == Charged(old(State()), tokens)
    {
      if tokens < 0 {
        return Raised;
      }
      if exhausted {
        return Refused;
      }
      var prospectiveTokens := tokensSpent + tokens;
      var prospectiveCost := costSpentUsd + tokens as real * costPerToken;
      if prospectiveTokens > maxTokens || prospectiveCost > maxCostUsd {
        exhausted := true;
        return Refused;
      }
      tokensSpent := prospectiveTokens;
      costSpentUsd := prospectiveCost;
      return Granted;
    }
  }

  // ---------------------------------------------------------------------
  // Any sequence of consume() calls on one budget
  // ---------------------------------------------------------------------

  function Spend(b: Budget, requests: seq<int>): Budget
    decreases |requests|
  {
    if requests == [] then b else Spend(Charged(b, requests[0]), requests[1..])
  }

  /** The requests that were granted, in order. */
  function Grants(b: Budget, requests: seq<int>): seq<int>
    decreases |requests|
  {
    if requests == [] then []
    else
      var rest := Grants(Charged(b, requests[0]), requests[1..]);
      if Reply(b, requests[0]).Granted? then [requests[0]] + rest else rest
  }

  function Sum(s: seq<int>): int {
    if s == [] then 0 else s[0] + Sum(s[1..])
  }

  /** Only granted requests are recorded; both caps hold after every call. */
  lemma {:induction false} SpendIsGranted(b: Budget, requests: seq<int>)
    requires b.cost == b.spent as real * b.costPerToken
    ensures var c := Spend(b, requests);
      && c.spent == b.spent + Sum(Grants(b, requests))
      && c.cost == c.spent as real * c.costPerToken
      && (Grants(b, requests) != [] ==> c.spent <= b.maxTokens && c.cost <= b.maxCost)
    decreases |requests|
  {
    hide Reply, Charged;
    if requests != [] {
      var next := Charged(b, requests[0]);
      ChargeKeeps(b, requests[0]);
      SpendIsGranted(next, requests[1..]);
      if Reply(b, requests[0]).Granted? {
        assert Grants(b, requests)[1..] == Grants(next, requests[1..]);
        if Grants(next, requests[1..]) == [] {
          NoGrantNoChange(next, requests[1..]);
        }
      }
    }
  }

  lemma ChargeKeeps(b: Budget, tokens: int)
    requires b.cost == b.spent as real * b.costPerToken
    ensures var next := Charged(b, tokens);
      && next.cost == next.spent as real * next.costPerToken
      && next.maxTokens == b.maxTokens && next.maxCost == b.maxCost && next.costPerToken == b.costPerToken
      && (if Reply(b, tokens).Granted?
          then next.spent == b.spent + tokens && next.spent <= b.maxTokens && next.cost <= b.maxCost
          else next.spent == b.spent && next.cost == b.cost)
  {
    assert b.cost + tokens as real * b.costPerToken == (b.spent + tokens) as real * b.costPerToken;
  }

  lemma {:induction false} NoGrantNoChange(b: Budget, requests: seq<int>)
    requires Grants(b, requests) == []
    ensures Spend(b, requests).spent == b.spent && Spend(b, requests).cost == b.cost
    decreases |requests|
  {
    if requests != [] {
      NoGrantNoChange(Charged(b, requests[0]), requests[1..]);
    }
  }

  /** The tokens asked for so far are within both caps. */
  predicate Fits(maxTokens: int, maxCost: real, costPerToken: real, tokens: int) {
    tokens <= maxTokens && tokens as real * costPerToken <= maxCost
  }

  /** A fresh budget grants exactly the longest run of requests that fits, the
      one that reaches a cap included, and nothing from the first that does not
      fit on. */
  lemma {:induction false} GrantsExactly(maxTokens: int, maxCost: real, costPerToken: real, requests: seq<int>)
      returns (n: nat)
    requires forall k :: 0 <= k < |requests| ==> requests[k] >= 0
    ensures var b := Fresh(maxTokens, maxCost, costPerToken);
      && n <= |requests| && Grants(b, requests) == requests[..n]
      && Spend(b, requests).spent == Sum(requests[..n])
      && (forall k :: 0 < k <= n ==> Fits(maxTokens, maxCost, costPerToken, Sum(requests[..k])))
      && (n < |requests| ==> !Fits(maxTokens, maxCost, costPerToken, Sum(requests[..n + 1])))
      && (Spend(b, requests).exhausted <==> n < |requests|)
  {
    n := GrantsFrom(Fresh(maxTokens, maxCost, costPerToken), requests);
  }

  lemma {:induction false} GrantsFrom(b: Budget, requests: seq<int>) returns (n: nat)
    requires !b.exhausted && b.cost == b.spent as real * b.costPerToken
    requires forall k :: 0 <= k < |requests| ==> requests[k] >= 0
    ensures n <= |requests| && Grants(b, requests) == requests[..n]
    ensures Spend(b, requests).spent == b.spent + Sum(requests[..n])
    ensures forall k :: 0 < k <= n ==> Fits(b.maxTokens, b.maxCost, b.costPerToken, b.spent + Sum(requests[..k]))
    ensures n < |requests| ==> !Fits(b.maxTokens, b.maxCost, b.costPerToken, b.spent + Sum(requests[..n + 1]))
    ensures Spend(b, requests).exhausted <==> n < |requests|
    decreases |requests|
  {
    hide Reply, Charged, Fits;
    n := 0;
    if requests != [] {
      var first, rest := requests[0], requests[1..];
      OneRequest(b, first);
      PrefixSums(requests);
      if Fits(b.maxTokens, b.maxCost, b.costPerToken, b.spent + first) {
        n := GrantsFrom(Charged(b, first), rest);
        n := n + 1;
        assert requests[..n] == [first] + rest[..n - 1];
        assert forall k :: 0 < k <= n ==> b.spent + Sum(requests[..k]) == b.spent + first + Sum(rest[..k - 1]);
      } else {
        ExhaustedForGood(Charged(b, first), rest);
      }
    }
  }

  lemma OneRequest(b: Budget, tokens: int)
    requires !b.exhausted && b.cost == b.spent as real * b.costPerToken && tokens >= 0
    ensures var next := Charged(b, tokens);
      if Fits(b.maxTokens, b.maxCost, b.costPerToken, b.spent + tokens)
      then Reply(b, tokens).Granted? && next.cost == next.spent as real * b.costPerToken
           && next == b.(spent := b.spent + tokens, cost := next.cost)
      else Reply(b, tokens).Refused? && next == b.(exhausted := true)
  {
    assert b.cost + tokens as real * b.costPerToken == (b.spent + tokens) as real * b.costPerToken;
  }

  lemma PrefixSums(requests: seq<int>)
    requires requests != []
    ensures forall k :: 0 < k <= |requests| ==> Sum(requests[..k]) == requests[0] + Sum(requests[1..][..k - 1])
  {
    forall k | 0 < k <= |requests|
      ensures Sum(requests[..k]) == requests[0] + Sum(requests[1..][..k - 1])
    {
      assert requests[..k][1..] == requests[1..][..k - 1];
    }
  }

  /** Only a negative request raises, and it changes nothing. */
  lemma NegativeRaises(b: Budget, tokens: int)
    ensures Reply(b, tokens).Raised? <==> tokens < 0
    ensures tokens < 0 ==> Charged(b, tokens) == b
  {
  }

  /** Exhaustion is sticky: afterwards nothing is granted or recorded. */
  lemma {:induction false} ExhaustedForGood(b: Budget, requests: seq<int>)
    requires b.exhausted
    ensures Spend(b, requests) == b && Grants(b, requests) == []
    decreases |requests|
  {
    if requests != [] {
      ExhaustedForGood(b, requests[1..]);
    }
  }
}
