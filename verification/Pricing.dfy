/** Server-side prices: USD is authoritative and VND is always derived from it. */
module Pricing {
  import opened Prelude

  const USD_TO_VND := 25200

  datatype StrapOption = StrapOption(name: string, priceDeltaUsd: nat)

  const STRAP_OPTIONS := [
    StrapOption("Dây da cá sấu đen", 0),
    StrapOption("Dây da cá sấu nâu Cognac", 0),
    StrapOption("Dây kim loại tích hợp", 4500),
    StrapOption("Dây cao su kỹ thuật cao cấp", 1200)
  ]

  datatype LinePrice = LinePrice(priceUsd: nat, priceVnd: nat)

  function AtLeastZero(x: int): nat {
    if x < 0 then 0 else x
  }

  /** The surcharge of the first strap with this label; unknown labels cost nothing. */
  function StrapDelta(options: seq<StrapOption>, strap: Option<string>): nat {
    if options == [] then 0
    else if strap == Some(options[0].name) then options[0].priceDeltaUsd
    else StrapDelta(options[1..], strap)
  }

  function PriceOf(usd: real, strap: Option<string>): LinePrice {
    var priceUsd := AtLeastZero(usd.Floor) + StrapDelta(STRAP_OPTIONS, strap);
    LinePrice(priceUsd, priceUsd * USD_TO_VND)
  }

  /** What each strap adds to the price of a watch, in dollars. */
  function Surcharge(strap: Option<string>): nat {
    if strap == Some("Dây kim loại tích hợp") then 4500
    else if strap == Some("Dây cao su kỹ thuật cao cấp") then 1200
    else 0
  }

  /** The option table charges exactly that. */
  lemma StrapDeltaIs(strap: Option<string>)
    ensures StrapDelta(STRAP_OPTIONS, strap) == Surcharge(strap)
  {
    var two, three, four := STRAP_OPTIONS[1..], STRAP_OPTIONS[2..], STRAP_OPTIONS[3..];
    assert two[1..] == three && three[1..] == four && four[1..] == [];
    var metal, rubber := "Dây kim loại tích hợp", "Dây cao su kỹ thuật cao cấp";
    assert metal[4] == 'k' && rubber[4] == 'c';
    assert STRAP_OPTIONS[0].name[4] == 'd' && STRAP_OPTIONS[1].name[4] == 'd';
    assert StrapDelta(four, strap) == if strap == Some(rubber) then 1200 else 0;
    assert StrapDelta(three, strap) == if strap == Some(metal) then 4500 else StrapDelta(four, strap);
    assert StrapDelta(two, strap) == if strap == Some(STRAP_OPTIONS[1].name) then 0 else StrapDelta(three, strap);
  }

  /** Rounds a fifth to the nearest integer, halves upwards. */
  function RoundFifth(total: nat): nat {
    (2 * total + 5) / 10
  }

  /** What is collected when an order is placed, in both currencies. */
  datatype Collected = Collected(usd: nat, vnd: nat)

  function CollectedNow(simulated: bool, deposit: bool, totalUsd: nat, totalVnd: nat): Collected {
    if !simulated then Collected(0, 0)
    else if deposit then Collected(RoundFifth(totalUsd), RoundFifth(totalVnd))
    else Collected(totalUsd, totalVnd)
  }

  /** RoundFifth really is the nearest integer to a fifth, ties going up. */
  lemma RoundFifthIsNearest(total: nat)
    ensures -5 < 2 * (total - 5 * RoundFifth(total)) <= 5
  {
  }

  /** The 20% deposit: both parts are non-negative, they sum to the total, the VND part is exact,
      and it is at most 10080 VND away from converting the rounded USD part. */
  lemma DepositSplits(totalUsd: nat)
    ensures var paid := CollectedNow(true, true, totalUsd, USD_TO_VND * totalUsd);
      && paid.usd <= totalUsd && paid.vnd <= USD_TO_VND * totalUsd
      && paid.vnd == 5040 * totalUsd
      && -10080 <= paid.vnd - USD_TO_VND * paid.usd <= 10080
  {
    RoundFifthIsNearest(totalUsd);
    RoundFifthIsNearest(USD_TO_VND * totalUsd);
  }
}
