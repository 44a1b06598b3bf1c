/** Splitting an exact amount by whole-number weights: every share is exact, or the split is refused. */
module Shares {
  import opened Money
  import opened Rate
  import opened Tables

  datatype Weight = Weight(centre: string, weight: nat)

  function Denominator(ws: seq<Weight>): nat {
    if ws == [] then 0 else Denominator(ws[..|ws| - 1]) + ws[|ws| - 1].weight
  }

  /** weight/den of the total; nothing for a weight that is not positive. */
  function Part(total: Decimal, weight: nat, den: nat): Decimal {
    if weight == 0 || den == 0 then ZERO
    else
      match ShareOf(total, weight, den)
      case Some(x) => x
      case None => ZERO
  }

  /** Some share has no finite decimal form. */
  predicate Refuses(total: Decimal, ws: seq<Weight>, den: nat) {
    den > 0 && exists i :: 0 <= i < |ws| && ws[i].weight > 0 && ShareOf(total, ws[i].weight, den) == None
  }

  ghost function PartOf(total: Decimal, den: nat): Weight -> real {
    (w: Weight) => Value(Part(total, w.weight, den))
  }

  lemma PartMeans(total: Decimal, w: nat, den: nat)
    requires den > 0 && (w > 0 ==> ShareOf(total, w, den) != None)
    ensures Value(Part(total, w, den)) * den as real == Value(total) * w as real
    ensures Canonical(Part(total, w, den))
  {
    hide ShareOf, Value;
    ZeroIsWorthNothing();
  }

  lemma AddShare(sum: real, part: real, value: real, den: real, before: real, w: real)
    requires sum * den == value * before && part * den == value * w
    ensures (sum + part) * den == value * (before + w)
  {
  }

  lemma NoShareRefused(total: Decimal, ws: seq<Weight>, den: nat)
    requires ws != [] && den > 0 && !Refuses(total, ws, den)
    ensures !Refuses(total, ws[..|ws| - 1], den)
    ensures ws[|ws| - 1].weight > 0 ==> ShareOf(total, ws[|ws| - 1].weight, den) != None
  {
    hide ShareOf;
  }

  lemma {:induction false} PartsAddUp(total: Decimal, ws: seq<Weight>, den: nat)
    requires den > 0 && !Refuses(total, ws, den)
    ensures Total(PartOf(total, den), ws) * den as real == Value(total) * Denominator(ws) as real
    decreases |ws|
  {
    hide Part, Value, ShareOf, Refuses;
    if ws != [] {
      var n := |ws| - 1;
      var w := ws[n].weight;
      NoShareRefused(total, ws, den);
      PartsAddUp(total, ws[..n], den);
      PartMeans(total, w, den);
      AddShare(Total(PartOf(total, den), ws[..n]), Value(Part(total, w, den)), Value(total), den as real,
               Denominator(ws[..n]) as real, w as real);
    }
  }

  /** A split that is not refused loses nothing and invents nothing. */
  lemma PartsConserve(total: Decimal, ws: seq<Weight>)
    requires Denominator(ws) > 0 && !Refuses(total, ws, Denominator(ws))
    ensures Total(PartOf(total, Denominator(ws)), ws) == Value(total)
  {
    hide Value, Refuses, PartOf, Total;
    var den := Denominator(ws);
    PartsAddUp(total, ws, den);
    Cancel(Total(PartOf(total, den), ws), Value(total), den, Denominator(ws));
  }

  lemma Cancel(a: real, b: real, den: nat, same: nat)
    requires den == same && den != 0 && a * den as real == b * same as real
    ensures a == b
  {
    assert (a - b) * den as real == 0.0;
  }

  ghost predicate CentresDistinct(ws: seq<Weight>) {
    forall i, j :: 0 <= i < j < |ws| ==> ws[i].centre != ws[j].centre
  }

  /** The shares of the positive weights, or None where the source throws. */
  method SplitByWeights(total: Decimal, ws: seq<Weight>) returns (r: Option<map<string, Decimal>>)
    requires CentresDistinct(ws)
    ensures r == None <==> Refuses(total, ws, Denominator(ws))
    ensures r.Some? ==> forall i :: 0 <= i < |ws| ==>
              && (ws[i].centre in r.value <==> ws[i].weight > 0)
              && (ws[i].centre in r.value ==> r.value[ws[i].centre] == Part(total, ws[i].weight, Denominator(ws)))
  {
    var denominator := 0;
    for n := 0 to |ws|
      invariant denominator == Denominator(ws[..n])
      invariant forall i :: 0 <= i < n ==> ws[i].weight <= denominator
    {
      assert ws[..n + 1][..n] == ws[..n];
      denominator := denominator + ws[n].weight;
    }
    assert ws[..|ws|] == ws;
    if denominator == 0 {
      return Some(map[]);
    }
    var result: map<string, Decimal> := map[];
    for n := 0 to |ws|
      invariant !Refuses(total, ws[..n], denominator)
      invariant forall i :: 0 <= i < n ==>
        && (ws[i].centre in result <==> ws[i].weight > 0)
        && (ws[i].centre in result ==> result[ws[i].centre] == Part(total, ws[i].weight, denominator))
      invariant forall i :: n <= i < |ws| ==> ws[i].centre !in result
    {
      hide Denominator, Refuses;
      RefusesPush(total, ws, n, denominator);
      if ws[n].weight > 0 {
        var share := ShareOf(total, ws[n].weight, denominator);
        if share == None {
          return None;
        }
        result := result[ws[n].centre := share.value];
      }
    }
    r := Some(result);
  }

  lemma RefusesPush(total: Decimal, ws: seq<Weight>, n: nat, den: nat)
    requires den > 0 && n < |ws|
    ensures Refuses(total, ws[..n + 1], den)
       <==> Refuses(total, ws[..n], den) || (ws[n].weight > 0 && ShareOf(total, ws[n].weight, den) == None)
    ensures Refuses(total, ws[..n + 1], den) ==> Refuses(total, ws, den)
  {
    hide ShareOf;
    assert forall i :: 0 <= i < n ==> ws[..n + 1][i] == ws[i] == ws[..n][i];
    assert ws[..n + 1][n] == ws[n];
  }
}
