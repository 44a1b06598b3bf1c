/** The stratified estimator of a randomized study. */
module Estimate {
  // Block-weighted contrasts of arm means, with an interval clipped to the declared range. The half-widths
  // are arbitrary non-negative functions of range, size and error.

  import opened Reals
  import opened Tables
  import opened StudyRecords
  import Qualification

  /** One included unit: where it was assigned, and the value being compared. */
  datatype Unit = Unit(block: string, arm: string, value: real)

  datatype Interval = Interval(estimate: real, lower: real, upper: real)

  type Radius = (real, nat, real) -> real

  function Mean(s: seq<real>): real
    requires s != []
  {
    Sum(s) / |s| as real
  }

  // ---------------------------------------------------------------- values per block

  function ValuesIn(us: seq<Unit>, block: string, arm: string): seq<real> {
    if us == [] then []
    else
      var u := us[|us| - 1];
      ValuesIn(us[..|us| - 1], block, arm) + if u.block == block && u.arm == arm then [u.value] else []
  }

  function ValuesOfArm(us: seq<Unit>, arm: string): seq<real> {
    if us == [] then []
    else
      var u := us[|us| - 1];
      ValuesOfArm(us[..|us| - 1], arm) + if u.arm == arm then [u.value] else []
  }

  /** The values of one arm, block by block, n units in. */
  ghost predicate SplitUpTo(us: seq<Unit>, n: nat, blocks: seq<string>, arm: string, values: seq<seq<real>>)
    requires n <= |us|
  {
    |values| == |blocks| && forall b :: 0 <= b < |blocks| ==> values[b] == ValuesIn(us[..n], blocks[b], arm)
  }

  lemma SplitStep(us: seq<Unit>, n: nat, blocks: seq<string>, arm: string, values: seq<seq<real>>, index: nat)
    requires n < |us| && Distinct(blocks) && SplitUpTo(us, n, blocks, arm, values)
    requires index < |blocks| && blocks[index] == us[n].block
    ensures |values| == |blocks|
    ensures SplitUpTo(us, n + 1, blocks, arm,
                      if us[n].arm == arm then values[index := values[index] + [us[n].value]] else values)
  {
    assert us[..n + 1][..n] == us[..n];
  }

  /** The loop that files each unit's value under its block and arm. */
  method SplitByBlock(us: seq<Unit>, blocks: seq<string>, treatmentArm: string, controlArm: string)
    returns (treatment: seq<seq<real>>, control: seq<seq<real>>)
    requires Distinct(blocks) && treatmentArm != controlArm
    requires forall i :: 0 <= i < |us| ==> us[i].block in blocks
    ensures |treatment| == |control| == |blocks|
    ensures forall b :: 0 <= b < |blocks| ==> treatment[b] == ValuesIn(us, blocks[b], treatmentArm)
    ensures forall b :: 0 <= b < |blocks| ==> control[b] == ValuesIn(us, blocks[b], controlArm)
  {
    treatment := seq(|blocks|, i => []);
    control := seq(|blocks|, i => []);
    for n := 0 to |us|
      invariant SplitUpTo(us, n, blocks, treatmentArm, treatment)
      invariant SplitUpTo(us, n, blocks, controlArm, control)
    {
      hide SplitUpTo, ValuesIn, Distinct;
      var index :| 0 <= index < |blocks| && blocks[index] == us[n].block;
      SplitStep(us, n, blocks, treatmentArm, treatment, index);
      SplitStep(us, n, blocks, controlArm, control, index);
      if us[n].arm == treatmentArm {
        treatment := treatment[index := treatment[index] + [us[n].value]];
      } else if us[n].arm == controlArm {
        control := control[index := control[index] + [us[n].value]];
      }
    }
    assert us[..|us|] == us;
  }

  // ---------------------------------------------------------------- the estimator

  function Size(groups: seq<seq<real>>): nat {
    if groups == [] then 0 else Size(groups[..|groups| - 1]) + |groups[|groups| - 1]|
  }

  ghost predicate AllFilled(groups: seq<seq<real>>) { forall b :: 0 <= b < |groups| ==> groups[b] != [] }

  function BlockTerm(t: seq<real>, c: seq<real>): real
    requires t != [] && c != []
  {
    (|t| + |c|) as real * (Mean(t) - Mean(c))
  }

  /** Sum over blocks of block size times the difference of the block's arm means. */
  function Contrast(treatment: seq<seq<real>>, control: seq<seq<real>>): real
    requires |treatment| == |control| && AllFilled(treatment) && AllFilled(control)
    decreases |treatment|
  {
    if treatment == [] then 0.0
    else
      var n := |treatment| - 1;
      Contrast(treatment[..n], control[..n]) + BlockTerm(treatment[n], control[n])
  }

  lemma {:induction false} FilledSize(groups: seq<seq<real>>)
    requires AllFilled(groups)
    ensures Size(groups) >= |groups|
    decreases |groups|
  {
    if groups != [] {
      FilledSize(groups[..|groups| - 1]);
    }
  }

  function BoundedDifference(treatment: seq<seq<real>>, control: seq<seq<real>>, bounds: Bounds, alpha: real,
                             radius: Radius): Interval
    requires |treatment| == |control| > 0 && AllFilled(treatment) && AllFilled(control)
  {
    FilledSize(treatment);
    var estimate := Contrast(treatment, control) / (Size(treatment) + Size(control)) as real;
    var width := bounds.high - bounds.low;
    var r := radius(width, Size(treatment), alpha) + radius(width, Size(control), alpha);
    Interval(estimate, Max(-width, estimate - r), Min(width, estimate + r))
  }

  // ---------------------------------------------------------------- balanced blocks

  function Pooled(groups: seq<seq<real>>): seq<real> {
    if groups == [] then [] else Pooled(groups[..|groups| - 1]) + groups[|groups| - 1]
  }

  lemma {:induction false} PooledSize(groups: seq<seq<real>>)
    ensures |Pooled(groups)| == Size(groups)
    decreases |groups|
  {
    if groups != [] {
      PooledSize(groups[..|groups| - 1]);
    }
  }

  ghost predicate Balanced(treatment: seq<seq<real>>, control: seq<seq<real>>) {
    |treatment| == |control| && forall b :: 0 <= b < |treatment| ==> |treatment[b]| == |control[b]| > 0
  }

  lemma BalancedTerm(t: seq<real>, c: seq<real>)
    requires |t| == |c| > 0
    ensures BlockTerm(t, c) == 2.0 * (Sum(t) - Sum(c))
  {
    hide Sum;
    BlockContrast(|t|, Sum(t), Sum(c));
  }

  lemma BlockContrast(n: nat, s: real, r: real)
    requires n > 0
    ensures (n + n) as real * (s / n as real - r / n as real) == 2.0 * (s - r)
  {
    var k := n as real;
    assert (n + n) as real == 2.0 * k;
    assert k * (s / k) == s && k * (r / k) == r;
    assert 2.0 * k * (s / k - r / k) == 2.0 * (k * (s / k)) - 2.0 * (k * (r / k));
  }

  lemma {:induction false} BalancedContrast(treatment: seq<seq<real>>, control: seq<seq<real>>)
    requires Balanced(treatment, control) && AllFilled(treatment) && AllFilled(control)
    ensures Contrast(treatment, control) == 2.0 * (Sum(Pooled(treatment)) - Sum(Pooled(control)))
    ensures Size(treatment) == Size(control)
    decreases |treatment|
  {
    if treatment != [] {
      hide Sum, BlockTerm;
      var n := |treatment| - 1;
      BalancedContrast(treatment[..n], control[..n]);
      BalancedTerm(treatment[n], control[n]);
      SumConcat(Pooled(treatment[..n]), treatment[n]);
      SumConcat(Pooled(control[..n]), control[n]);
    }
  }

  lemma HalveBoth(n: nat, s: real, r: real)
    requires n > 0
    ensures 2.0 * (s - r) / (n + n) as real == s / n as real - r / n as real
  {
    var k := n as real;
    var x := s / k - r / k;
    assert k * (s / k) == s && k * (r / k) == r;
    assert x * (2.0 * k) == 2.0 * (k * (s / k)) - 2.0 * (k * (r / k));
    assert (n + n) as real == 2.0 * k;
  }

  /** Under equal allocation the block-weighted contrast is the plain difference of the two pooled
      means, whatever the block sizes. */
  lemma WeightedIsPooled(treatment: seq<seq<real>>, control: seq<seq<real>>, bounds: Bounds, alpha: real,
                         radius: Radius)
    requires Balanced(treatment, control) && AllFilled(treatment) && AllFilled(control) && treatment != []
    ensures Pooled(treatment) != [] && Pooled(control) != []
    ensures BoundedDifference(treatment, control, bounds, alpha, radius).estimate
         == Mean(Pooled(treatment)) - Mean(Pooled(control))
  {
    hide Contrast, Sum;
    BalancedContrast(treatment, control);
    PooledSize(treatment);
    PooledSize(control);
    FilledSize(treatment);
    HalveBoth(Size(treatment), Sum(Pooled(treatment)), Sum(Pooled(control)));
  }

  // ---------------------------------------------------------------- the interval

  ghost predicate ValuesWithin(s: seq<real>, bounds: Bounds) {
    forall i :: 0 <= i < |s| ==> bounds.low <= s[i] <= bounds.high
  }

  ghost predicate GroupsWithin(groups: seq<seq<real>>, bounds: Bounds) {
    forall b :: 0 <= b < |groups| ==> ValuesWithin(groups[b], bounds)
  }

  lemma {:induction false} SumWithin(s: seq<real>, bounds: Bounds)
    requires ValuesWithin(s, bounds)
    ensures bounds.low * |s| as real <= Sum(s) <= bounds.high * |s| as real
    decreases |s|
  {
    if s != [] {
      var n := |s| - 1;
      SumWithin(s[..n], bounds);
      hide Sum;
      SumWithLast(s);
      OneMoreTerm(bounds.low, n, |s|);
      OneMoreTerm(bounds.high, n, |s|);
      assert |s[..n]| == n && bounds.low <= s[n] <= bounds.high;
    }
  }

  lemma SumWithLast(s: seq<real>)
    requires s != []
    ensures Sum(s) == Sum(s[..|s| - 1]) + s[|s| - 1]
  {
  }

  lemma OneMoreTerm(x: real, n: nat, m: nat)
    requires m == n + 1
    ensures x * m as real == x * n as real + x
  {
  }

  lemma MeanWithin(s: seq<real>, bounds: Bounds)
    requires s != [] && ValuesWithin(s, bounds)
    ensures bounds.low <= Mean(s) <= bounds.high
  {
    hide Sum;
    SumWithin(s, bounds);
    Quotients(Sum(s), |s|, bounds.low, bounds.high);
  }

  lemma Quotients(x: real, n: nat, low: real, high: real)
    requires n > 0 && low * n as real <= x <= high * n as real
    ensures low <= x / n as real <= high
  {
    var k := n as real;
    var q := x / k;
    assert q * k == x;
    assert (q - low) * k >= 0.0 && (high - q) * k >= 0.0;
  }

  lemma Scaled(w: nat, d: real, width: real)
    requires -width <= d <= width
    ensures -(width * w as real) <= w as real * d <= width * w as real
  {
    assert w as real * (width - d) >= 0.0 && w as real * (width + d) >= 0.0;
  }

  /** x is at most n times the width, either way. */
  ghost predicate AtMost(x: real, width: real, n: nat) {
    -(width * n as real) <= x <= width * n as real
  }

  lemma TermWithin(t: seq<real>, c: seq<real>, bounds: Bounds)
    requires t != [] && c != [] && ValuesWithin(t, bounds) && ValuesWithin(c, bounds)
    ensures AtMost(BlockTerm(t, c), bounds.high - bounds.low, |t| + |c|)
  {
    hide Mean;
    MeanWithin(t, bounds);
    MeanWithin(c, bounds);
    Scaled(|t| + |c|, Mean(t) - Mean(c), bounds.high - bounds.low);
  }

  lemma AddWithin(width: real, a: nat, b: nat, c: real, d: real)
    requires AtMost(c, width, a) && AtMost(d, width, b)
    ensures AtMost(c + d, width, a + b)
  {
    Spread(width, a, b);
  }

  lemma {:induction false} ContrastWithin(treatment: seq<seq<real>>, control: seq<seq<real>>, bounds: Bounds)
    requires |treatment| == |control| && AllFilled(treatment) && AllFilled(control)
    requires GroupsWithin(treatment, bounds) && GroupsWithin(control, bounds)
    ensures AtMost(Contrast(treatment, control), bounds.high - bounds.low, Size(treatment) + Size(control))
    decreases |treatment|
  {
    if treatment == [] {
      assert Contrast(treatment, control) == 0.0;
    } else {
      hide BlockTerm, ValuesWithin, AtMost;
      var n := |treatment| - 1;
      ContrastWithin(treatment[..n], control[..n], bounds);
      TermWithin(treatment[n], control[n], bounds);
      AddWithin(bounds.high - bounds.low, Size(treatment[..n]) + Size(control[..n]), |treatment[n]| + |control[n]|,
                Contrast(treatment[..n], control[..n]), BlockTerm(treatment[n], control[n]));
    }
  }

  lemma Spread(x: real, a: nat, b: nat)
    ensures x * (a + b) as real == x * a as real + x * b as real
  {
  }

  /** The reported interval contains the estimate and stays within the declared range. */
  lemma IntervalContainsEstimate(treatment: seq<seq<real>>, control: seq<seq<real>>, bounds: Bounds, alpha: real,
                                 radius: Radius)
    requires |treatment| == |control| && AllFilled(treatment) && AllFilled(control) && treatment != []
    requires GroupsWithin(treatment, bounds) && GroupsWithin(control, bounds)
    requires forall x, n, a :: radius(x, n, a) >= 0.0
    ensures var i, width := BoundedDifference(treatment, control, bounds, alpha, radius), bounds.high - bounds.low;
            -width <= i.lower <= i.estimate <= i.upper <= width
  {
    hide Contrast;
    FilledSize(treatment);
    ContrastWithin(treatment, control, bounds);
    var width, total := bounds.high - bounds.low, Size(treatment) + Size(control);
    Negate(width, total);
    Quotients(Contrast(treatment, control), total, -width, width);
    var r := radius(width, Size(treatment), alpha) + radius(width, Size(control), alpha);
    assert radius(width, Size(treatment), alpha) >= 0.0 && radius(width, Size(control), alpha) >= 0.0;
  }

  lemma Negate(x: real, n: nat)
    ensures (-x) * n as real == -(x * n as real)
  {
  }

  // ---------------------------------------------------------------- from a qualified study

  ghost function InCell(block: string, arm: string, f: Unit -> real): Unit -> real {
    (u: Unit) => if u.block == block && u.arm == arm then f(u) else 0.0
  }

  ghost function OfArm(arm: string, f: Unit -> real): Unit -> real {
    (u: Unit) => if u.arm == arm then f(u) else 0.0
  }

  ghost function ValueOf(): Unit -> real { (u: Unit) => u.value }

  ghost function OneEach(): Unit -> real { (u: Unit) => 1.0 }

  lemma {:induction false} CellValues(us: seq<Unit>, block: string, arm: string)
    ensures Sum(ValuesIn(us, block, arm)) == Total(InCell(block, arm, ValueOf()), us)
    ensures |ValuesIn(us, block, arm)| as real == Total(InCell(block, arm, OneEach()), us)
    decreases |us|
  {
    if us != [] {
      var n := |us| - 1;
      CellValues(us[..n], block, arm);
      SumConcat(ValuesIn(us[..n], block, arm), if us[n].block == block && us[n].arm == arm then [us[n].value] else []);
      SumOne(us[n].value);
    }
  }

  lemma SumOne(x: real)
    ensures Sum([x]) == x && Sum([]) == 0.0
  {
    assert [x][..0] == [];
  }

  lemma {:induction false} ArmValues(us: seq<Unit>, arm: string)
    ensures Sum(ValuesOfArm(us, arm)) == Total(OfArm(arm, ValueOf()), us)
    ensures |ValuesOfArm(us, arm)| as real == Total(OfArm(arm, OneEach()), us)
    decreases |us|
  {
    if us != [] {
      var n := |us| - 1;
      ArmValues(us[..n], arm);
      SumConcat(ValuesOfArm(us[..n], arm), if us[n].arm == arm then [us[n].value] else []);
      SumOne(us[n].value);
    }
  }

  ghost function CellTotal(us: seq<Unit>, arm: string, f: Unit -> real): string -> real {
    (block: string) => Total(InCell(block, arm, f), us)
  }

  /** Summed over the blocks, the cells of an arm are the whole arm: every unit is in one block. */
  lemma {:induction false} CellsCoverArm(us: seq<Unit>, blocks: seq<string>, arm: string, f: Unit -> real)
    requires Distinct(blocks) && forall i :: 0 <= i < |us| ==> us[i].block in blocks
    ensures Total(CellTotal(us, arm, f), blocks) == Total(OfArm(arm, f), us)
    decreases |us|
  {
    if us == [] {
      NothingInCells(arm, f, blocks);
    } else {
      var n := |us| - 1;
      CellsCoverArm(us[..n], blocks, arm, f);
      TotalChanged(CellTotal(us[..n], arm, f), CellTotal(us, arm, f), blocks, us[n].block);
    }
  }

  lemma {:induction false} NothingInCells(arm: string, f: Unit -> real, blocks: seq<string>)
    ensures Total(CellTotal([], arm, f), blocks) == 0.0
    decreases |blocks|
  {
    if blocks != [] {
      NothingInCells(arm, f, blocks[..|blocks| - 1]);
    }
  }

  function Groups(us: seq<Unit>, blocks: seq<string>, arm: string): seq<seq<real>> {
    seq(|blocks|, b requires 0 <= b < |blocks| => ValuesIn(us, blocks[b], arm))
  }

  lemma {:induction false} PooledGroups(us: seq<Unit>, blocks: seq<string>, arm: string)
    ensures Sum(Pooled(Groups(us, blocks, arm))) == Total(CellTotal(us, arm, ValueOf()), blocks)
    ensures |Pooled(Groups(us, blocks, arm))| as real == Total(CellTotal(us, arm, OneEach()), blocks)
    decreases |blocks|
  {
    if blocks != [] {
      hide Sum, ValuesIn;
      var n := |blocks| - 1;
      PooledGroups(us, blocks[..n], arm);
      assert Groups(us, blocks, arm)[..n] == Groups(us, blocks[..n], arm);
      CellValues(us, blocks[n], arm);
      SumConcat(Pooled(Groups(us, blocks[..n], arm)), ValuesIn(us, blocks[n], arm));
    } else {
      SumOne(0.0);
    }
  }

  /** Pooled over blocks, an arm has the size and the mean of the arm as a whole. */
  lemma PooledIsArm(us: seq<Unit>, blocks: seq<string>, arm: string)
    requires Distinct(blocks) && forall i :: 0 <= i < |us| ==> us[i].block in blocks
    ensures |Pooled(Groups(us, blocks, arm))| == |ValuesOfArm(us, arm)|
    ensures Sum(Pooled(Groups(us, blocks, arm))) == Sum(ValuesOfArm(us, arm))
  {
    hide Sum, ValuesOfArm, Pooled, Groups;
    PooledGroups(us, blocks, arm);
    CellsCoverArm(us, blocks, arm, ValueOf());
    CellsCoverArm(us, blocks, arm, OneEach());
    ArmValues(us, arm);
  }

  /** The included decisions in listed order, each with the value observed for it. */
  function UnitsOf(ds: seq<Decision>, value: string -> real): seq<Unit> {
    seq(|ds|, i requires 0 <= i < |ds| => Unit(ds[i].block, ds[i].arm, value(ds[i].decisionId)))
  }

  lemma {:induction false} UnitsInCell(ds: seq<Decision>, value: string -> real, block: string, arm: string)
    ensures |ValuesIn(UnitsOf(ds, value), block, arm)| == InArm(ds, block, arm)
    decreases |ds|
  {
    if ds != [] {
      var n := |ds| - 1;
      UnitsInCell(ds[..n], value, block, arm);
      assert UnitsOf(ds, value)[..n] == UnitsOf(ds[..n], value);
    }
  }

  ghost function Hit(block: string, arm: string): Decision -> real {
    (d: Decision) => if d.block == block && d.arm == arm then 1.0 else 0.0
  }

  lemma {:induction false} InArmIsTotal(ds: seq<Decision>, block: string, arm: string)
    ensures InArm(ds, block, arm) as real == Total(Hit(block, arm), ds)
    decreases |ds|
  {
    if ds != [] {
      InArmIsTotal(ds[..|ds| - 1], block, arm);
    }
  }

  lemma {:induction false} InArmOfBlock(ds: seq<Decision>, block: string, arm: string)
    ensures InArm(InBlock(ds, block), block, arm) == InArm(ds, block, arm)
    decreases |ds|
  {
    if ds != [] {
      var n := |ds| - 1;
      InArmOfBlock(ds[..n], block, arm);
      if ds[n].block == block {
        InArmPush(InBlock(ds[..n], block), ds[n], block, arm);
      } else {
        assert InBlock(ds, block) == InBlock(ds[..n], block);
      }
    }
  }

  /** In a qualified study every block has half of its units in each arm. */
  lemma CellsAreHalves(h: EventDigests, s: Qualification.Study, order: seq<Decision>, value: string -> real,
                       d: Decision, i: nat)
    requires Qualification.Qualifies(h, s) && multiset(order) == multiset(s.decisions) && d in s.decisions && i < 2
    ensures |ValuesIn(UnitsOf(order, value), d.block, s.protocol.arms[i].armId)| == s.protocol.blockSize / 2 > 0
  {
    var n :| 0 <= n < |s.decisions| && s.decisions[n] == d;
    assert FullBlock(s.protocol, InBlock(s.decisions, s.decisions[n].block), s.decisions[n].block);
    hide Qualification.Qualifies, InArm, InBlock, ValuesIn;
    var arm := s.protocol.arms[i].armId;
    UnitsInCell(order, value, d.block, arm);
    InArmIsTotal(order, d.block, arm);
    InArmIsTotal(s.decisions, d.block, arm);
    TotalPermuted(Hit(d.block, arm), order, s.decisions);
    InArmOfBlock(s.decisions, d.block, arm);
  }

  ghost predicate BlockNames(ds: seq<Decision>, blocks: seq<string>) {
    && Distinct(blocks)
    && (forall i :: 0 <= i < |ds| ==> ds[i].block in blocks)
    && forall b :: 0 <= b < |blocks| ==> exists i :: 0 <= i < |ds| && ds[i].block == blocks[b]
  }

  lemma BlockIsBalanced(h: EventDigests, s: Qualification.Study, order: seq<Decision>, value: string -> real,
                        blocks: seq<string>, b: nat)
    requires Qualification.Qualifies(h, s) && multiset(order) == multiset(s.decisions)
             && BlockNames(s.decisions, blocks)
    requires b < |blocks|
    ensures |s.protocol.arms| == 2
    ensures |ValuesIn(UnitsOf(order, value), blocks[b], s.protocol.arms[0].armId)|
         == |ValuesIn(UnitsOf(order, value), blocks[b], s.protocol.arms[1].armId)| > 0
  {
    ArmsAreTwo(h, s);
    hide Qualification.Qualifies, ValuesIn, Distinct, UnitsOf;
    var i :| 0 <= i < |s.decisions| && s.decisions[i].block == blocks[b];
    CellsAreHalves(h, s, order, value, s.decisions[i], 0);
    CellsAreHalves(h, s, order, value, s.decisions[i], 1);
  }

  lemma QualifiedIsBalanced(h: EventDigests, s: Qualification.Study, order: seq<Decision>, value: string -> real,
                            blocks: seq<string>)
    requires Qualification.Qualifies(h, s) && multiset(order) == multiset(s.decisions)
             && BlockNames(s.decisions, blocks)
    ensures |s.protocol.arms| == 2 && blocks != []
    ensures Balanced(Groups(UnitsOf(order, value), blocks, s.protocol.arms[0].armId),
                     Groups(UnitsOf(order, value), blocks, s.protocol.arms[1].armId))
  {
    hide *;
    ArmsAreTwo(h, s);
    SomeBlock(h, s, blocks);
    var us, x, y := UnitsOf(order, value), s.protocol.arms[0].armId, s.protocol.arms[1].armId;
    forall b | 0 <= b < |blocks| ensures |ValuesIn(us, blocks[b], x)| == |ValuesIn(us, blocks[b], y)| > 0 {
      BlockIsBalanced(h, s, order, value, blocks, b);
    }
    GroupsAreBalanced(us, blocks, x, y);
  }

  lemma GroupsAreBalanced(us: seq<Unit>, blocks: seq<string>, x: string, y: string)
    requires forall b :: 0 <= b < |blocks| ==> |ValuesIn(us, blocks[b], x)| == |ValuesIn(us, blocks[b], y)| > 0
    ensures Balanced(Groups(us, blocks, x), Groups(us, blocks, y))
  {
    hide ValuesIn;
  }

  lemma SomeBlock(h: EventDigests, s: Qualification.Study, blocks: seq<string>)
    requires Qualification.Qualifies(h, s) && BlockNames(s.decisions, blocks)
    ensures blocks != []
  {
    assert s.decisions[0].block in blocks;
  }

  lemma BalancedIsFilled(t: seq<seq<real>>, c: seq<seq<real>>)
    requires Balanced(t, c)
    ensures AllFilled(t) && AllFilled(c) && Balanced(c, t)
  {
  }

  /** With balanced blocks, the estimate is the difference of the two arms' plain means. */
  lemma EstimateIsDifferenceOfMeans(us: seq<Unit>, blocks: seq<string>, t: string, c: string, bounds: Bounds,
                                    alpha: real, radius: Radius)
    requires Balanced(Groups(us, blocks, t), Groups(us, blocks, c))
    requires AllFilled(Groups(us, blocks, t)) && AllFilled(Groups(us, blocks, c))
    requires blocks != [] && Distinct(blocks) && forall i :: 0 <= i < |us| ==> us[i].block in blocks
    ensures ValuesOfArm(us, t) != [] && ValuesOfArm(us, c) != []
    ensures BoundedDifference(Groups(us, blocks, t), Groups(us, blocks, c), bounds, alpha, radius).estimate
         == Mean(ValuesOfArm(us, t)) - Mean(ValuesOfArm(us, c))
  {
    hide Balanced, Contrast, Sum, ValuesOfArm, Pooled, BoundedDifference, AllFilled, ValuesIn, Distinct;
    PooledIsArm(us, blocks, t);
    PooledIsArm(us, blocks, c);
    WeightedIsPooled(Groups(us, blocks, t), Groups(us, blocks, c), bounds, alpha, radius);
  }

  /** On every qualified study, whichever arm is the treatment, the blocks are balanced and so the
      reported estimate is the difference of the two arms' plain means. */
  lemma QualifiedEstimateIsDifferenceOfMeans(h: EventDigests, 
    s: Qualification.Study, order: seq<Decision>, value: string -> real, blocks: seq<string>, t: string, c: string,
    bounds: Bounds, alpha: real, radius: Radius)
    requires Qualification.Qualifies(h, s) && multiset(order) == multiset(s.decisions)
             && BlockNames(s.decisions, blocks)
    requires IsArm(s.protocol, t) && IsArm(s.protocol, c) && t != c
    ensures var us := UnitsOf(order, value);
            && |Groups(us, blocks, t)| == |Groups(us, blocks, c)| > 0
            && AllFilled(Groups(us, blocks, t)) && AllFilled(Groups(us, blocks, c))
            && ValuesOfArm(us, t) != [] && ValuesOfArm(us, c) != []
            && BoundedDifference(Groups(us, blocks, t), Groups(us, blocks, c), bounds, alpha, radius).estimate
               == Mean(ValuesOfArm(us, t)) - Mean(ValuesOfArm(us, c))
  {
    var us := UnitsOf(order, value);
    QualifiedIsBalanced(h, s, order, value, blocks);
    UnitBlocks(s, order, value, blocks);
    hide *;
    EitherOrder(s.protocol, t, c);
    var a, b := s.protocol.arms[0].armId, s.protocol.arms[1].armId;
    BalancedIsFilled(Groups(us, blocks, a), Groups(us, blocks, b));
    GroupsNonEmpty(us, blocks, t);
    GroupsNonEmpty(us, blocks, c);
    EstimateIsDifferenceOfMeans(us, blocks, t, c, bounds, alpha, radius);
  }

  lemma EitherOrder(p: Protocol, t: string, c: string)
    requires |p.arms| == 2 && IsArm(p, t) && IsArm(p, c) && t != c
    ensures (t == p.arms[0].armId && c == p.arms[1].armId) || (t == p.arms[1].armId && c == p.arms[0].armId)
  {
  }

  lemma GroupsNonEmpty(us: seq<Unit>, blocks: seq<string>, arm: string)
    requires blocks != []
    ensures |Groups(us, blocks, arm)| == |blocks| > 0
  {
  }

  lemma ArmsAreTwo(h: EventDigests, s: Qualification.Study)
    requires Qualification.Qualifies(h, s)
    ensures |s.protocol.arms| == 2
  {
  }

  lemma UnitBlocks(s: Qualification.Study, order: seq<Decision>, value: string -> real, blocks: seq<string>)
    requires multiset(order) == multiset(s.decisions) && BlockNames(s.decisions, blocks)
    ensures Distinct(blocks)
    ensures forall i :: 0 <= i < |UnitsOf(order, value)| ==> UnitsOf(order, value)[i].block in blocks
  {
    SameMembers(order, s.decisions);
    forall i | 0 <= i < |order| ensures order[i].block in blocks {
      assert order[i] in s.decisions;
    }
  }
}
