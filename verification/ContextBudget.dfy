/**
 * How much text may be added to one model call: the plan's limits, the floored
 * shares of its parts, and the carry of unused and overspent bytes from part to
 * part. Shares and token counts are real numbers; allowances are whole bytes.
 */
module ContextBudget {
  import opened Wrappers

  datatype Part = Run | Skills | Memory | Environment

  const PARTS := [Run, Skills, Memory, Environment]

  datatype Options = Options(perCall: real, compaction: real, normal: real, ofAvailable: real,
                             run: real, skills: real, memory: real, environment: real,
                             bytesPerToken: real, floorBytes: nat)

  predicate Unit(x: real) { 0.0 <= x <= 1.0 }

  predicate ValidOptions(o: Options) {
    && 0.005 <= o.perCall <= 0.5 && 0.005 <= o.compaction <= 0.5 && 0.0 <= o.normal <= 0.5 && 0.05 <= o.ofAvailable <= 1.0
    && Unit(o.run) && Unit(o.skills) && Unit(o.memory) && Unit(o.environment)
    && 1.0 <= o.bytesPerToken <= 8.0 && 256 <= o.floorBytes <= 65536
  }

  datatype Window = Window(context: Option<real>, output: Option<real>, usedTokens: Option<real>)

  datatype Kind = Call | Compaction

  // ---------------------------------------------------------------- limits

  predicate Positive(x: Option<real>) { x.Some? && x.value > 0.0 }

  /** Products are named so that proofs about them can leave multiplication alone. */
  function Times(a: real, b: real): real { a * b }

  function Max(a: real, b: real): real { if a >= b then a else b }

  function MaxInt(a: int, b: int): int { if a >= b then a else b }

  function MinInt(a: int, b: int): int { if a <= b then a else b }

  function Used(w: Window): Option<real> {
    if w.usedTokens.Some? && w.usedTokens.value >= 0.0 then w.usedTokens else None
  }

  function ShareOfWindow(o: Options, kind: Kind): real { if kind.Compaction? then o.compaction else o.perCall }

  function Reply(w: Window): real
    requires Positive(w.context)
  {
    if Positive(w.output) then (if w.output.value <= w.context.value / 2.0 then w.output.value else w.context.value / 2.0) else 0.0
  }

  function Tokens(o: Options, w: Window, kind: Kind): real
    requires Positive(w.context)
  {
    var byShare := Times(w.context.value, ShareOfWindow(o, kind));
    if Used(w).None? then byShare
    else
      var fromAvailable := Times(Max(0.0, w.context.value - Reply(w) - Used(w).value), o.ofAvailable);
      if fromAvailable < byShare then fromAvailable else byShare
  }

  function OrdinaryBytes(o: Options, w: Window, kind: Kind): int
    requires Positive(w.context)
  {
    Times(Tokens(o, w, kind), o.bytesPerToken).Floor
  }

  /** The bytes the configured share of the window comes to. */
  function ConfiguredBytes(o: Options, w: Window, kind: Kind): int
    requires Positive(w.context)
  {
    Times(Times(w.context.value, ShareOfWindow(o, kind)), o.bytesPerToken).Floor
  }

  /** The bytes that still fit into the window; none are known to fit when its use is unknown. */
  function PhysicalBytes(o: Options, w: Window): int
    requires Positive(w.context)
  {
    Times(Max(0.0, w.context.value - (if Used(w).Some? then Used(w).value else w.context.value)), o.bytesPerToken).Floor
  }

  function RecoveryBytes(o: Options, w: Window, kind: Kind): int
    requires Positive(w.context)
  {
    MinInt(o.floorBytes, MinInt(PhysicalBytes(o, w), ConfiguredBytes(o, w, kind)))
  }

  function TotalBytes(o: Options, w: Window, kind: Kind): int
    requires Positive(w.context)
  {
    MaxInt(OrdinaryBytes(o, w, kind), RecoveryBytes(o, w, kind))
  }

  function NormalBytes(o: Options, w: Window, kind: Kind, active: seq<Part>): int
    requires Positive(w.context)
  {
    if Memory in active then MinInt(OrdinaryBytes(o, w, kind), Times(Times(w.context.value, o.normal), o.bytesPerToken).Floor)
    else OrdinaryBytes(o, w, kind)
  }

  lemma Scaled(a: real, b: real, c: real)
    requires a <= b && c >= 0.0
    ensures Times(a, c) <= Times(b, c) && Times(a, c).Floor <= Times(b, c).Floor && Times(0.0, c) == 0.0
  {
    assert (b - a) * c >= 0.0;
    assert b * c == a * c + (b - a) * c;
  }

  lemma FractionOf(x: real, f: real)
    requires x >= 0.0 && 0.0 <= f <= 1.0
    ensures 0.0 <= Times(x, f) <= x
  {
  }

  /** The token allowance is within the configured share and, when the use is known, within what is free. */
  lemma TokensBounds(o: Options, w: Window, kind: Kind)
    requires ValidOptions(o) && Positive(w.context)
    ensures 0.0 <= Tokens(o, w, kind) <= Times(w.context.value, ShareOfWindow(o, kind))
    ensures Used(w).Some? ==> Tokens(o, w, kind) <= Max(0.0, w.context.value - Used(w).value)
  {
    hide Times;
    FractionOf(w.context.value, ShareOfWindow(o, kind));
    if Used(w).Some? {
      var free, afterReply := Max(0.0, w.context.value - Used(w).value), Max(0.0, w.context.value - Reply(w) - Used(w).value);
      assert 0.0 <= afterReply <= free;
      FractionOf(afterReply, o.ofAvailable);
      assert Tokens(o, w, kind) <= Times(afterReply, o.ofAvailable);
    }
  }

  lemma OrdinaryBounds(o: Options, w: Window, kind: Kind)
    requires ValidOptions(o) && Positive(w.context)
    ensures 0 <= OrdinaryBytes(o, w, kind) <= ConfiguredBytes(o, w, kind)
    ensures Used(w).Some? ==> OrdinaryBytes(o, w, kind) <= PhysicalBytes(o, w)
  {
    var b := o.bytesPerToken;
    assert b >= 1.0;
    hide ValidOptions, Tokens, ShareOfWindow, Times;
    TokensBounds(o, w, kind);
    var byShare := Times(w.context.value, ShareOfWindow(o, kind));
    Scaled(0.0, Tokens(o, w, kind), b);
    Scaled(Tokens(o, w, kind), byShare, b);
    if Used(w).Some? {
      Scaled(Tokens(o, w, kind), Max(0.0, w.context.value - Used(w).value), b);
    }
  }

  lemma PhysicalBounds(o: Options, w: Window)
    requires ValidOptions(o) && Positive(w.context)
    ensures 0 <= PhysicalBytes(o, w)
    ensures Used(w).None? || Used(w).value >= w.context.value ==> PhysicalBytes(o, w) == 0
  {
  }

  lemma NormalBounds(o: Options, w: Window, kind: Kind, active: seq<Part>)
    requires ValidOptions(o) && Positive(w.context)
    ensures 0 <= NormalBytes(o, w, kind, active) <= OrdinaryBytes(o, w, kind)
  {
    hide Times;
    OrdinaryBounds(o, w, kind);
    FractionOf(w.context.value, o.normal);
    Scaled(0.0, Times(w.context.value, o.normal), o.bytesPerToken);
  }

  /** The ofAvailable share of what is free beside the reply, in bytes. */
  function AvailableBytes(o: Options, w: Window): int
    requires Positive(w.context) && Used(w).Some?
  {
    Times(Times(Max(0.0, w.context.value - Reply(w) - Used(w).value), o.ofAvailable), o.bytesPerToken).Floor
  }

  /** The ordinary allowance is the lesser of the two limits, and the configured one when the window's use is unknown. */
  lemma OrdinaryIsTheLesser(o: Options, w: Window, kind: Kind)
    requires ValidOptions(o) && Positive(w.context)
    ensures OrdinaryBytes(o, w, kind) == if Used(w).Some? then MinInt(ConfiguredBytes(o, w, kind), AvailableBytes(o, w)) else ConfiguredBytes(o, w, kind)
  {
    hide Times;
    if Used(w).Some? {
      var byShare, byRoom := Times(w.context.value, ShareOfWindow(o, kind)), Times(Max(0.0, w.context.value - Reply(w) - Used(w).value), o.ofAvailable);
      if byShare <= byRoom {
        Scaled(byShare, byRoom, o.bytesPerToken);
      } else {
        Scaled(byRoom, byShare, o.bytesPerToken);
      }
    }
  }

  /**
   * The ceiling stays within the configured share and, when the window's use is
   * known, within what is physically free; a full window allows nothing, the
   * recovery floor is granted wherever it fits, and the normal target never
   * exceeds the ceiling.
   */
  lemma TotalWithinWindow(o: Options, w: Window, kind: Kind, active: seq<Part>)
    requires ValidOptions(o) && Positive(w.context)
    ensures 0 <= NormalBytes(o, w, kind, active) <= TotalBytes(o, w, kind) <= ConfiguredBytes(o, w, kind)
    ensures Used(w).Some? ==> TotalBytes(o, w, kind) <= PhysicalBytes(o, w)
    ensures Used(w).Some? && Used(w).value >= w.context.value ==> TotalBytes(o, w, kind) == 0
    ensures o.floorBytes <= PhysicalBytes(o, w) && o.floorBytes <= ConfiguredBytes(o, w, kind) ==> TotalBytes(o, w, kind) >= o.floorBytes
  {
    hide ValidOptions, OrdinaryBytes, NormalBytes, PhysicalBytes, ConfiguredBytes;
    OrdinaryBounds(o, w, kind);
    PhysicalBounds(o, w);
    NormalBounds(o, w, kind, active);
  }

  lemma WholeBytes(n: nat, x: real)
    ensures n <= x.Floor <==> n as real <= x
  {
  }

  /** The reply reserves what the model may write, but never more than half of the window. */
  lemma ReplyReserve(w: Window)
    requires Positive(w.context)
    ensures Reply(w) <= w.context.value / 2.0
    ensures w.output.Some? && 0.0 < w.output.value <= w.context.value / 2.0 ==> Reply(w) == w.output.value
    ensures w.output.Some? && w.output.value > w.context.value / 2.0 ==> Reply(w) == w.context.value / 2.0
    ensures w.output.None? || w.output.value <= 0.0 ==> Reply(w) == 0.0
  {
  }

  /**
   * Some bytes are within the ordinary allowance when they fit the share of their kind and, where the use
   * of the window is known, the permitted part of what is free beside the reply. They are within the
   * ceiling when they fit the share and that part or, up to the recovery floor, all that is free. With
   * memory in use the normal target has a share of its own.
   */
  lemma WhatFits(o: Options, w: Window, kind: Kind, active: seq<Part>, n: nat)
    requires ValidOptions(o) && Positive(w.context) && n > 0
    ensures var c, b, x := w.context.value, o.bytesPerToken, n as real;
            var known := w.usedTokens.Some? && w.usedTokens.value >= 0.0;
            var inShare := x <= Times(Times(c, if kind.Call? then o.perCall else o.compaction), b);
            var inPart := known ==> x <= Times(Times(Max(0.0, c - Reply(w) - w.usedTokens.value), o.ofAvailable), b);
            var inWindow := known && x <= Times(Max(0.0, c - w.usedTokens.value), b);
            && (n <= OrdinaryBytes(o, w, kind) <==> inShare && inPart)
            && (n <= TotalBytes(o, w, kind) <==> inShare && (inPart || (n <= o.floorBytes && inWindow)))
            && (n <= NormalBytes(o, w, kind, active) <==> inShare && inPart && (Memory in active ==> x <= Times(Times(c, o.normal), b)))
  {
    hide Times, ValidOptions, OrdinaryBytes, Reply;
    var c, b := w.context.value, o.bytesPerToken;
    OrdinaryIsTheLesser(o, w, kind);
    WholeBytes(n, Times(Times(c, ShareOfWindow(o, kind)), b));
    WholeBytes(n, Times(Times(c, o.normal), b));
    if Used(w).Some? {
      WholeBytes(n, Times(Times(Max(0.0, c - Reply(w) - w.usedTokens.value), o.ofAvailable), b));
      WholeBytes(n, Times(Max(0.0, c - w.usedTokens.value), b));
    } else {
      NothingKnown(o, w);
    }
  }

  lemma NothingKnown(o: Options, w: Window)
    requires Positive(w.context) && Used(w).None?
    ensures PhysicalBytes(o, w) == 0
  {
  }

  // ---------------------------------------------------------------- shares

  function Weight(o: Options, p: Part): real {
    match p
    case Run => o.run
    case Skills => o.skills
    case Memory => o.memory
    case Environment => o.environment
  }

  function Weights(o: Options, active: seq<Part>): real {
    if active == [] then 0.0 else Weights(o, active[..|active| - 1]) + Weight(o, active[|active| - 1])
  }

  function Fraction(o: Options, active: seq<Part>, p: Part): real
    requires active != []
  {
    if Weights(o, active) > 0.0 then Weight(o, p) / Weights(o, active) else 1.0 / |active| as real
  }

  function BaseShare(o: Options, active: seq<Part>, normal: int, p: Part): int
    requires active != []
  {
    Times(normal as real, Fraction(o, active, p)).Floor
  }

  type Bytes = map<Part, int>

  function Get(m: Bytes, p: Part): int { if p in m then m[p] else 0 }

  function SumOver(parts: seq<Part>, m: Bytes): int {
    if parts == [] then 0 else SumOver(parts[..|parts| - 1], m) + Get(m, parts[|parts| - 1])
  }

  function Fractions(o: Options, active: seq<Part>, k: nat): real
    requires active != [] && k <= |active|
  {
    if k == 0 then 0.0 else Fractions(o, active, k - 1) + Fraction(o, active, active[k - 1])
  }

  lemma {:induction false} WeightedFractions(o: Options, active: seq<Part>, k: nat)
    requires active != [] && k <= |active| && Weights(o, active) > 0.0
    ensures Times(Fractions(o, active, k), Weights(o, active)) == Weights(o, active[..k])
  {
    hide Times;
    if k == 0 {
      Scaled(0.0, 0.0, Weights(o, active));
    } else {
      WeightedFractions(o, active, k - 1);
      assert active[..k][..k - 1] == active[..k - 1] && active[..k][k - 1] == active[k - 1];
      assert Weights(o, active[..k]) == Weights(o, active[..k - 1]) + Weight(o, active[k - 1]);
      AddFraction(Fractions(o, active, k - 1), Weight(o, active[k - 1]), Weights(o, active));
    }
  }

  lemma AddFraction(a: real, b: real, c: real)
    requires c > 0.0
    ensures Times(a + b / c, c) == Times(a, c) + b
  {
  }

  lemma {:induction false} EqualFractions(o: Options, active: seq<Part>, k: nat)
    requires active != [] && k <= |active| && Weights(o, active) <= 0.0
    ensures Times(Fractions(o, active, k), |active| as real) == k as real
  {
    hide Times;
    if k == 0 {
      Scaled(0.0, 0.0, |active| as real);
    } else {
      EqualFractions(o, active, k - 1);
      AddFraction(Fractions(o, active, k - 1), 1.0, |active| as real);
    }
  }

  /** The fractions of the parts in use add up to one, whatever their weights. */
  lemma FractionsAddUp(o: Options, active: seq<Part>)
    requires ValidOptions(o) && active != []
    ensures Fractions(o, active, |active|) == 1.0
  {
    assert active[..|active|] == active;
    if Weights(o, active) > 0.0 {
      WeightedFractions(o, active, |active|);
      Cancel(Fractions(o, active, |active|), Weights(o, active));
    } else {
      EqualFractions(o, active, |active|);
      Cancel(Fractions(o, active, |active|), |active| as real);
    }
  }

  lemma Cancel(a: real, c: real)
    requires c > 0.0 && Times(a, c) == c
    ensures a == 1.0
  {
  }

  lemma Zero(a: real)
    ensures Times(a, 0.0) == 0.0 && Times(a, 1.0) == a
  {
  }

  lemma Distributes(a: real, b: real, c: real)
    ensures Times(a, b + c) == Times(a, b) + Times(a, c)
  {
  }

  lemma {:induction false} FlooredSharesWithin(o: Options, active: seq<Part>, normal: int, base: Bytes, k: nat)
    requires active != [] && k <= |active|
    requires forall p | p in active :: p in base && base[p] == BaseShare(o, active, normal, p)
    ensures SumOver(active[..k], base) as real <= Times(normal as real, Fractions(o, active, k))
  {
    hide Times, Fraction;
    if k == 0 {
      Zero(normal as real);
    } else {
      FlooredSharesWithin(o, active, normal, base, k - 1);
      Distributes(normal as real, Fractions(o, active, k - 1), Fraction(o, active, active[k - 1]));
      assert active[..k][..k - 1] == active[..k - 1] && active[..k][k - 1] == active[k - 1];
      assert active[k - 1] in active;
    }
  }

  /** The floored base shares never add up to more than the normal allowance. */
  lemma BaseSharesWithinNormal(o: Options, active: seq<Part>, normal: int, base: Bytes)
    requires ValidOptions(o) && normal >= 0
    requires forall p | p in active :: p in base && base[p] == BaseShare(o, active, normal, p)
    ensures SumOver(active, base) <= normal
    ensures forall p | p in active :: base[p] >= 0
  {
    hide Times, Fraction;
    if active != [] {
      FlooredSharesWithin(o, active, normal, base, |active|);
      FractionsAddUp(o, active);
      Zero(normal as real);
      assert active[..|active|] == active;
      forall p | p in active ensures base[p] >= 0 {
        FractionPositive(o, active, p);
        Scaled(0.0, normal as real, Fraction(o, active, p));
      }
    }
  }

  function If(b: bool, x: real): real { if b then x else 0.0 }

  lemma {:induction false} WeightsOfParts(o: Options, active: seq<Part>)
    requires forall a, b | 0 <= a < b < |active| :: active[a] != active[b]
    ensures Weights(o, active) == If(Run in active, o.run) + If(Skills in active, o.skills) + If(Memory in active, o.memory)
                                  + If(Environment in active, o.environment)
  {
    if active != [] {
      var front, last := active[..|active| - 1], active[|active| - 1];
      WeightsOfParts(o, front);
      assert active == front + [last] && last !in front;
    }
  }

  /** Each part in use gets its own configured number over the sum of those in use, and equal parts when that sum is zero. */
  lemma FractionsFollowOptions(o: Options, active: seq<Part>)
    requires active != [] && forall a, b | 0 <= a < b < |active| :: active[a] != active[b]
    ensures var sum := If(Run in active, o.run) + If(Skills in active, o.skills) + If(Memory in active, o.memory)
                       + If(Environment in active, o.environment);
            if sum > 0.0 then
              && Fraction(o, active, Run) == o.run / sum && Fraction(o, active, Skills) == o.skills / sum
              && Fraction(o, active, Memory) == o.memory / sum && Fraction(o, active, Environment) == o.environment / sum
            else forall p :: Fraction(o, active, p) == 1.0 / |active| as real
  {
    WeightsOfParts(o, active);
  }

  lemma FractionPositive(o: Options, active: seq<Part>, p: Part)
    requires ValidOptions(o) && active != []
    ensures Fraction(o, active, p) >= 0.0
  {
  }

  lemma {:induction false} WeightsPositive(o: Options, active: seq<Part>)
    requires ValidOptions(o)
    ensures Weights(o, active) >= 0.0
  {
    if active != [] {
      WeightsPositive(o, active[..|active| - 1]);
    }
  }

  // ---------------------------------------------------------------- allowances

  /** What the reported parts among the first `k` left over, or, when negative, took too much. */
  function Balance(active: seq<Part>, base: Bytes, spent: Bytes, k: nat): int
    requires k <= |active|
  {
    if k == 0 then 0
    else Balance(active, base, spent, k - 1) + if active[k - 1] in spent then Get(base, active[k - 1]) - spent[active[k - 1]] else 0
  }

  function Allowed(active: seq<Part>, base: Bytes, spent: Bytes, i: nat): int
    requires i < |active|
  {
    MaxInt(0, Get(base, active[i]) + Balance(active, base, spent, i) - Get(spent, active[i]))
  }

  function Place(p: Part): nat {
    match p
    case Run => 0
    case Skills => 1
    case Memory => 2
    case Environment => 3
  }

  predicate ByPriority(active: seq<Part>) {
    forall a, b | 0 <= a < b < |active| :: Place(active[a]) < Place(active[b])
  }

  predicate Distinct(active: seq<Part>) {
    forall a, b | 0 <= a < b < |active| :: active[a] != active[b]
  }

  class Plan {
    const dynamic: bool
    const active: seq<Part>
    const base: Bytes
    const total: int
    const normal: int
    var spent: Bytes

    predicate Valid()
      reads this
    {
      && Distinct(active) && (forall p | p in active :: p in base && base[p] >= 0)
      && 0 <= SumOver(active, base) <= normal <= total
      && forall p | p in spent :: spent[p] >= 0
    }

    constructor (o: Options, w: Window, kind: Kind, parts: set<Part>)
      requires ValidOptions(o)
      ensures Valid() && dynamic == Positive(w.context) && spent == map[]
      ensures ByPriority(active) && forall p :: p in active <==> p in parts
      ensures dynamic ==> total == TotalBytes(o, w, kind) && normal == NormalBytes(o, w, kind, active)
      ensures dynamic ==> forall p | p in active :: base[p] == BaseShare(o, active, normal, p)
    {
      var inUse := [];
      for i := 0 to |PARTS|
        invariant ByPriority(inUse) && forall p | p in inUse :: Place(p) < i
        invariant forall p :: p in inUse <==> p in PARTS[..i] && p in parts
      {
        assert PARTS[..i + 1] == PARTS[..i] + [PARTS[i]];
        assert Place(PARTS[i]) == i;
        assert forall k | 0 <= k < |inUse| :: inUse[k] in inUse;
        if PARTS[i] in parts {
          inUse := inUse + [PARTS[i]];
        }
      }
      assert PARTS[..|PARTS|] == PARTS;
      forall p: Part ensures p in PARTS {
        assert p == PARTS[Place(p)];
      }
      dynamic := Positive(w.context);
      active := inUse;
      spent := map[];
      if Positive(w.context) {
        TotalWithinWindow(o, w, kind, inUse);
        var target := NormalBytes(o, w, kind, inUse);
        total, normal := TotalBytes(o, w, kind), target;
        var shares := map p | p in inUse :: BaseShare(o, inUse, target, p);
        base := shares;
        BaseSharesWithinNormal(o, inUse, target, shares);
        SumNonNegative(inUse, shares);
      } else {
        total, normal := 0, 0;
        var shares := map p | p in inUse :: 0;
        base := shares;
        SumOfZeros(inUse, shares);
      }
    }

    /** The part's own share, plus what the reported parts before it left, minus what they took too much, minus what it already has. */
    method Allow(part: Part) returns (r: Option<int>)
      requires Valid()
      ensures r.None? <==> !dynamic || part !in active
      ensures r.Some? ==> forall i | 0 <= i < |active| && active[i] == part :: r.value == Allowed(active, base, spent, i)
    {
      if !dynamic {
        return None;
      }
      var index := 0;
      while index < |active| && active[index] != part
        invariant index <= |active|
        invariant part !in active[..index]
      {
        index := index + 1;
      }
      if index == |active| {
        return None;
      }
      var carried, overspent := 0, 0;
      for i := 0 to index
        invariant carried - overspent == Balance(active, base, spent, i)
      {
        var earlier := active[i];
        if earlier in spent {
          carried := carried + MaxInt(0, base[earlier] - spent[earlier]);
        }
        overspent := overspent + MaxInt(0, Get(spent, earlier) - base[earlier]);
      }
      r := Some(MaxInt(0, base[part] + carried - overspent - Get(spent, part)));
    }

    method AllowRequired(part: Part) returns (r: Option<int>)
      requires Valid()
      ensures r.Some? <==> dynamic && part in active
      ensures r.Some? ==> r.value >= 0 && (SpentBytes() <= total ==> SpentBytes() + r.value == total)
    {
      r := if dynamic && part in active then Some(MaxInt(0, total - SpentBytes())) else None;
    }

    function SpentBytes(): int
      reads this
    {
      SumOver(PARTS, spent)
    }

    method Spend(part: Part, bytes: int)
      requires Valid()
      modifies this
      ensures Valid() && spent == old(spent)[part := Get(old(spent), part) + MaxInt(0, bytes)]
      ensures SpentBytes() == old(SpentBytes()) + MaxInt(0, bytes)
    {
      SpendAdds(PARTS, spent, part, MaxInt(0, bytes));
      spent := spent[part := Get(spent, part) + MaxInt(0, bytes)];
    }
  }

  lemma {:induction false} SumNonNegative(parts: seq<Part>, m: Bytes)
    requires forall p | p in parts :: Get(m, p) >= 0
    ensures SumOver(parts, m) >= 0
  {
    if parts != [] {
      SumNonNegative(parts[..|parts| - 1], m);
    }
  }

  lemma {:induction false} SumOfZeros(parts: seq<Part>, m: Bytes)
    requires forall p | p in parts :: Get(m, p) == 0
    ensures SumOver(parts, m) == 0
  {
    if parts != [] {
      SumOfZeros(parts[..|parts| - 1], m);
    }
  }

  lemma {:induction false} SumUnchanged(parts: seq<Part>, m: Bytes, part: Part, v: int)
    requires part !in parts
    ensures SumOver(parts, m[part := v]) == SumOver(parts, m)
  {
    if parts != [] {
      SumUnchanged(parts[..|parts| - 1], m, part, v);
    }
  }

  lemma {:induction false} SpendAdds(parts: seq<Part>, m: Bytes, part: Part, bytes: int)
    requires Distinct(parts) && part in parts
    ensures SumOver(parts, m[part := Get(m, part) + bytes]) == SumOver(parts, m) + bytes
  {
    var front, last := parts[..|parts| - 1], parts[|parts| - 1];
    if last == part {
      SumUnchanged(front, m, part, Get(m, part) + bytes);
    } else {
      SpendAdds(front, m, part, bytes);
    }
  }

  // ---------------------------------------------------------------- conservation

  /** One report: which part, by its position, how much, and whether the content was required. */
  datatype Report = Report(index: nat, bytes: int, required: bool)

  function Spent(active: seq<Part>, spent: Bytes, r: Report): Bytes
    requires r.index < |active|
  {
    spent[active[r.index] := Get(spent, active[r.index]) + MaxInt(0, r.bytes)]
  }

  function SpentAll(active: seq<Part>, spent: Bytes, reports: seq<Report>): Bytes
    requires forall k | 0 <= k < |reports| :: reports[k].index < |active|
  {
    if reports == [] then spent
    else Spent(active, SpentAll(active, spent, reports[..|reports| - 1]), reports[|reports| - 1])
  }

  /** What a report may use then: the rest below the ceiling for required content, the part's allowance otherwise. */
  function Limit(active: seq<Part>, base: Bytes, total: int, spent: Bytes, r: Report): int
    requires r.index < |active|
  {
    if r.required then MaxInt(0, total - SumOver(active, spent)) else Allowed(active, base, spent, r.index)
  }

  /** Parts report in priority order, each time at most what they may use then. */
  predicate InOrder(active: seq<Part>, base: Bytes, total: int, reports: seq<Report>) {
    && (forall k | 0 <= k < |reports| :: reports[k].index < |active|)
    && (forall a, b | 0 <= a < b < |reports| :: reports[a].index <= reports[b].index)
    && (forall k | 0 <= k < |reports| ::
          reports[k].bytes <= Limit(active, base, total, SpentAll(active, map[], reports[..k]), reports[k]))
  }

  /** Nothing beyond position `i` has reported. */
  predicate Reached(active: seq<Part>, spent: Bytes, i: nat) {
    && (forall j | i < j < |active| :: active[j] !in spent)
    && (forall p | p in spent :: spent[p] >= 0)
  }

  /** The balance of the first `k` parts is at most their shares less their spending. */
  lemma {:induction false} BalanceWithin(active: seq<Part>, base: Bytes, spent: Bytes, k: nat)
    requires k <= |active| && (forall p | p in active :: Get(base, p) >= 0)
    ensures Balance(active, base, spent, k) <= SumOver(active[..k], base) - SumOver(active[..k], spent)
  {
    if k > 0 {
      BalanceWithin(active, base, spent, k - 1);
      assert active[..k][..k - 1] == active[..k - 1] && active[..k][k - 1] == active[k - 1];
      assert active[k - 1] in active;
    }
  }

  lemma {:induction false} SumPrefix(active: seq<Part>, m: Bytes, k: nat)
    requires k <= |active| && (forall p | p in active :: Get(m, p) >= 0)
    ensures SumOver(active[..k], m) <= SumOver(active, m)
    ensures (forall j | k <= j < |active| :: active[j] !in m) ==> SumOver(active[..k], m) == SumOver(active, m)
    decreases |active| - k
  {
    if k < |active| {
      SumPrefix(active, m, k + 1);
      assert active[..k + 1][..k] == active[..k] && active[..k + 1][k] == active[k] && active[k] in active;
    } else {
      assert active[..k] == active;
    }
  }

  /** An ordinary report that gets anything pays for everything that was taken too much before it. */
  lemma OrdinaryRepays(active: seq<Part>, base: Bytes, spent: Bytes, r: Report)
    requires Distinct(active) && r.index < |active| && (forall p | p in active :: Get(base, p) >= 0)
    requires Reached(active, spent, r.index) && 0 < r.bytes <= Allowed(active, base, spent, r.index)
    ensures SumOver(active, Spent(active, spent, r)) <= SumOver(active, base)
  {
    var upTo, p := active[..r.index + 1], active[r.index];
    assert upTo[..r.index] == active[..r.index] && upTo[r.index] == p;
    BalanceWithin(active, base, spent, r.index);
    SpendAdds(upTo, spent, p, r.bytes);
    SumPrefix(active, Spent(active, spent, r), r.index + 1);
    SumPrefix(active, base, r.index + 1);
  }

  /**
   * Parts that report in priority order, each within what it may use then,
   * required content included, never exceed the ceiling together; and whenever
   * an ordinary report gets anything, everything so far is back within the
   * normal allowance.
   */
  lemma {:induction false} MixedConservation(active: seq<Part>, base: Bytes, normal: int, total: int, reports: seq<Report>)
    requires Distinct(active) && (forall p | p in active :: Get(base, p) >= 0) && 0 <= SumOver(active, base) <= normal <= total
    requires InOrder(active, base, total, reports)
    ensures SumOver(active, SpentAll(active, map[], reports)) <= total
    ensures reports != [] ==> Reached(active, SpentAll(active, map[], reports), reports[|reports| - 1].index)
    ensures reports != [] && !reports[|reports| - 1].required && reports[|reports| - 1].bytes > 0 ==>
              SumOver(active, SpentAll(active, map[], reports)) <= normal
    decreases |reports|
  {
    if reports == [] {
      SumOfZeros(active, map[]);
    } else {
      var front, last := reports[..|reports| - 1], reports[|reports| - 1];
      InOrderFront(active, base, total, reports);
      var spent := SpentAll(active, map[], front);
      hide InOrder, Limit, SumOver, Distinct, Reached, Spent;
      MixedConservation(active, base, normal, total, front);
      if front == [] {
        NothingReached(active, last.index);
      } else {
        ReachedLater(active, spent, front[|front| - 1].index, last.index);
      }
      ReportStep(active, base, normal, total, spent, last);
    }
  }

  lemma NothingReached(active: seq<Part>, i: nat)
    ensures Reached(active, map[], i)
  {
  }

  lemma ReachedLater(active: seq<Part>, spent: Bytes, i: nat, j: nat)
    requires Reached(active, spent, i) && i <= j
    ensures Reached(active, spent, j)
  {
  }

  lemma InOrderFront(active: seq<Part>, base: Bytes, total: int, reports: seq<Report>)
    requires InOrder(active, base, total, reports) && reports != []
    ensures var front, last := reports[..|reports| - 1], reports[|reports| - 1];
            && InOrder(active, base, total, front) && last.index < |active|
            && (front != [] ==> front[|front| - 1].index <= last.index)
            && last.bytes <= Limit(active, base, total, SpentAll(active, map[], front), last)
            && SpentAll(active, map[], reports) == Spent(active, SpentAll(active, map[], front), last)
  {
    hide Limit, Spent;
    var front := reports[..|reports| - 1];
    assert forall k | 0 <= k < |front| :: front[..k] == reports[..k];
  }

  lemma ReportStep(active: seq<Part>, base: Bytes, normal: int, total: int, spent: Bytes, r: Report)
    requires Distinct(active) && (forall p | p in active :: Get(base, p) >= 0) && SumOver(active, base) <= normal <= total
    requires r.index < |active| && Reached(active, spent, r.index) && SumOver(active, spent) <= total
    requires r.bytes <= Limit(active, base, total, spent, r)
    ensures SumOver(active, Spent(active, spent, r)) <= total
    ensures Reached(active, Spent(active, spent, r), r.index)
    ensures !r.required && r.bytes > 0 ==> SumOver(active, Spent(active, spent, r)) <= normal
  {
    SpendAdds(active, spent, active[r.index], MaxInt(0, r.bytes));
    if !r.required && r.bytes > 0 {
      OrdinaryRepays(active, base, spent, r);
    }
  }

  /** Without required content they never exceed the normal allowance. */
  lemma Conservation(active: seq<Part>, base: Bytes, normal: int, total: int, reports: seq<Report>)
    requires Distinct(active) && (forall p | p in active :: Get(base, p) >= 0) && 0 <= SumOver(active, base) <= normal
    requires InOrder(active, base, total, reports) && forall k | 0 <= k < |reports| :: !reports[k].required
    ensures SumOver(active, SpentAll(active, map[], reports)) <= normal
  {
    assert InOrder(active, base, normal, reports);
    MixedConservation(active, base, normal, normal, reports);
  }

  /** Out of priority order the sum of allowances can exceed the normal allowance: a share that was passed on is granted again. */
  lemma OrderMatters() returns (active: seq<Part>, base: Bytes, reports: seq<Report>)
    ensures Distinct(active) && SumOver(active, base) == 20
    ensures forall k | 0 <= k < |reports| :: reports[k].index < |active| && !reports[k].required
    ensures forall k | 0 <= k < |reports| ::
              reports[k].bytes <= Allowed(active, base, SpentAll(active, map[], reports[..k]), reports[k].index)
    ensures SumOver(active, SpentAll(active, map[], reports)) == 30
  {
    active, base := [Run, Skills], map[Run := 10, Skills := 10];
    reports := [Report(0, 0, false), Report(1, 20, false), Report(0, 10, false)];
    var s1 := map[Run := 0];
    var s2 := map[Run := 0, Skills := 20];
    var s3 := map[Run := 10, Skills := 20];
    assert reports[..0] == [] && reports[..1][..0] == [] && reports[..2][..1] == reports[..1] && reports[..3] == reports;
    assert SpentAll(active, map[], reports[..1]) == s1;
    assert SpentAll(active, map[], reports[..2]) == s2;
    assert SpentAll(active, map[], reports) == s3;
    assert active[..1] == [Run] && active[..0] == [];
  }
}
