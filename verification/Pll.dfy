/**
 The PLL divider table of the BM1387 chip: four nested loops keep the best divider per megahertz
 bin, and a binary search picks the entry nearest to a requested frequency.
 */
module Pll {
  import opened Wrappers

  /** `usize` on the 32-bit ARM target. */
  const USIZE_MODULUS: nat := 0x1_0000_0000
  const MIN_MHZ: nat := 100
  const MAX_MHZ: nat := 1200
  const BIN_SIZE_HZ: nat := 1_000_000
  const CHIP_OSC_CLK_HZ: nat := 25_000_000

  datatype PllReg = PllReg(fbdiv: nat, refdiv: nat, postdiv1: nat, postdiv2: nat)

  datatype PllFrequency = PllFrequency(frequency: nat, reg: PllReg)

  /** The dividers the table is built from. */
  predicate Enumerated(r: PllReg) {
    1 <= r.postdiv1 <= 7 && 1 <= r.refdiv <= 63 && 1 <= r.postdiv2 <= r.postdiv1 && 32 <= r.fbdiv < 128
  }

  /** `m` is `n` divided by `d`, rounded down. */
  predicate Floor(n: nat, d: nat, m: nat) {
    m * d <= n < (m + 1) * d
  }

  /** Division of unsigned integers. */
  function Quotient(n: nat, d: nat): (m: nat)
    requires d >= 1
    ensures Floor(n, d, m)
  {
    n / d
  }

  /** The frequency a divider sets, computed in 64 bits and truncated to `usize`. */
  function Calc(r: PllReg, xtal: nat): nat
    requires Enumerated(r)
  {
    Quotient(Quotient(Quotient(xtal * r.fbdiv, r.refdiv), r.postdiv1), r.postdiv2) % USIZE_MODULUS
  }

  function Distance(x: nat, y: nat): (d: nat)
    ensures x <= y + d && y <= x + d && (x == y + d || y == x + d)
  {
    if x >= y then x - y else y - x
  }

  /** The frequency rounded to the nearest megahertz. */
  function Bin(frequency: nat): (bin: nat)
    ensures bin * BIN_SIZE_HZ <= frequency + 500_000 < (bin + 1) * BIN_SIZE_HZ
  {
    (frequency + 500_000) / BIN_SIZE_HZ
  }

  /**
   `f` is the whole number of hertz that the dividers make of the crystal: `f` hertz are not too many, and
   one more would be.
   */
  predicate Sets(r: PllReg, xtal: nat, f: nat) {
    var divisor := r.refdiv * r.postdiv1 * r.postdiv2;
    f * divisor <= xtal * r.fbdiv < (f + 1) * divisor
  }

  /** The frequency is below 2^32, so that it survives the truncation. */
  predicate FitsUsize(r: PllReg, xtal: nat) {
    xtal * r.fbdiv < r.refdiv * r.postdiv1 * r.postdiv2 * USIZE_MODULUS
  }

  lemma {:induction false} Times(x: nat, y: nat, d: nat)
    requires x <= y
    ensures x * d <= y * d
  {
  }

  lemma {:induction false} Swap(q: nat, d: nat, c: nat)
    ensures q * (d * c) == q * c * d
  {
  }

  /** Rounding down the quotient of a rounded quotient is dividing by the product and rounding down once. */
  lemma {:induction false} FloorOfFloor(n: nat, d: nat, m: nat, c: nat, q: nat)
    requires Floor(n, d, m) && Floor(m, c, q)
    ensures Floor(n, d * c, q)
  {
    Times(q * c, m, d);
    Times(m + 1, (q + 1) * c, d);
    Swap(q, d, c);
    Swap(q + 1, d, c);
  }

  lemma {:induction false} FloorThrice(n: nat, a: nat, b: nat, c: nat, x: nat, y: nat, z: nat)
    requires Floor(n, a, x) && Floor(x, b, y) && Floor(y, c, z)
    ensures Floor(n, a * b * c, z)
  {
    hide Floor;
    FloorOfFloor(n, a, x, b, y);
    FloorOfFloor(n, a * b, y, c, z);
  }

  /** A frequency that the dividers set and that fits is not truncated. */
  lemma {:induction false} FloorSets(r: PllReg, xtal: nat, f: nat)
    requires Floor(xtal * r.fbdiv, r.refdiv * r.postdiv1 * r.postdiv2, f) && FitsUsize(r, xtal)
    ensures Sets(r, xtal, f) && f < USIZE_MODULUS
  {
    var d := r.refdiv * r.postdiv1 * r.postdiv2;
    if f >= USIZE_MODULUS { Times(USIZE_MODULUS, f, d); }
  }

  lemma {:induction false} SetsOnce(r: PllReg, xtal: nat, f: nat, g: nat)
    requires Sets(r, xtal, f) && Sets(r, xtal, g)
    ensures f == g
  {
    var d := r.refdiv * r.postdiv1 * r.postdiv2;
    if f < g { Times(f + 1, g, d); }
    if g < f { Times(g + 1, f, d); }
  }

  /** Dividing step by step, each time rounding down, rounds the exact quotient down. */
  lemma {:induction false} CalcSets(r: PllReg, xtal: nat)
    requires Enumerated(r) && FitsUsize(r, xtal)
    ensures Sets(r, xtal, Calc(r, xtal))
  {
    hide Floor, FitsUsize, Sets, Quotient;
    var n := xtal * r.fbdiv;
    var x := Quotient(n, r.refdiv);
    var y := Quotient(x, r.postdiv1);
    var z := Quotient(y, r.postdiv2);
    FloorThrice(n, r.refdiv, r.postdiv1, r.postdiv2, x, y, z);
    FloorSets(r, xtal, z);
  }

  /** The rounding sum does not fit into `usize`: it wraps around, or panics in a build that checks. */
  predicate Overflows(frequency: nat) {
    frequency + 500_000 >= USIZE_MODULUS
  }

  predicate InRange(bin: nat) {
    MIN_MHZ <= bin <= MAX_MHZ
  }

  /** The order in which the four loops meet the dividers. */
  predicate Before(a: PllReg, b: PllReg) {
    || a.postdiv1 < b.postdiv1
    || (a.postdiv1 == b.postdiv1 &&
        (|| a.refdiv < b.refdiv
         || (a.refdiv == b.refdiv &&
             (|| a.postdiv2 < b.postdiv2
              || (a.postdiv2 == b.postdiv2 && a.fbdiv < b.fbdiv)))))
  }

  /** How far a divider is from the centre of its bin. */
  function BinError(r: PllReg, xtal: nat): nat
    requires Enumerated(r)
  {
    Distance(Bin(Calc(r, xtal)) * BIN_SIZE_HZ, Calc(r, xtal))
  }

  /** `a` is kept over `b` when both fall into one bin: it is nearer, or as near and met no later. */
  predicate Preferred(a: PllReg, b: PllReg, xtal: nat)
    requires Enumerated(a) && Enumerated(b)
  {
    BinError(a, xtal) < BinError(b, xtal) || (BinError(a, xtal) == BinError(b, xtal) && !Before(b, a))
  }

  // ----- The table -----

  ghost predicate EntryOk(e: PllFrequency, xtal: nat) {
    Enumerated(e.reg) && e.frequency == Calc(e.reg, xtal) && InRange(Bin(e.frequency))
  }

  type Bins = seq<Option<PllFrequency>>

  /** The bin of `r`, if in range, holds a divider preferred to `r`. */
  ghost predicate Covered(bins: Bins, xtal: nat, r: PllReg)
    requires |bins| == MAX_MHZ + 1
  {
    Enumerated(r) && InRange(Bin(Calc(r, xtal))) ==>
      var e := bins[Bin(Calc(r, xtal))];
      e.Some? && EntryOk(e.value, xtal) && Preferred(e.value.reg, r, xtal)
  }

  /** Each bin is empty or holds a divider of that bin; every divider met before `cursor` is covered. */
  ghost predicate BinsOk(bins: Bins, xtal: nat, cursor: PllReg) {
    && |bins| == MAX_MHZ + 1
    && (forall b :: 0 <= b < |bins| && bins[b].Some? ==>
          EntryOk(bins[b].value, xtal) && Bin(bins[b].value.frequency) == b && Before(bins[b].value.reg, cursor))
    && (forall r :: Before(r, cursor) ==> Covered(bins, xtal, r))
  }

  /** No divider met before `cursor` made a checked sum overflow. */
  ghost predicate Quiet(checked: bool, xtal: nat, cursor: PllReg) {
    checked ==> forall r :: Enumerated(r) && Before(r, cursor) ==> !Overflows(Calc(r, xtal))
  }

  ghost predicate FilledTo(bins: Bins, xtal: nat, checked: bool, cursor: PllReg) {
    BinsOk(bins, xtal, cursor) && Quiet(checked, xtal, cursor)
  }

  /** The bin number as it is computed; outside the range wherever the exact one is. */
  lemma {:induction false} WrappedBin(frequency: nat)
    requires frequency < USIZE_MODULUS
    ensures var bin := (frequency + 500_000) % USIZE_MODULUS / BIN_SIZE_HZ;
            if Overflows(frequency) then !InRange(bin) && !InRange(Bin(frequency)) else bin == Bin(frequency)
  {
  }

  /** One divider: keep it if its bin is empty or holds a worse one; `ok` is false when this panics. */
  method Consider(bins: array<Option<PllFrequency>>, xtal: nat, checked: bool, reg: PllReg) returns (ok: bool)
    requires Enumerated(reg) && FilledTo(bins[..], xtal, checked, reg)
    modifies bins
    ensures ok <==> !(checked && Overflows(Calc(reg, xtal)))
    ensures ok ==> FilledTo(bins[..], xtal, checked, reg.(fbdiv := reg.fbdiv + 1))
  {
    hide Quiet;
    ghost var before := bins[..];
    var frequency := Calc(reg, xtal);
    if checked && frequency + 500_000 >= USIZE_MODULUS {
      return false;
    }
    QuietNext(checked, xtal, reg);
    WrappedBin(frequency);
    var bin := (frequency + 500_000) % USIZE_MODULUS / BIN_SIZE_HZ;
    if bin < MIN_MHZ || bin > MAX_MHZ {
      Advanced(before, xtal, reg);
      return true;
    }
    if bins[bin].Some? {
      if Distance(bin * BIN_SIZE_HZ, bins[bin].value.frequency) <= Distance(bin * BIN_SIZE_HZ, frequency) {
        Advanced(before, xtal, reg);
        return true;
      }
    }
    bins[bin] := Some(PllFrequency(frequency, reg));
    assert bins[..] == before[bin := Some(PllFrequency(frequency, reg))];
    Replaced(before, xtal, reg);
    return true;
  }

  lemma {:induction false} QuietNext(checked: bool, xtal: nat, reg: PllReg)
    requires Enumerated(reg) && Quiet(checked, xtal, reg) && !(checked && Overflows(Calc(reg, xtal)))
    ensures Quiet(checked, xtal, reg.(fbdiv := reg.fbdiv + 1))
  {
    hide Before, Overflows;
    var next := reg.(fbdiv := reg.fbdiv + 1);
    forall r ensures Before(r, next) <==> Before(r, reg) || r == reg { NextCursor(r, reg); }
  }

  /** Nothing but `reg` comes between `reg` and the next cursor. */
  lemma {:induction false} NextCursor(r: PllReg, reg: PllReg)
    ensures Before(r, reg.(fbdiv := reg.fbdiv + 1)) <==> Before(r, reg) || r == reg
  {
  }

  lemma {:induction false} Advanced(bins: Bins, xtal: nat, reg: PllReg)
    requires Enumerated(reg) && BinsOk(bins, xtal, reg) && Covered(bins, xtal, reg)
    ensures BinsOk(bins, xtal, reg.(fbdiv := reg.fbdiv + 1))
  {
    hide Covered, EntryOk, Before;
    var next := reg.(fbdiv := reg.fbdiv + 1);
    forall r ensures Before(r, next) <==> Before(r, reg) || r == reg { NextCursor(r, reg); }
  }

  lemma {:induction false} Replaced(bins: Bins, xtal: nat, reg: PllReg)
    requires Enumerated(reg) && BinsOk(bins, xtal, reg) && InRange(Bin(Calc(reg, xtal)))
    requires var e := bins[Bin(Calc(reg, xtal))];
             e.Some? ==> BinError(reg, xtal) < BinError(e.value.reg, xtal)
    ensures BinsOk(bins[Bin(Calc(reg, xtal)) := Some(PllFrequency(Calc(reg, xtal), reg))], xtal,
                   reg.(fbdiv := reg.fbdiv + 1))
  {
    hide Calc, Bin;
    var bin := Bin(Calc(reg, xtal));
    var bins' := bins[bin := Some(PllFrequency(Calc(reg, xtal), reg))];
    var next := reg.(fbdiv := reg.fbdiv + 1);
    forall r | Before(r, next) ensures Covered(bins', xtal, r) {
      NextCursor(r, reg);
      if r != reg { assert Covered(bins, xtal, r); }
    }
    forall b | 0 <= b < |bins'| && bins'[b].Some?
      ensures EntryOk(bins'[b].value, xtal) && Bin(bins'[b].value.frequency) == b && Before(bins'[b].value.reg, next)
    {
      NextCursor(bins'[b].value.reg, reg);
    }
  }

  /** The loops leave one divider list and enter the next: no enumerated divider lies between the cursors. */
  lemma {:induction false} SkipTo(bins: Bins, xtal: nat, checked: bool, from: PllReg, to: PllReg)
    requires FilledTo(bins, xtal, checked, from)
    requires forall r :: Enumerated(r) ==> (Before(r, from) <==> Before(r, to))
    ensures FilledTo(bins, xtal, checked, to)
  {
    hide Calc, Bin, Before, Overflows;
    forall r | Before(r, to) ensures Covered(bins, xtal, r) {
      if Enumerated(r) { assert Before(r, from); }
    }
  }

  const END: PllReg := PllReg(32, 1, 8, 1)

  /** The four loops; `ok` is false when a checked sum overflows for some divider. */
  method FillBins(xtal: nat, checked: bool) returns (bins: array<Option<PllFrequency>>, ok: bool)
    ensures fresh(bins)
    ensures ok ==> BinsOk(bins[..], xtal, END)
    ensures ok <==> !(checked && exists r :: Enumerated(r) && Overflows(Calc(r, xtal)))
  {
    hide Overflows, Calc, BinsOk;
    bins := new Option<PllFrequency>[MAX_MHZ + 1](_ => None);
    SkipNothing(bins[..], xtal, checked);
    for postdiv1 := 1 to 8
      invariant FilledTo(bins[..], xtal, checked, PllReg(32, 1, postdiv1, 1))
    {
      for refdiv := 1 to 64
        invariant FilledTo(bins[..], xtal, checked, PllReg(32, refdiv, postdiv1, 1))
      {
        for postdiv2 := 1 to postdiv1 + 1
          invariant FilledTo(bins[..], xtal, checked, PllReg(32, refdiv, postdiv1, postdiv2))
        {
          for fbdiv := 32 to 128
            invariant FilledTo(bins[..], xtal, checked, PllReg(fbdiv, refdiv, postdiv1, postdiv2))
          {
            var reg := PllReg(fbdiv, refdiv, postdiv1, postdiv2);
            ok := Consider(bins, xtal, checked, reg);
            if !ok {
              assert Enumerated(reg);
              return;
            }
          }
          SkipTo(bins[..], xtal, checked, PllReg(128, refdiv, postdiv1, postdiv2),
                 PllReg(32, refdiv, postdiv1, postdiv2 + 1));
        }
        SkipTo(bins[..], xtal, checked,
               PllReg(32, refdiv, postdiv1, postdiv1 + 1), PllReg(32, refdiv + 1, postdiv1, 1));
      }
      SkipTo(bins[..], xtal, checked, PllReg(32, 64, postdiv1, 1), PllReg(32, 1, postdiv1 + 1, 1));
    }
    ok := true;
    AllQuiet(xtal, checked);
  }

  lemma {:induction false} AllQuiet(xtal: nat, checked: bool)
    requires Quiet(checked, xtal, END)
    ensures checked ==> forall r :: Enumerated(r) ==> !Overflows(Calc(r, xtal))
  {
    hide Overflows, Calc;
    forall r | checked && Enumerated(r) ensures !Overflows(Calc(r, xtal)) { assert Before(r, END); }
  }

  lemma {:induction false} SkipNothing(bins: Bins, xtal: nat, checked: bool)
    requires |bins| == MAX_MHZ + 1 && forall b :: 0 <= b < |bins| ==> bins[b].None?
    ensures FilledTo(bins, xtal, checked, PllReg(32, 1, 1, 1))
  {
    hide Calc, Bin;
  }

  // ----- What the table is -----

  ghost predicate Increasing(table: seq<PllFrequency>) {
    forall i, j :: 0 <= i < j < |table| ==> table[i].frequency < table[j].frequency
  }

  /** The divider is the first best one of its bin, over all enumerated dividers. */
  ghost predicate BestOfBin(e: PllFrequency, xtal: nat)
    requires EntryOk(e, xtal)
  {
    forall r :: Enumerated(r) && Bin(Calc(r, xtal)) == Bin(e.frequency) ==> Preferred(e.reg, r, xtal)
  }

  /** Some entry shares its bin with `r`. */
  ghost predicate HasBinOf(table: seq<PllFrequency>, r: PllReg, xtal: nat)
    requires Enumerated(r)
  {
    exists i :: 0 <= i < |table| && Bin(table[i].frequency) == Bin(Calc(r, xtal))
  }

  /** The table has exactly one entry per bin that any divider reaches, the best, in increasing order. */
  ghost predicate TableOk(table: seq<PllFrequency>, xtal: nat) {
    && Increasing(table)
    && (forall i :: 0 <= i < |table| ==> EntryOk(table[i], xtal) && BestOfBin(table[i], xtal))
    && (forall r :: Enumerated(r) && InRange(Bin(Calc(r, xtal))) ==> HasBinOf(table, r, xtal))
  }

  /** The table for a crystal; `None` when a build that checks for overflow panics. */
  method PrecomputePllTable(xtal: nat, checked: bool) returns (r: Option<seq<PllFrequency>>)
    ensures r.Some? ==> TableOk(r.value, xtal)
    ensures r.Some? ==> forall i :: 0 <= i < |r.value| && FitsUsize(r.value[i].reg, xtal) ==>
                                      Sets(r.value[i].reg, xtal, r.value[i].frequency)
    ensures r.None? <==> checked && exists d :: Enumerated(d) && Overflows(Calc(d, xtal))
  {
    hide Overflows, Calc;
    var bins, ok := FillBins(xtal, checked);
    if !ok {
      return None;
    }
    ghost var all := bins[..];
    var table: seq<PllFrequency> := [];
    for b := 0 to bins.Length
      invariant bins[..] == all
      invariant Collected(all, b, table, xtal)
    {
      if bins[b].Some? {
        CollectOne(all, b, table, xtal);
        table := table + [bins[b].value];
      } else {
        CollectNone(all, b, table, xtal);
      }
    }
    CollectedAll(all, table, xtal);
    EntriesSet(table, xtal);
    return Some(table);
  }

  /** Every entry has the frequency that its dividers set. */
  lemma {:induction false} EntriesSet(table: seq<PllFrequency>, xtal: nat)
    requires TableOk(table, xtal)
    ensures forall i :: 0 <= i < |table| && FitsUsize(table[i].reg, xtal) ==>
              Sets(table[i].reg, xtal, table[i].frequency)
  {
    hide Calc, Bin, Sets, FitsUsize, BestOfBin, HasBinOf;
    forall i | 0 <= i < |table| && FitsUsize(table[i].reg, xtal) ensures Sets(table[i].reg, xtal, table[i].frequency) {
      assert EntryOk(table[i], xtal);
      CalcSets(table[i].reg, xtal);
    }
  }

  /** The table holds the filled bins below `b`, in order. */
  ghost predicate Collected(bins: Bins, b: nat, table: seq<PllFrequency>, xtal: nat) {
    && BinsOk(bins, xtal, END) && b <= |bins|
    && Increasing(table)
    && (forall i :: 0 <= i < |table| ==> var c := Bin(table[i].frequency); c < b && bins[c] == Some(table[i]))
    && (forall c :: 0 <= c < b && bins[c].Some? ==> bins[c].value in table)
  }

  lemma {:induction false} BinMonotone(x: nat, y: nat)
    requires Bin(x) < Bin(y)
    ensures x < y
  {
  }

  lemma {:induction false} CollectOne(bins: Bins, b: nat, table: seq<PllFrequency>, xtal: nat)
    requires Collected(bins, b, table, xtal) && b < |bins| && bins[b].Some?
    ensures Collected(bins, b + 1, table + [bins[b].value], xtal)
  {
    hide Bin, Covered, EntryOk;
    var table' := table + [bins[b].value];
    forall i | 0 <= i < |table| ensures table[i].frequency < bins[b].value.frequency {
      BinMonotone(table[i].frequency, bins[b].value.frequency);
    }
    forall c | 0 <= c < b + 1 && bins[c].Some? ensures bins[c].value in table' {
      if c < b { assert bins[c].value in table; } else { assert table'[|table|] == bins[b].value; }
    }
  }

  lemma {:induction false} CollectNone(bins: Bins, b: nat, table: seq<PllFrequency>, xtal: nat)
    requires Collected(bins, b, table, xtal) && b < |bins| && bins[b].None?
    ensures Collected(bins, b + 1, table, xtal)
  {
    hide Bin, Covered, EntryOk;
  }

  lemma {:induction false} CollectedAll(bins: Bins, table: seq<PllFrequency>, xtal: nat)
    requires Collected(bins, |bins|, table, xtal)
    ensures TableOk(table, xtal)
  {
    hide Calc, Bin;
    var end := END;
    forall i | 0 <= i < |table| ensures EntryOk(table[i], xtal) && BestOfBin(table[i], xtal) {
      forall r | Enumerated(r) && Bin(Calc(r, xtal)) == Bin(table[i].frequency)
        ensures Preferred(table[i].reg, r, xtal)
      {
        assert Before(r, end) && Covered(bins, xtal, r);
      }
    }
    forall r | Enumerated(r) && InRange(Bin(Calc(r, xtal))) ensures HasBinOf(table, r, xtal) {
      assert Before(r, end) && Covered(bins, xtal, r);
      var e := bins[Bin(Calc(r, xtal))].value;
      assert e in table;
      var i :| 0 <= i < |table| && table[i] == e;
      assert Bin(table[i].frequency) == Bin(Calc(r, xtal));
    }
  }

  // ----- Lookup -----

  /** `e` is the entry nearest to the target, the lower one of two equally near. */
  ghost predicate Nearest(table: seq<PllFrequency>, target: nat, e: PllFrequency) {
    && e in table
    && forall i :: 0 <= i < |table| ==>
         || Distance(e.frequency, target) < Distance(table[i].frequency, target)
         || (Distance(e.frequency, target) == Distance(table[i].frequency, target) && e.frequency <= table[i].frequency)
  }

  /** The first position whose frequency is not below the target. */
  method LowerBound(table: seq<PllFrequency>, target: nat) returns (i: nat)
    requires Increasing(table)
    ensures i <= |table|
    ensures forall j :: 0 <= j < i ==> table[j].frequency < target
    ensures forall j :: i <= j < |table| ==> table[j].frequency >= target
  {
    var lo, hi := 0, |table|;
    while lo < hi
      invariant 0 <= lo <= hi <= |table|
      invariant forall j :: 0 <= j < lo ==> table[j].frequency < target
      invariant forall j :: hi <= j < |table| ==> table[j].frequency >= target
    {
      var mid := (lo + hi) / 2;
      if table[mid].frequency < target {
        lo := mid + 1;
      } else {
        hi := mid;
      }
    }
    i := lo;
  }

  /** The lookup succeeds exactly inside the span of the table, and finds the nearest entry. */
  method LookupIn(table: seq<PllFrequency>, target: nat) returns (r: Option<PllFrequency>)
    requires Increasing(table)
    ensures r.Some? <==> |table| > 0 && table[0].frequency <= target <= table[|table| - 1].frequency
    ensures r.Some? ==> Nearest(table, target, r.value)
  {
    var i := LowerBound(table, target);
    if i < |table| && table[i].frequency == target {
      return Some(table[i]);
    }
    if i == 0 || i >= |table| {
      return None;
    }
    if Distance(table[i - 1].frequency, target) <= Distance(table[i].frequency, target) {
      return Some(table[i - 1]);
    }
    return Some(table[i]);
  }

  // ----- How good the result is -----

  /** Whatever the crystal, no divider of a supported bin beats the lookup by a whole bin. */
  lemma {:induction false} NearOptimal(table: seq<PllFrequency>, xtal: nat, target: nat, e: PllFrequency, r: PllReg)
    requires TableOk(table, xtal) && Nearest(table, target, e)
    requires Enumerated(r) && InRange(Bin(Calc(r, xtal)))
    ensures Distance(e.frequency, target) <= Distance(Calc(r, xtal), target) + 999_999
  {
    hide Calc, Bin, TableOk;
    var i := SharedBin(table, xtal, r);
    SameBin(table[i].frequency, Calc(r, xtal));
  }

  lemma {:induction false} SharedBin(table: seq<PllFrequency>, xtal: nat, r: PllReg) returns (i: nat)
    requires TableOk(table, xtal) && Enumerated(r) && InRange(Bin(Calc(r, xtal)))
    ensures i < |table| && EntryOk(table[i], xtal) && Bin(table[i].frequency) == Bin(Calc(r, xtal))
    ensures BinError(table[i].reg, xtal) <= BinError(r, xtal)
  {
    hide Calc, Bin, BinError, TableOk, Before;
    i := EntryOfBin(table, xtal, r);
    assert Preferred(table[i].reg, r, xtal);
  }

  /** The table holds the best divider of every bin that has one, and by `TableOk` nothing else. */
  lemma {:induction false} BestIsInTable(table: seq<PllFrequency>, xtal: nat, e: PllFrequency) returns (i: nat)
    requires TableOk(table, xtal) && EntryOk(e, xtal) && BestOfBin(e, xtal)
    ensures i < |table| && table[i] == e
  {
    hide Calc, Bin, BinError, TableOk, Before;
    i := EntryOfBin(table, xtal, e.reg);
    assert Preferred(table[i].reg, e.reg, xtal);
    assert Preferred(e.reg, table[i].reg, xtal);
    BeforeIsTotal(table[i].reg, e.reg);
  }

  lemma {:induction false} EntryOfBin(table: seq<PllFrequency>, xtal: nat, r: PllReg) returns (i: nat)
    requires TableOk(table, xtal) && Enumerated(r) && InRange(Bin(Calc(r, xtal)))
    ensures i < |table| && EntryOk(table[i], xtal) && BestOfBin(table[i], xtal)
    ensures Bin(table[i].frequency) == Bin(Calc(r, xtal))
  {
    hide Calc, Bin, BestOfBin, Increasing;
    assert HasBinOf(table, r, xtal);
    i :| 0 <= i < |table| && Bin(table[i].frequency) == Bin(Calc(r, xtal));
  }

  lemma {:induction false} BeforeIsTotal(a: PllReg, b: PllReg)
    requires !Before(a, b) && !Before(b, a)
    ensures a == b
  {
  }

  lemma {:induction false} SameBin(x: nat, y: nat)
    requires Bin(x) == Bin(y)
    ensures Distance(x, y) <= 999_999
  {
  }

  /** A divider that hits the centre of its bin is matched by the entry of that bin. */
  lemma {:induction false} ExactEntry(table: seq<PllFrequency>, xtal: nat, r: PllReg, mhz: nat) returns (i: nat)
    requires TableOk(table, xtal) && Enumerated(r) && InRange(mhz) && Calc(r, xtal) == mhz * BIN_SIZE_HZ
    ensures i < |table| && table[i].frequency == mhz * BIN_SIZE_HZ
  {
    hide Calc, TableOk;
    assert Bin(Calc(r, xtal)) == mhz;
    i := SharedBin(table, xtal, r);
  }

  /** Dividers that set 100, 200 and 1200 MHz exactly. */
  lemma {:induction false} Witnesses()
    ensures Calc(PllReg(32, 8, 1, 1), CHIP_OSC_CLK_HZ) == 100_000_000
    ensures Calc(PllReg(32, 4, 1, 1), CHIP_OSC_CLK_HZ) == 200_000_000
    ensures Calc(PllReg(48, 1, 1, 1), CHIP_OSC_CLK_HZ) == 1_200_000_000
  {
  }

  /** At 25 MHz the table spans exactly 100 MHz to 1200 MHz. */
  lemma {:induction false} DefaultSpan(table: seq<PllFrequency>)
    requires TableOk(table, CHIP_OSC_CLK_HZ)
    ensures |table| > 0 && table[0].frequency == 100_000_000 && table[|table| - 1].frequency == 1_200_000_000
  {
    hide Calc, Bin, TableOk;
    Witnesses();
    var i := ExactEntry(table, CHIP_OSC_CLK_HZ, PllReg(32, 8, 1, 1), 100);
    var j := ExactEntry(table, CHIP_OSC_CLK_HZ, PllReg(48, 1, 1, 1), 1200);
    NoneBeyond(table, CHIP_OSC_CLK_HZ, i, 0, 100);
    NoneBeyond(table, CHIP_OSC_CLK_HZ, j, |table| - 1, 1200);
  }

  /** No entry lies beyond one that sits exactly on the first or last supported megahertz. */
  lemma {:induction false} NoneBeyond(table: seq<PllFrequency>, xtal: nat, i: nat, k: nat, mhz: nat)
    requires TableOk(table, xtal) && i < |table| && table[i].frequency == mhz * BIN_SIZE_HZ
    requires (mhz == MIN_MHZ && k == 0) || (mhz == MAX_MHZ && k == |table| - 1)
    ensures table[k].frequency == mhz * BIN_SIZE_HZ
  {
    hide Calc, BestOfBin, HasBinOf;
    assert EntryOk(table[i], xtal) && EntryOk(table[k], xtal);
    EdgeBin(table[k].frequency, mhz);
    EdgeBin(table[i].frequency, mhz);
    OnePerBin(table, xtal, i, k);
  }

  lemma {:induction false} EdgeBin(x: nat, mhz: nat)
    requires InRange(Bin(x))
    requires (mhz == MIN_MHZ && x <= mhz * BIN_SIZE_HZ) || (mhz == MAX_MHZ && x >= mhz * BIN_SIZE_HZ)
    ensures Bin(x) == mhz
  {
  }

  /** Entries of one bin are equally good, so both set the centre frequency if one does. */
  lemma {:induction false} OnePerBin(table: seq<PllFrequency>, xtal: nat, i: nat, k: nat)
    requires TableOk(table, xtal) && i < |table| && k < |table|
    requires Bin(table[i].frequency) == Bin(table[k].frequency)
    requires table[i].frequency == Bin(table[i].frequency) * BIN_SIZE_HZ
    ensures table[k].frequency == table[i].frequency
  {
    hide Calc, Bin, HasBinOf, Increasing;
    assert EntryOk(table[i], xtal) && EntryOk(table[k], xtal) && BestOfBin(table[k], xtal);
    assert Preferred(table[k].reg, table[i].reg, xtal);
  }

  /** At 25 MHz every enumerated divider gives a frequency below 2^32. */
  lemma {:induction false} DefaultFits(r: PllReg)
    requires Enumerated(r)
    ensures FitsUsize(r, CHIP_OSC_CLK_HZ)
  {
    var d := r.refdiv * r.postdiv1 * r.postdiv2;
    assert r.refdiv * r.postdiv1 >= 1;
    assert d >= 1;
    Times(1, d, USIZE_MODULUS);
  }

  /** At 25 MHz no divider makes the rounding sum overflow. */
  lemma {:induction false} DefaultQuiet()
    ensures forall r :: Enumerated(r) ==> !Overflows(Calc(r, CHIP_OSC_CLK_HZ))
  {
    hide Calc;
    forall r | Enumerated(r) ensures !Overflows(Calc(r, CHIP_OSC_CLK_HZ)) { CalcBelow(r, CHIP_OSC_CLK_HZ); }
  }

  lemma {:induction false} QuotientShrinks(n: nat, d: nat)
    requires d >= 1
    ensures Quotient(n, d) <= n
  {
    var q := Quotient(n, d);
    hide Quotient;
    Times(1, d, q);
  }

  lemma {:induction false} CalcBelow(r: PllReg, xtal: nat)
    requires Enumerated(r)
    ensures Calc(r, xtal) <= xtal * r.fbdiv
  {
    hide Quotient, Floor;
    var n := xtal * r.fbdiv;
    var x := Quotient(n, r.refdiv);
    QuotientShrinks(n, r.refdiv);
    QuotientShrinks(x, r.postdiv1);
    QuotientShrinks(Quotient(x, r.postdiv1), r.postdiv2);
  }

  /** At 25 MHz a divider that reaches 200 MHz has a reference divider of at most 15. */
  lemma {:induction false} FastMeansSmallRefdiv(r: PllReg)
    requires Enumerated(r) && Calc(r, CHIP_OSC_CLK_HZ) >= 200_000_000
    ensures r.refdiv <= 15
  {
    var product := CHIP_OSC_CLK_HZ * r.fbdiv;
    if r.refdiv >= 16 {
      Divisions(product, r.refdiv, r.postdiv1, r.postdiv2);
    }
  }

  lemma {:induction false} Divisions(n: nat, a: nat, b: nat, c: nat)
    requires a >= 16 && b >= 1 && c >= 1
    ensures n / a / b / c % USIZE_MODULUS <= n / 16
  {
    DivisionShrinks(n, 16, a);
    DivisionShrinks(n / a, 1, b);
    DivisionShrinks(n / a / b, 1, c);
  }

  lemma {:induction false} DivisionShrinks(n: nat, small: nat, large: nat)
    requires 1 <= small <= large
    ensures n / large <= n / small
  {
    var q, p := n / large, n / small;
    assert q * large <= n && q * small <= q * large;
    assert n < (p + 1) * small;
    assert q * small < (p + 1) * small;
  }

  /**
   PllFrequency::lookup_freq with the table for the chips' oscillator: it succeeds exactly from
   100 MHz to 1200 MHz, the dividers set the reported frequency, it is the nearest of the best
   dividers of all bins, no enumerated divider in a supported bin is better by a whole bin, and from
   200 MHz on the reference divider fits its four-bit register field.
   */
  method LookupFreq(target: nat, checked: bool) returns (r: Option<PllFrequency>)
    ensures r.Some? <==> 100_000_000 <= target <= 1_200_000_000
    ensures r.Some? ==> EntryOk(r.value, CHIP_OSC_CLK_HZ) && BestOfBin(r.value, CHIP_OSC_CLK_HZ)
    ensures r.Some? ==> var reg, f := r.value.reg, r.value.frequency;
                        var divisor := reg.refdiv * reg.postdiv1 * reg.postdiv2;
                        f * divisor <= 25_000_000 * reg.fbdiv < (f + 1) * divisor
    ensures r.Some? ==> forall e :: EntryOk(e, CHIP_OSC_CLK_HZ) && BestOfBin(e, CHIP_OSC_CLK_HZ) ==>
              Distance(r.value.frequency, target) <= Distance(e.frequency, target)
    ensures r.Some? ==> forall d: PllReg, f: nat ::
              && 32 <= d.fbdiv <= 127 && 1 <= d.refdiv <= 63 && 1 <= d.postdiv2 <= d.postdiv1 <= 7
              && Sets(d, 25_000_000, f) && 99_500_000 <= f < 1_200_500_000 ==>
                Distance(r.value.frequency, target) <= Distance(f, target) + 999_999
    ensures r.Some? && target >= 200_000_000 ==> r.value.reg.refdiv <= 15
  {
    hide Overflows, Calc, Sets, EntryOk, BestOfBin, HasBinOf, Nearest, Distance, Increasing;
    DefaultQuiet();
    var table := PrecomputePllTable(CHIP_OSC_CLK_HZ, checked);
    DefaultSpan(table.value);
    r := LookupIn(table.value, target);
    if r.Some? {
      ResultIsGood(table.value, target, r.value);
      ResultSets(r.value);
      ResultIsNear(table.value, target, r.value);
    }
  }

  lemma {:induction false} ResultSets(e: PllFrequency)
    requires EntryOk(e, CHIP_OSC_CLK_HZ)
    ensures var divisor := e.reg.refdiv * e.reg.postdiv1 * e.reg.postdiv2;
            e.frequency * divisor <= 25_000_000 * e.reg.fbdiv < (e.frequency + 1) * divisor
  {
    hide Calc, Bin;
    DefaultFits(e.reg);
    CalcSets(e.reg, CHIP_OSC_CLK_HZ);
  }

  lemma {:induction false} ResultIsNear(table: seq<PllFrequency>, target: nat, e: PllFrequency)
    requires TableOk(table, CHIP_OSC_CLK_HZ) && Nearest(table, target, e)
    ensures forall d: PllReg, f: nat ::
              && 32 <= d.fbdiv <= 127 && 1 <= d.refdiv <= 63 && 1 <= d.postdiv2 <= d.postdiv1 <= 7
              && Sets(d, 25_000_000, f) && 99_500_000 <= f < 1_200_500_000 ==>
                Distance(e.frequency, target) <= Distance(f, target) + 999_999
  {
    hide Calc, Sets, TableOk, Nearest;
    forall d: PllReg, f: nat |
      && 32 <= d.fbdiv <= 127 && 1 <= d.refdiv <= 63 && 1 <= d.postdiv2 <= d.postdiv1 <= 7
      && Sets(d, 25_000_000, f) && 99_500_000 <= f < 1_200_500_000
      ensures Distance(e.frequency, target) <= Distance(f, target) + 999_999
    {
      DefaultFits(d);
      CalcSets(d, CHIP_OSC_CLK_HZ);
      SetsOnce(d, CHIP_OSC_CLK_HZ, f, Calc(d, CHIP_OSC_CLK_HZ));
      assert InRange(Bin(f));
      NearOptimal(table, CHIP_OSC_CLK_HZ, target, e, d);
    }
  }

  lemma {:induction false} ResultIsGood(table: seq<PllFrequency>, target: nat, e: PllFrequency)
    requires TableOk(table, CHIP_OSC_CLK_HZ) && Nearest(table, target, e)
    ensures EntryOk(e, CHIP_OSC_CLK_HZ) && BestOfBin(e, CHIP_OSC_CLK_HZ)
    ensures forall e' :: EntryOk(e', CHIP_OSC_CLK_HZ) && BestOfBin(e', CHIP_OSC_CLK_HZ) ==>
              Distance(e.frequency, target) <= Distance(e'.frequency, target)
    ensures forall d :: Enumerated(d) && InRange(Bin(Calc(d, CHIP_OSC_CLK_HZ))) ==>
              Distance(e.frequency, target) <= Distance(Calc(d, CHIP_OSC_CLK_HZ), target) + 999_999
    ensures target >= 200_000_000 ==> e.reg.refdiv <= 15
  {
    hide Calc, Bin, EntryOk, BestOfBin, TableOk;
    InTable(table, target, e);
    forall e' | EntryOk(e', CHIP_OSC_CLK_HZ) && BestOfBin(e', CHIP_OSC_CLK_HZ)
      ensures Distance(e.frequency, target) <= Distance(e'.frequency, target)
    {
      var i := BestIsInTable(table, CHIP_OSC_CLK_HZ, e');
    }
    forall d | Enumerated(d) && InRange(Bin(Calc(d, CHIP_OSC_CLK_HZ)))
      ensures Distance(e.frequency, target) <= Distance(Calc(d, CHIP_OSC_CLK_HZ), target) + 999_999
    {
      NearOptimal(table, CHIP_OSC_CLK_HZ, target, e, d);
    }
    if target >= 200_000_000 {
      Witnesses();
      var i := ExactEntry(table, CHIP_OSC_CLK_HZ, PllReg(32, 4, 1, 1), 200);
      assert e.frequency >= 200_000_000;
      FastMeansSmallRefdiv(e.reg);
    }
  }

  lemma {:induction false} InTable(table: seq<PllFrequency>, target: nat, e: PllFrequency)
    requires TableOk(table, CHIP_OSC_CLK_HZ) && Nearest(table, target, e)
    ensures EntryOk(e, CHIP_OSC_CLK_HZ) && BestOfBin(e, CHIP_OSC_CLK_HZ)
    ensures Enumerated(e.reg) && e.frequency == Calc(e.reg, CHIP_OSC_CLK_HZ)
  {
    hide Calc, Bin, BestOfBin, HasBinOf, Increasing;
    var i :| 0 <= i < |table| && table[i] == e;
    assert EntryOk(table[i], CHIP_OSC_CLK_HZ) && BestOfBin(table[i], CHIP_OSC_CLK_HZ);
  }
}
