/**
 Counters of a hash chain and the task that receives solutions from the hardware: every solution
 for live work is accounted for once, and no stored work forwards a nonce twice.
 */
module Accounting {
  import opened Wrappers
  import opened Registry

  const CORE_ADR_SPACE_SIZE: nat := 128

  datatype CoreAddress = CoreAddress(chip: nat, core: nat)

  /** CoreAddress::new: bits 2 to 7 of the nonce are the chip, bits 24 to 30 the core. */
  function AddressOf(nonce: nat): (a: CoreAddress)
    ensures a.chip < 64 && a.core < CORE_ADR_SPACE_SIZE
  {
    CoreAddress(nonce / 4 % 64, nonce / 0x100_0000 % 128)
  }

  lemma {:induction false} LowFields(nonce: nat)
    ensures nonce == nonce % 4 + 4 * (nonce / 4 % 64) + 0x100 * (nonce / 0x100)
  {
    assert nonce / 4 / 64 == nonce / 0x100;
  }

  lemma {:induction false} HighFields(nonce: nat)
    ensures nonce / 0x100 == nonce / 0x100 % 0x1_0000 + 0x1_0000 * (nonce / 0x100_0000)
    ensures nonce / 0x100_0000 == nonce / 0x100_0000 % 128 + 128 * (nonce / 0x8000_0000)
  {
    assert nonce / 0x100 / 0x1_0000 == nonce / 0x100_0000;
    assert nonce / 0x100_0000 / 128 == nonce / 0x8000_0000;
  }

  /** Where the two fields lie in a 32-bit nonce. */
  lemma {:induction false} AddressFields(nonce: nat)
    requires nonce < 0x1_0000_0000
    ensures var a := AddressOf(nonce);
            nonce == nonce % 4 + 4 * a.chip + 0x100 * (nonce / 0x100 % 0x1_0000) + 0x100_0000 * a.core +
            0x8000_0000 * (nonce / 0x8000_0000)
  {
    LowFields(nonce);
    HighFields(nonce);
  }

  datatype Core = Core(valid: nat, errors: nat)

  datatype Chip = Chip(core: seq<Core>, valid: nat, errors: nat)

  datatype Counters = Counters(chip: seq<Chip>, valid: nat, errors: nat, asicDifficulty: nat)

  const NEW_CHIP := Chip(seq(CORE_ADR_SPACE_SIZE, _ => Core(0, 0)), 0, 0)

  function NewCounters(chips: nat, asicDifficulty: nat): Counters {
    Counters(seq(chips, _ => NEW_CHIP), 0, 0, asicDifficulty)
  }

  ghost predicate Shaped(c: Counters) {
    forall i :: 0 <= i < |c.chip| ==> |c.chip[i].core| == CORE_ADR_SPACE_SIZE
  }

  /** Adds to a core, its chip and the chain; a nonce from a chip that does not exist is not counted. */
  function Add(c: Counters, a: CoreAddress, valid: nat, errors: nat): (c': Counters)
    requires Shaped(c) && a.core < CORE_ADR_SPACE_SIZE
    ensures Shaped(c') && |c'.chip| == |c.chip| && c'.asicDifficulty == c.asicDifficulty
  {
    if a.chip >= |c.chip| then c
    else
      var chip := c.chip[a.chip];
      var core := Core(chip.core[a.core].valid + valid, chip.core[a.core].errors + errors);
      var chip' := Chip(chip.core[a.core := core], chip.valid + valid, chip.errors + errors);
      c.(chip := c.chip[a.chip := chip'], valid := c.valid + valid, errors := c.errors + errors)
  }

  function CountValid(c: Counters, a: CoreAddress): (c': Counters)
    requires Shaped(c) && a.core < CORE_ADR_SPACE_SIZE
    ensures Shaped(c') && |c'.chip| == |c.chip| && c'.asicDifficulty == c.asicDifficulty
  {
    Add(c, a, c.asicDifficulty, 0)
  }

  function CountError(c: Counters, a: CoreAddress): (c': Counters)
    requires Shaped(c) && a.core < CORE_ADR_SPACE_SIZE
    ensures Shaped(c') && |c'.chip| == |c.chip| && c'.asicDifficulty == c.asicDifficulty
  {
    Add(c, a, 0, 1)
  }

  function Resize(c: Counters, chips: nat): Counters {
    c.(chip := if chips <= |c.chip| then c.chip[..chips] else c.chip + seq(chips - |c.chip|, _ => NEW_CHIP))
  }

  // ----- Totals -----

  function CoreValid(cores: seq<Core>): nat {
    if cores == [] then 0 else CoreValid(cores[..|cores| - 1]) + cores[|cores| - 1].valid
  }

  function CoreErrors(cores: seq<Core>): nat {
    if cores == [] then 0 else CoreErrors(cores[..|cores| - 1]) + cores[|cores| - 1].errors
  }

  function ChipValid(chips: seq<Chip>): nat {
    if chips == [] then 0 else ChipValid(chips[..|chips| - 1]) + chips[|chips| - 1].valid
  }

  function ChipErrors(chips: seq<Chip>): nat {
    if chips == [] then 0 else ChipErrors(chips[..|chips| - 1]) + chips[|chips| - 1].errors
  }

  ghost predicate ChipTotals(chip: Chip) {
    chip.valid == CoreValid(chip.core) && chip.errors == CoreErrors(chip.core)
  }

  /** The chain's totals are the sums over its chips, and each chip's the sums over its cores. */
  ghost predicate Totals(c: Counters) {
    && c.valid == ChipValid(c.chip) && c.errors == ChipErrors(c.chip)
    && forall i :: 0 <= i < |c.chip| ==> ChipTotals(c.chip[i])
  }

  lemma {:induction false} CoreUpdate(cores: seq<Core>, i: nat, x: Core)
    requires i < |cores|
    ensures CoreValid(cores[i := x]) == CoreValid(cores) - cores[i].valid + x.valid
    ensures CoreErrors(cores[i := x]) == CoreErrors(cores) - cores[i].errors + x.errors
  {
    var last := |cores| - 1;
    if i == last {
      assert cores[i := x][..last] == cores[..last];
    } else {
      assert cores[i := x][..last] == cores[..last][i := x];
      CoreUpdate(cores[..last], i, x);
    }
  }

  lemma {:induction false} ChipUpdate(chips: seq<Chip>, i: nat, x: Chip)
    requires i < |chips|
    ensures ChipValid(chips[i := x]) == ChipValid(chips) - chips[i].valid + x.valid
    ensures ChipErrors(chips[i := x]) == ChipErrors(chips) - chips[i].errors + x.errors
  {
    var last := |chips| - 1;
    if i == last {
      assert chips[i := x][..last] == chips[..last];
    } else {
      assert chips[i := x][..last] == chips[..last][i := x];
      ChipUpdate(chips[..last], i, x);
    }
  }

  lemma {:induction false} AddKeepsTotals(c: Counters, a: CoreAddress, valid: nat, errors: nat)
    requires Shaped(c) && Totals(c) && a.core < CORE_ADR_SPACE_SIZE
    ensures Totals(Add(c, a, valid, errors))
  {
    hide CoreValid, CoreErrors, ChipValid, ChipErrors;
    if a.chip < |c.chip| {
      var chip, chip' := c.chip[a.chip], Add(c, a, valid, errors).chip[a.chip];
      CoreUpdate(chip.core, a.core, chip'.core[a.core]);
      ChipUpdate(c.chip, a.chip, chip');
      assert ChipTotals(chip);
    }
  }

  lemma {:induction false} ZeroCores(n: nat)
    ensures CoreValid(seq(n, _ => Core(0, 0))) == 0 && CoreErrors(seq(n, _ => Core(0, 0))) == 0
  {
    if n > 0 {
      assert seq(n, _ => Core(0, 0))[..n - 1] == seq(n - 1, _ => Core(0, 0));
      ZeroCores(n - 1);
    }
  }

  lemma {:induction false} AppendZeroChips(chips: seq<Chip>, n: nat)
    ensures ChipValid(chips + seq(n, _ => NEW_CHIP)) == ChipValid(chips)
    ensures ChipErrors(chips + seq(n, _ => NEW_CHIP)) == ChipErrors(chips)
  {
    var longer := chips + seq(n, _ => NEW_CHIP);
    if n == 0 {
      assert longer == chips;
    } else {
      assert longer[..|longer| - 1] == chips + seq(n - 1, _ => NEW_CHIP);
      AppendZeroChips(chips, n - 1);
    }
  }

  lemma {:induction false} NewCountersTotals(chips: nat, asicDifficulty: nat)
    ensures Shaped(NewCounters(chips, asicDifficulty)) && Totals(NewCounters(chips, asicDifficulty))
  {
    AppendZeroChips([], chips);
    assert [] + seq(chips, _ => NEW_CHIP) == seq(chips, _ => NEW_CHIP);
    ZeroCores(CORE_ADR_SPACE_SIZE);
  }

  lemma {:induction false} SplitChips(chips: seq<Chip>, n: nat)
    requires n <= |chips|
    ensures ChipValid(chips) == ChipValid(chips[..n]) + ChipValid(chips[n..])
    ensures ChipErrors(chips) == ChipErrors(chips[..n]) + ChipErrors(chips[n..])
  {
    if n == |chips| {
      assert chips[..n] == chips;
    } else {
      var last := |chips| - 1;
      SplitChips(chips[..last], n);
      assert chips[..last][..n] == chips[..n] && chips[..last][n..] == chips[n..][..last - n];
    }
  }

  /** Changing the number of chips keeps the totals exactly when the chips that go have nothing counted. */
  lemma {:induction false} ResizeKeepsTotals(c: Counters, chips: nat)
    requires Totals(c)
    ensures Totals(Resize(c, chips)) <==>
            chips >= |c.chip| || (ChipValid(c.chip[chips..]) == 0 && ChipErrors(c.chip[chips..]) == 0)
  {
    hide ChipValid, ChipErrors;
    if chips > |c.chip| {
      AppendZeroChips(c.chip, chips - |c.chip|);
      ZeroCores(CORE_ADR_SPACE_SIZE);
    } else if chips == |c.chip| {
      assert c.chip[..chips] == c.chip;
    } else {
      SplitChips(c.chip, chips);
    }
  }

  // ----- Receiving solutions -----

  datatype Chain<W> = Chain(slots: Slots<W>, counters: Counters, forwarded: seq<(W, Solution)>)

  /** What happens to a chain; `meets` tells whether the hash of a solution meets the ASIC target. */
  datatype Event<W> =
    | Stored(work: W, initialWork: bool)
    | Solved(id: nat, sol: Solution, meets: bool)
    | CountersReset

  /** One round of solution_rx_task. */
  function Receive<W>(c: Chain<W>, id: nat, sol: Solution, meets: bool): Chain<W>
    requires id < |c.slots.pending| && Shaped(c.counters)
  {
    var slot := c.slots.pending[id];
    if slot.None? || slot.value.initialWork then c
    else
      var addr, slots := AddressOf(sol.nonce), SlotsInsert(c.slots, id, sol);
      if Known(slot.value, sol.nonce) then c.(slots := slots, counters := CountError(c.counters, addr))
      else Chain(slots, if meets then CountValid(c.counters, addr) else CountError(c.counters, addr),
                 c.forwarded + [(slot.value.work, sol)])
  }

  ghost predicate WellFormed<W>(n: nat, events: seq<Event<W>>) {
    forall i :: 0 <= i < |events| && events[i].Solved? ==> events[i].id < n
  }

  /** The chain after the events, with `n` work ids and `chips` chips. */
  function After<W>(n: nat, chips: nat, asicDifficulty: nat, events: seq<Event<W>>): (c: Chain<W>)
    requires n >= 1 && WellFormed(n, events)
    ensures |c.slots.pending| == n && c.slots.next < n
    ensures Shaped(c.counters) && |c.counters.chip| == chips && c.counters.asicDifficulty == asicDifficulty
    decreases |events|
  {
    if events == [] then Chain(Empty(n), NewCounters(chips, asicDifficulty), [])
    else
      var c := After(n, chips, asicDifficulty, events[..|events| - 1]);
      match events[|events| - 1]
      case Stored(work, initialWork) => c.(slots := SlotsStore(c.slots, work, initialWork))
      case Solved(id, sol, meets) => Receive(c, id, sol, meets)
      case CountersReset => c.(counters := NewCounters(chips, asicDifficulty))
  }

  // ----- What should be counted -----

  /** The list of stored works, as in Registry; a solution for initial work is ignored. */
  function LogOf<W>(n: nat, events: seq<Event<W>>): seq<Item<W>>
    requires n >= 1
    decreases |events|
  {
    if events == [] then []
    else
      var log := LogOf(n, events[..|events| - 1]);
      match events[|events| - 1]
      case Stored(work, initialWork) => log + [Item(work, [], initialWork)]
      case Solved(id, sol, _) =>
        var k := Live(log, n, id);
        if k.Some? && !log[k.value].initialWork then log[k.value := Inserted(log[k.value], sol)] else log
      case CountersReset => log
  }

  /** The solution is for live work that is not initial work, and comes from a chip that exists. */
  predicate Countable<W>(n: nat, chips: nat, log: seq<Item<W>>, id: nat, sol: Solution)
    requires n >= 1
  {
    Live(log, n, id).Some? && !log[Live(log, n, id).value].initialWork && AddressOf(sol.nonce).chip < chips
  }

  /** The solution is new for its work and meets the target. */
  predicate Good<W>(n: nat, log: seq<Item<W>>, id: nat, sol: Solution, meets: bool)
    requires n >= 1 && Live(log, n, id).Some?
  {
    !Known(log[Live(log, n, id).value], sol.nonce) && meets
  }

  /** How many countable solutions came since the last reset, and how many of them were good. */
  function Counted<W>(n: nat, chips: nat, events: seq<Event<W>>): (r: (nat, nat))
    requires n >= 1
    decreases |events|
  {
    if events == [] then (0, 0)
    else
      var before, log := Counted(n, chips, events[..|events| - 1]), LogOf(n, events[..|events| - 1]);
      match events[|events| - 1]
      case Stored(_, _) => before
      case CountersReset => (0, 0)
      case Solved(id, sol, meets) =>
        if !Countable(n, chips, log, id, sol) then before
        else (before.0 + 1, before.1 + if Good(n, log, id, sol, meets) then 1 else 0)
  }

  /** What is forwarded, in order: the number of the stored work and the solution. */
  function ForwardedBy<W>(n: nat, events: seq<Event<W>>): seq<(nat, Solution)>
    requires n >= 1
    decreases |events|
  {
    if events == [] then []
    else
      var before, log := ForwardedBy(n, events[..|events| - 1]), LogOf(n, events[..|events| - 1]);
      match events[|events| - 1]
      case Solved(id, sol, _) =>
        var k := Live(log, n, id);
        if k.Some? && !log[k.value].initialWork && !Known(log[k.value], sol.nonce) then before + [(k.value, sol)]
        else before
      case _ => before
  }

  /**
   The forwarded solutions are those of `fwd`, each with the work it was stored for, and no stored
   work forwards one nonce twice.
   */
  ghost predicate ForwardedOnce<W>(forwarded: seq<(W, Solution)>, fwd: seq<(nat, Solution)>, log: seq<Item<W>>) {
    && |forwarded| == |fwd|
    && (forall i :: 0 <= i < |fwd| ==>
          fwd[i].0 < |log| && forwarded[i] == (log[fwd[i].0].work, fwd[i].1) && Known(log[fwd[i].0], fwd[i].1.nonce))
    && (forall i, j :: 0 <= i < j < |fwd| && fwd[i].0 == fwd[j].0 ==> fwd[i].1.nonce != fwd[j].1.nonce)
  }

  // ----- The balance -----

  /** valid and errors, for so many countable and so many good solutions. */
  ghost predicate CountersShow(c: Counters, counted: (nat, nat)) {
    && counted.1 <= counted.0
    && c.valid == counted.1 * c.asicDifficulty
    && c.errors == counted.0 - counted.1
  }

  ghost predicate Balanced<W>(n: nat, chips: nat, c: Chain<W>, log: seq<Item<W>>, counted: (nat, nat),
                              fwd: seq<(nat, Solution)>) {
    && |c.slots.pending| == n && n >= 1 && Refines(c.slots, log)
    && Shaped(c.counters) && |c.counters.chip| == chips && Totals(c.counters)
    && CountersShow(c.counters, counted)
    && ForwardedOnce(c.forwarded, fwd, log)
  }

  lemma {:induction false} StoredKeepsBalance<W>(n: nat, chips: nat, c: Chain<W>, log: seq<Item<W>>,
                                                 counted: (nat, nat), fwd: seq<(nat, Solution)>,
                                                 work: W, initialWork: bool)
    requires Balanced(n, chips, c, log, counted, fwd) && c.slots.next < n
    ensures Balanced(n, chips, c.(slots := SlotsStore(c.slots, work, initialWork)),
                     log + [Item(work, [], initialWork)], counted, fwd)
  {
    hide Refines, Totals;
    StoreRefines(c.slots, log, work, initialWork);
  }

  /** A solution counts as good or as an error when it is countable, and not at all otherwise. */
  lemma {:induction false} CountKept(c: Counters, counted: (nat, nat), a: CoreAddress, good: bool)
    requires Shaped(c) && Totals(c) && CountersShow(c, counted) && a.core < CORE_ADR_SPACE_SIZE
    ensures var c' := if good then CountValid(c, a) else CountError(c, a);
            && Totals(c')
            && CountersShow(c', if a.chip < |c.chip| then (counted.0 + 1, counted.1 + if good then 1 else 0)
                                else counted)
  {
    hide Totals;
    AddKeepsTotals(c, a, c.asicDifficulty, 0);
    AddKeepsTotals(c, a, 0, 1);
    assert (counted.1 + 1) * c.asicDifficulty == counted.1 * c.asicDifficulty + c.asicDifficulty;
  }

  lemma {:induction false} ForwardKept<W>(forwarded: seq<(W, Solution)>, fwd: seq<(nat, Solution)>, log: seq<Item<W>>,
                                          k: nat, sol: Solution)
    requires ForwardedOnce(forwarded, fwd, log) && k < |log|
    ensures var log' := log[k := Inserted(log[k], sol)];
            if Known(log[k], sol.nonce) then ForwardedOnce(forwarded, fwd, log')
            else ForwardedOnce(forwarded + [(log[k].work, sol)], fwd + [(k, sol)], log')
  {
    var item := Inserted(log[k], sol);
    forall nonce | Known(log[k], nonce) ensures Known(item, nonce) {
      var i :| 0 <= i < |log[k].solutions| && log[k].solutions[i].nonce == nonce;
      assert item.solutions[i] == log[k].solutions[i];
    }
    if !Known(log[k], sol.nonce) {
      assert item.solutions[|log[k].solutions|] == sol;
      assert Known(item, sol.nonce);
    }
  }

  lemma {:induction false} ReceiveKeepsBalance<W>(n: nat, chips: nat, c: Chain<W>, log: seq<Item<W>>,
                                                  counted: (nat, nat), fwd: seq<(nat, Solution)>,
                                                  id: nat, sol: Solution, meets: bool)
    requires Balanced(n, chips, c, log, counted, fwd) && id < n
    ensures var k := Live(log, n, id);
            var log' := if k.Some? && !log[k.value].initialWork then log[k.value := Inserted(log[k.value], sol)]
                        else log;
            var fwd' := if k.Some? && !log[k.value].initialWork && !Known(log[k.value], sol.nonce)
                        then fwd + [(k.value, sol)] else fwd;
            var counted' := if !Countable(n, chips, log, id, sol) then counted
                            else (counted.0 + 1, counted.1 + if Good(n, log, id, sol, meets) then 1 else 0);
            Balanced(n, chips, Receive(c, id, sol, meets), log', counted', fwd')
  {
    hide Totals, Live, AddressOf, ForwardedOnce, Known, CountersShow, CountValid, CountError, Inserted;
    var k := Live(log, n, id);
    assert c.slots.pending[id] == if k.Some? then Some(log[k.value]) else None;
    if k.Some? && !log[k.value].initialWork {
      InsertRefines(c.slots, log, id, sol);
      ForwardKept(c.forwarded, fwd, log, k.value, sol);
      CountKept(c.counters, counted, AddressOf(sol.nonce), !Known(log[k.value], sol.nonce) && meets);
    }
  }

  /**
   Over every run: since the last reset, valid is the ASIC difficulty times the good solutions and
   errors is the number of all other countable ones, so valid / difficulty + errors is the number of
   hardware solutions for live, non-initial work from existing chips; chain, chip and core totals
   agree; and no stored work forwards one nonce twice.
   */
  lemma {:induction false} AccountsBalance<W>(n: nat, chips: nat, asicDifficulty: nat, events: seq<Event<W>>)
    requires n >= 1 && WellFormed(n, events)
    ensures Balanced(n, chips, After(n, chips, asicDifficulty, events), LogOf(n, events), Counted(n, chips, events),
                     ForwardedBy(n, events))
  {
    hide Balanced, Receive, SlotsStore, Inserted, Known, Live, NewCounters, Countable, Good;
    if events == [] {
      BalancedAtFirst<W>(n, chips, asicDifficulty);
    } else {
      var before := events[..|events| - 1];
      AccountsBalance(n, chips, asicDifficulty, before);
      var c, log, counted := After(n, chips, asicDifficulty, before), LogOf(n, before), Counted(n, chips, before);
      var fwd := ForwardedBy(n, before);
      match events[|events| - 1]
      case Stored(work, initialWork) => StoredKeepsBalance(n, chips, c, log, counted, fwd, work, initialWork);
      case Solved(id, sol, meets) => ReceiveKeepsBalance(n, chips, c, log, counted, fwd, id, sol, meets);
      case CountersReset => ResetBalances(n, chips, c, log, counted, fwd);
    }
  }

  lemma {:induction false} BalancedAtFirst<W>(n: nat, chips: nat, asicDifficulty: nat)
    requires n >= 1
    ensures Balanced(n, chips, Chain(Empty<W>(n), NewCounters(chips, asicDifficulty), []), [], (0, 0), [])
  {
    NewCountersTotals(chips, asicDifficulty);
    SlotsRefineLog<W>(n, []);
  }

  lemma {:induction false} ResetBalances<W>(n: nat, chips: nat, c: Chain<W>, log: seq<Item<W>>, counted: (nat, nat),
                                            fwd: seq<(nat, Solution)>)
    requires Balanced(n, chips, c, log, counted, fwd)
    ensures Balanced(n, chips, c.(counters := NewCounters(chips, c.counters.asicDifficulty)), log, (0, 0), fwd)
  {
    NewCountersTotals(chips, c.counters.asicDifficulty);
  }

  // ----- Core by core -----

  /** How many countable solutions of one core came since the last reset, and how many of them were good. */
  function CountedAt<W>(n: nat, chips: nat, events: seq<Event<W>>, a: CoreAddress): (r: (nat, nat))
    requires n >= 1
    ensures r.1 <= r.0
    decreases |events|
  {
    if events == [] then (0, 0)
    else
      var before, log := CountedAt(n, chips, events[..|events| - 1], a), LogOf(n, events[..|events| - 1]);
      match events[|events| - 1]
      case Stored(_, _) => before
      case CountersReset => (0, 0)
      case Solved(id, sol, meets) =>
        if !Countable(n, chips, log, id, sol) || AddressOf(sol.nonce) != a then before
        else (before.0 + 1, before.1 + if Good(n, log, id, sol, meets) then 1 else 0)
  }

  ghost predicate CoreShows(c: Counters, a: CoreAddress, counted: (nat, nat)) {
    && a.chip < |c.chip| && a.core < |c.chip[a.chip].core| && counted.1 <= counted.0
    && c.chip[a.chip].core[a.core].valid == counted.1 * c.asicDifficulty
    && c.chip[a.chip].core[a.core].errors == counted.0 - counted.1
  }

  lemma {:induction false} CoreKept(c: Counters, at: CoreAddress, counted: (nat, nat), a: CoreAddress, good: bool)
    requires Shaped(c) && CoreShows(c, at, counted) && a.core < CORE_ADR_SPACE_SIZE
    ensures CoreShows(if good then CountValid(c, a) else CountError(c, a), at,
                      if a == at then (counted.0 + 1, counted.1 + if good then 1 else 0) else counted)
  {
    assert (counted.1 + 1) * c.asicDifficulty == counted.1 * c.asicDifficulty + c.asicDifficulty;
  }

  /** Over every run each core's counters show the solutions that came from it, and no others. */
  lemma {:induction false} CoresBalance<W>(
      n: nat, chips: nat, asicDifficulty: nat, events: seq<Event<W>>, a: CoreAddress)
    requires n >= 1 && WellFormed(n, events) && a.chip < chips && a.core < CORE_ADR_SPACE_SIZE
    ensures CoreShows(After(n, chips, asicDifficulty, events).counters, a, CountedAt(n, chips, events, a))
  {
    hide SlotsStore, SlotsInsert, Inserted, Known, Live, CountValid, CountError, AddressOf, CoreShows;
    if events == [] {
      NewCoreShows(chips, asicDifficulty, a);
    } else {
      var before := events[..|events| - 1];
      CoresBalance(n, chips, asicDifficulty, before, a);
      var c, log := After(n, chips, asicDifficulty, before), LogOf(n, before);
      match events[|events| - 1]
      case Stored(_, _) =>
      case CountersReset => NewCoreShows(chips, asicDifficulty, a);
      case Solved(id, sol, meets) =>
        AccountsBalance(n, chips, asicDifficulty, before);
        var k := Live(log, n, id);
        assert c.slots.pending[id] == if k.Some? then Some(log[k.value]) else None;
        if k.Some? {
          var good := !Known(log[k.value], sol.nonce) && meets;
          CoreKept(c.counters, a, CountedAt(n, chips, before, a), AddressOf(sol.nonce), good);
        }
    }
  }

  lemma {:induction false} NewCoreShows(chips: nat, asicDifficulty: nat, a: CoreAddress)
    requires a.chip < chips && a.core < CORE_ADR_SPACE_SIZE
    ensures CoreShows(NewCounters(chips, asicDifficulty), a, (0, 0))
  {
  }

  // ----- The objects -----

  class HashChain {
    var chip: seq<Chip>
    var valid: nat
    var errors: nat
    const asicDifficulty: nat

    ghost function View(): Counters
      reads this
    {
      Counters(chip, valid, errors, asicDifficulty)
    }

    constructor (chipCount: nat, asicDifficulty: nat)
      ensures View() == NewCounters(chipCount, asicDifficulty)
    {
      valid, errors := 0, 0;
      chip := seq(chipCount, _ => NEW_CHIP);
      this.asicDifficulty := asicDifficulty;
    }

    /** Sets every core, every chip and the chain back to zero. */
    method Reset()
      requires Shaped(View())
      modifies this
      ensures View() == NewCounters(|old(chip)|, asicDifficulty)
    {
      valid, errors := 0, 0;
      for i := 0 to |chip|
        invariant |chip| == |old(chip)| && Shaped(View()) && valid == 0 && errors == 0
        invariant forall j :: 0 <= j < i ==> chip[j] == NEW_CHIP
      {
        var cores := chip[i].core;
        for j := 0 to |cores|
          invariant |cores| == CORE_ADR_SPACE_SIZE
          invariant forall k :: 0 <= k < j ==> cores[k] == Core(0, 0)
        {
          cores := cores[j := Core(0, 0)];
        }
        assert cores == NEW_CHIP.core;
        chip := chip[i := Chip(cores, 0, 0)];
      }
      assert chip == seq(|old(chip)|, _ => NEW_CHIP);
    }

    method AddValid(addr: CoreAddress)
      requires Shaped(View()) && addr.core < CORE_ADR_SPACE_SIZE
      modifies this
      ensures View() == CountValid(old(View()), addr)
    {
      if addr.chip >= |chip| {
        return;
      }
      valid := valid + asicDifficulty;
      var c := chip[addr.chip];
      c := c.(valid := c.valid + asicDifficulty);
      c := c.(core := c.core[addr.core := c.core[addr.core].(valid := c.core[addr.core].valid + asicDifficulty)]);
      chip := chip[addr.chip := c];
    }

    method AddError(addr: CoreAddress)
      requires Shaped(View()) && addr.core < CORE_ADR_SPACE_SIZE
      modifies this
      ensures View() == CountError(old(View()), addr)
    {
      if addr.chip >= |chip| {
        return;
      }
      errors := errors + 1;
      var c := chip[addr.chip];
      c := c.(errors := c.errors + 1);
      c := c.(core := c.core[addr.core := c.core[addr.core].(errors := c.core[addr.core].errors + 1)]);
      chip := chip[addr.chip := c];
    }

    method SetChipCount(chipCount: nat)
      modifies this`chip
      ensures View() == Resize(old(View()), chipCount)
    {
      if chipCount <= |chip| {
        chip := chip[..chipCount];
      } else {
        chip := chip + seq(chipCount - |chip|, _ => NEW_CHIP);
      }
    }
  }

  /** A solution from the hardware; `meets` tells whether its hash meets the ASIC target. */
  datatype HwSolution = HwSolution(id: nat, sol: Solution, meets: bool)

  /** The rounds of solution_rx_task one after the other. */
  function ReceiveAll<W>(c: Chain<W>, hw: seq<HwSolution>): (c': Chain<W>)
    requires Shaped(c.counters) && forall i :: 0 <= i < |hw| ==> hw[i].id < |c.slots.pending|
    ensures Shaped(c'.counters) && |c'.slots.pending| == |c.slots.pending|
    decreases |hw|
  {
    if hw == [] then c
    else
      var last := hw[|hw| - 1];
      Receive(ReceiveAll(c, hw[..|hw| - 1]), last.id, last.sol, last.meets)
  }

  /** solution_rx_task on a finite stream of hardware solutions. */
  method SolutionRxTask<W>(registry: WorkRegistry<W>, counter: HashChain, hw: seq<HwSolution>)
    returns (forwarded: seq<(W, Solution)>)
    requires registry.Valid() && Shaped(counter.View())
    requires forall i :: 0 <= i < |hw| ==> hw[i].id < registry.registrySize
    modifies registry, counter
    ensures registry.Valid()
    ensures Chain(registry.View(), counter.View(), forwarded) ==
            ReceiveAll(Chain(old(registry.View()), old(counter.View()), []), hw)
  {
    forwarded := [];
    ghost var start := Chain(registry.View(), counter.View(), []);
    for i := 0 to |hw|
      invariant registry.Valid() && Shaped(counter.View())
      invariant Chain(registry.View(), counter.View(), forwarded) == ReceiveAll(start, hw[..i])
    {
      hide CountValid, CountError, SlotsInsert, AddressOf;
      assert hw[..i + 1][..i] == hw[..i];
      var id, sol := hw[i].id, hw[i].sol;
      var item := registry.FindWork(id);
      if item.Some? && !item.value.initialWork {
        var coreAddr := AddressOf(sol.nonce);
        var duplicate := registry.InsertSolution(id, sol);
        if !duplicate {
          if !hw[i].meets {
            counter.AddError(coreAddr);
          } else {
            counter.AddValid(coreAddr);
          }
          forwarded := forwarded + [(item.value.work, sol)];
        }
        if duplicate {
          counter.AddError(coreAddr);
        }
      }
    }
    assert hw[..|hw|] == hw;
  }
}
