/**
 The work registry: a circular array of slots that hands out work ids and retires old work half a
 turn later. It refines a plain list of everything ever stored, of which the last few are live.
 */
module Registry {
  import opened Wrappers

  /** A solution reported by the hardware. */
  datatype Solution = Solution(nonce: nat, midstateIdx: nat, solutionIdx: nat)

  /** A stored work, the solutions accepted for it so far, and whether it only initialises the chips. */
  datatype Item<W> = Item(work: W, solutions: seq<Solution>, initialWork: bool)

  // ----- Slots -----

  datatype Slots<W> = Slots(next: nat, pending: seq<Option<Item<W>>>)

  function Empty<W>(n: nat): Slots<W> {
    Slots(0, seq(n, _ => None))
  }

  function SlotsStore<W>(s: Slots<W>, work: W, initialWork: bool): Slots<W>
    requires s.next < |s.pending|
  {
    var n, id := |s.pending|, s.next;
    Slots((id + 1) % n, s.pending[(id + n / 2) % n := None][id := Some(Item(work, [], initialWork))])
  }

  predicate Known<W>(item: Item<W>, nonce: nat) {
    exists i :: 0 <= i < |item.solutions| && item.solutions[i].nonce == nonce
  }

  /** insert_solution: a nonce seen before is a duplicate and is not recorded again. */
  function Inserted<W>(item: Item<W>, sol: Solution): Item<W> {
    if Known(item, sol.nonce) then item else item.(solutions := item.solutions + [sol])
  }

  ghost predicate DistinctNonces(solutions: seq<Solution>) {
    forall i, j :: 0 <= i < j < |solutions| ==> solutions[i].nonce != solutions[j].nonce
  }

  /** A stored work records every nonce that was inserted, and records it once. */
  lemma {:induction false} RecordedOnce<W>(item: Item<W>, sol: Solution)
    requires DistinctNonces(item.solutions)
    ensures var item' := Inserted(item, sol);
            && DistinctNonces(item'.solutions) && Known(item', sol.nonce)
            && (forall nonce :: nonce != sol.nonce ==> (Known(item', nonce) <==> Known(item, nonce)))
            && item' == item.(solutions := item'.solutions)
  {
    var item' := Inserted(item, sol);
    if !Known(item, sol.nonce) {
      assert item'.solutions[|item.solutions|] == sol;
    }
    forall nonce | nonce != sol.nonce ensures Known(item', nonce) <==> Known(item, nonce) {
      if Known(item, nonce) {
        var i :| 0 <= i < |item.solutions| && item.solutions[i].nonce == nonce;
        assert item'.solutions[i].nonce == nonce;
      }
    }
  }

  function SlotsInsert<W>(s: Slots<W>, id: nat, sol: Solution): Slots<W>
    requires id < |s.pending| && s.pending[id].Some?
  {
    s.(pending := s.pending[id := Some(Inserted(s.pending[id].value, sol))])
  }

  // ----- The sliding window -----

  /** How many of the stored works are live in a registry with `n` slots. */
  function Window(n: nat): (w: nat)
    ensures n >= 1 ==> 1 <= w <= n
    ensures n >= 2 ==> w < n
  {
    n - n / 2
  }

  /** Among stores `m - w` to `m - 1`, the one with this id modulo `n`. */
  function FindBack(m: nat, w: nat, n: nat, id: nat): (k: Option<nat>)
    requires n >= 1
    ensures k.Some? ==> k.value < m && m - k.value <= w && k.value % n == id
    ensures k.None? ==> forall j :: 0 <= j < m && m - j <= w ==> j % n != id
  {
    if m == 0 || w == 0 then None
    else if (m - 1) % n == id then Some(m - 1)
    else FindBack(m - 1, w - 1, n, id)
  }

  /** The live store that was given `id`. */
  function Live<W>(log: seq<Item<W>>, n: nat, id: nat): (k: Option<nat>)
    requires n >= 1
    ensures k.Some? ==> k.value < |log|
  {
    FindBack(|log|, Window(n), n, id)
  }

  /** The slots show exactly the live part of the log. */
  ghost predicate Refines<W>(s: Slots<W>, log: seq<Item<W>>) {
    var n := |s.pending|;
    && n >= 1 && s.next == |log| % n
    && forall id :: 0 <= id < n ==>
         s.pending[id] == if Live(log, n, id).Some? then Some(log[Live(log, n, id).value]) else None
  }

  // ----- Modular arithmetic -----

  /** No multiple of `n` lies strictly between 0 and `n`. */
  lemma {:induction false} MultipleBetween(n: nat, q: int, d: nat)
    requires n >= 1 && d == n * q && d < n
    ensures d == 0
  {
    if q <= 0 {
      assert n * q <= 0;
    }
  }

  lemma {:induction false} ModDistinct(a: nat, b: nat, n: nat)
    requires n >= 1 && a < b < a + n
    ensures a % n != b % n
  {
    if a % n == b % n {
      var q := b / n - a / n;
      MultipleBetween(n, q, b - a);
    }
  }

  lemma {:induction false} ModAdd(a: nat, c: nat, n: nat)
    requires n >= 1
    ensures (a % n + c) % n == (a + c) % n
  {
    ModMultiple(a % n + c, a / n, n);
    assert a % n + c + n * (a / n) == a + c;
  }

  lemma {:induction false} ModMultiple(r: nat, q: nat, n: nat)
    requires n >= 1
    ensures (r + n * q) % n == r % n
  {
    if q > 0 {
      ModMultiple(r, q - 1, n);
      ModShift(r + n * (q - 1), n);
      assert r + n * (q - 1) + n == r + n * q;
    }
  }

  lemma {:induction false} ModShift(a: nat, n: nat)
    requires n >= 1
    ensures (a + n) % n == a % n
  {
    var r, r' := (a + n) % n, a % n;
    var q := (a + n) / n - a / n - 1;
    assert n * q == r' - r;
    if r' >= r {
      MultipleBetween(n, q, r' - r);
    } else {
      assert n * -q == r - r';
      MultipleBetween(n, -q, r - r');
    }
  }

  // ----- Refinement -----

  /** At most one store of a window has a given id. */
  lemma {:induction false} LiveIs(m: nat, w: nat, n: nat, id: nat, k: nat)
    requires n >= 1 && w <= n && k < m && m - k <= w && k % n == id
    ensures FindBack(m, w, n, id) == Some(k)
  {
    var j := FindBack(m, w, n, id);
    if j.Some? && j.value < k { ModDistinct(j.value, k, n); }
    if j.Some? && j.value > k { ModDistinct(k, j.value, n); }
  }

  /** After one more store, the live store of an id is the new one, or the old one unless it just retired. */
  lemma {:induction false} LiveAfterStore(m: nat, n: nat, id: nat)
    requires n >= 1 && id < n
    ensures FindBack(m + 1, Window(n), n, id) ==
            if id == m % n then Some(m)
            else if id == (m % n + n / 2) % n then None
            else FindBack(m, Window(n), n, id)
  {
    hide Window, FindBack;
    var w := Window(n);
    ModAdd(m, n / 2, n);
    if id == m % n {
      LiveIs(m + 1, w, n, id, m);
    } else {
      var k := FindBack(m, w, n, id);
      if k.Some? && m - k.value < w {
        LiveIs(m + 1, w, n, id, k.value);
        NotRetired(m, n, k.value);
      } else {
        if k.Some? { RetiresNow(m, n, k.value); }
        StoreOnlyAdds(m, w, n, id);
      }
    }
  }

  /** A store of another id brings nothing new for this one. */
  lemma {:induction false} StoreOnlyAdds(m: nat, w: nat, n: nat, id: nat)
    requires n >= 1 && w >= 1 && w <= n && id != m % n
    requires var k := FindBack(m, w, n, id); k.None? || m - k.value == w
    ensures FindBack(m + 1, w, n, id).None?
  {
    var k := FindBack(m + 1, w, n, id);
    if k.Some? {
      LiveIs(m, w, n, id, k.value);
    }
  }

  /** A store that is still live after the next one is not the one that the next one retires. */
  lemma {:induction false} NotRetired(m: nat, n: nat, k: nat)
    requires n >= 1 && k < m && m - k < Window(n)
    ensures (m + n / 2) % n != k % n
  {
    ModDistinct(k, m + n / 2, n);
  }

  /** The oldest live store is the one that the next store retires. */
  lemma {:induction false} RetiresNow(m: nat, n: nat, k: nat)
    requires n >= 1 && k < m && m - k == Window(n)
    ensures (m + n / 2) % n == k % n
  {
    ModShift(k, n);
  }

  lemma {:induction false} StoreRefines<W>(s: Slots<W>, log: seq<Item<W>>, work: W, initialWork: bool)
    requires Refines(s, log)
    ensures Refines(SlotsStore(s, work, initialWork), log + [Item(work, [], initialWork)])
  {
    hide FindBack, Window;
    var n, m := |s.pending|, |log|;
    var log' := log + [Item(work, [], initialWork)];
    var s' := SlotsStore(s, work, initialWork);
    ModAdd(m, 1, n);
    forall id | 0 <= id < n
      ensures s'.pending[id] == if Live(log', n, id).Some? then Some(log'[Live(log', n, id).value]) else None
    {
      LiveAfterStore(m, n, id);
    }
  }

  lemma {:induction false} InsertRefines<W>(s: Slots<W>, log: seq<Item<W>>, id: nat, sol: Solution)
    requires Refines(s, log) && id < |s.pending| && s.pending[id].Some?
    ensures var k := Live(log, |s.pending|, id);
            k.Some? && Refines(SlotsInsert(s, id, sol), log[k.value := Inserted(log[k.value], sol)])
  {
    var n, k := |s.pending|, Live(log, |s.pending|, id).value;
    var log' := log[k := Inserted(log[k], sol)];
    forall j | 0 <= j < n && j != id
      ensures Live(log', n, j) == Live(log, n, j) && (Live(log, n, j).Some? ==> Live(log, n, j).value != k)
    {
    }
  }

  // ----- How many slots are used -----

  function Used<W>(p: seq<Option<Item<W>>>): nat {
    if p == [] then 0 else Used(p[..|p| - 1]) + if p[|p| - 1].Some? then 1 else 0
  }

  lemma {:induction false} UsedUpdate<W>(p: seq<Option<Item<W>>>, i: nat, x: Option<Item<W>>)
    requires i < |p|
    ensures Used(p[i := x]) == Used(p) - (if p[i].Some? then 1 else 0) + (if x.Some? then 1 else 0)
  {
    var last := |p| - 1;
    if i == last {
      assert p[i := x][..last] == p[..last];
    } else {
      assert p[i := x][..last] == p[..last][i := x];
      UsedUpdate(p[..last], i, x);
    }
  }

  lemma {:induction false} NoneUsed<W>(n: nat)
    ensures Used(Empty<W>(n).pending) == 0
  {
    if n > 0 {
      assert Empty<W>(n).pending[..n - 1] == Empty<W>(n - 1).pending;
      NoneUsed<W>(n - 1);
    }
  }

  /** With at least two slots, a store never goes to a slot with live work. */
  lemma {:induction false} NoOverwrite<W>(s: Slots<W>, log: seq<Item<W>>)
    requires Refines(s, log) && |s.pending| >= 2
    ensures s.pending[s.next].None?
  {
    var n, m := |s.pending|, |log|;
    var k := Live(log, n, s.next);
    if k.Some? { ModDistinct(k.value, m, n); }
  }

  /** The slot a store retires is used exactly when the window is full. */
  lemma {:induction false} RetireSlot<W>(s: Slots<W>, log: seq<Item<W>>)
    requires Refines(s, log)
    ensures s.pending[(s.next + |s.pending| / 2) % |s.pending|].Some? <==> |log| >= Window(|s.pending|)
  {
    var n, m := |s.pending|, |log|;
    var w := Window(n);
    var id := (m % n + n / 2) % n;
    ModAdd(m, n / 2, n);
    if m >= w {
      RetiresNow(m, n, m - w);
      LiveIs(m, w, n, id, m - w);
    } else {
      var k := Live(log, n, id);
      if k.Some? { NotRetired(m, n, k.value); }
    }
  }

  lemma {:induction false} StoreUses<W>(s: Slots<W>, log: seq<Item<W>>, work: W, initialWork: bool)
    requires Refines(s, log)
    ensures Used(SlotsStore(s, work, initialWork).pending) ==
            Used(s.pending) + if |log| >= Window(|s.pending|) then 0 else 1
  {
    hide Refines, Used, Window;
    var n, id := |s.pending|, s.next;
    assert n >= 1 && id < n by { NextInRange(s, log); }
    var retire := (id + n / 2) % n;
    RetireSlot(s, log);
    UsedUpdate(s.pending, retire, None);
    UsedUpdate(s.pending[retire := None], id, Some(Item(work, [], initialWork)));
    if n >= 2 {
      NoOverwrite(s, log);
    }
  }

  lemma {:induction false} NextInRange<W>(s: Slots<W>, log: seq<Item<W>>)
    requires Refines(s, log)
    ensures s.next < |s.pending|
  {
  }

  // ----- Runs -----

  datatype Op<W> = Store(work: W, initialWork: bool) | Insert(id: nat, sol: Solution)

  /** The slots after the operations; an insert for an unused id changes nothing. */
  function SlotsAfter<W>(n: nat, ops: seq<Op<W>>): (s: Slots<W>)
    requires n >= 1
    ensures |s.pending| == n && s.next < n
    decreases |ops|
  {
    if ops == [] then Empty(n)
    else
      var s := SlotsAfter(n, ops[..|ops| - 1]);
      match ops[|ops| - 1]
      case Store(work, initialWork) => SlotsStore(s, work, initialWork)
      case Insert(id, sol) => if id < n && s.pending[id].Some? then SlotsInsert(s, id, sol) else s
  }

  /** The same operations on the plain list. */
  function LogAfter<W>(n: nat, ops: seq<Op<W>>): seq<Item<W>>
    requires n >= 1
    decreases |ops|
  {
    if ops == [] then []
    else
      var log := LogAfter(n, ops[..|ops| - 1]);
      match ops[|ops| - 1]
      case Store(work, initialWork) => log + [Item(work, [], initialWork)]
      case Insert(id, sol) =>
        var k := Live(log, n, id);
        if id < n && k.Some? then log[k.value := Inserted(log[k.value], sol)] else log
  }

  /**
   For every size and every run, the slot of an id holds exactly the last work stored under it if
   that is among the last n - n/2 stores, and nothing otherwise; and once n - n/2 works have been
   stored, exactly n/2 slots are free.
   */
  lemma {:induction false} SlotsRefineLog<W>(n: nat, ops: seq<Op<W>>)
    requires n >= 1
    ensures Refines(SlotsAfter(n, ops), LogAfter(n, ops))
    ensures var m := |LogAfter(n, ops)|;
            Used(SlotsAfter(n, ops).pending) == if m < Window(n) then m else Window(n)
  {
    if ops == [] {
      NoneUsed<W>(n);
    } else {
      var before := ops[..|ops| - 1];
      var s, log := SlotsAfter(n, before), LogAfter(n, before);
      SlotsRefineLog(n, before);
      match ops[|ops| - 1]
      case Store(work, initialWork) =>
        StoreRefines(s, log, work, initialWork);
        StoreUses(s, log, work, initialWork);
      case Insert(id, sol) =>
        if id < n && s.pending[id].Some? {
          InsertRefines(s, log, id, sol);
          UsedUpdate(s.pending, id, Some(Inserted(s.pending[id].value, sol)));
        }
    }
  }

  // ----- The registry object -----

  class WorkRegistry<W> {
    const registrySize: nat
    var nextWorkId: nat
    var pendingWorkList: seq<Option<Item<W>>>

    ghost predicate Valid()
      reads this
    {
      registrySize >= 1 && |pendingWorkList| == registrySize && nextWorkId < registrySize
    }

    ghost function View(): Slots<W>
      reads this
    {
      Slots(nextWorkId, pendingWorkList)
    }

    constructor (registrySize: nat)
      requires registrySize >= 1
      ensures Valid() && this.registrySize == registrySize && View() == Empty<W>(registrySize)
    {
      this.registrySize := registrySize;
      nextWorkId := 0;
      pendingWorkList := seq(registrySize, _ => None);
    }

    method AllocNextWorkId() returns (id: nat)
      requires Valid()
      modifies this`nextWorkId
      ensures Valid() && id == old(nextWorkId) && nextWorkId == (id + 1) % registrySize
    {
      id := nextWorkId;
      nextWorkId := (id + 1) % registrySize;
    }

    method StoreWork(work: W, initialWork: bool) returns (id: nat)
      requires Valid()
      modifies this
      ensures Valid() && id == old(nextWorkId) && View() == SlotsStore(old(View()), work, initialWork)
    {
      id := AllocNextWorkId();
      var retireId := (id + registrySize / 2) % registrySize;
      pendingWorkList := pendingWorkList[retireId := None];
      pendingWorkList := pendingWorkList[id := Some(Item(work, [], initialWork))];
    }

    method FindWork(id: nat) returns (item: Option<Item<W>>)
      requires Valid() && id < registrySize
      ensures item == pendingWorkList[id]
    {
      item := pendingWorkList[id];
    }

    /** Records the solution with the work in the slot; a nonce seen before is a duplicate. */
    method InsertSolution(id: nat, sol: Solution) returns (duplicate: bool)
      requires Valid() && id < registrySize && pendingWorkList[id].Some?
      modifies this`pendingWorkList
      ensures Valid() && View() == SlotsInsert(old(View()), id, sol)
      ensures duplicate <==> Known(old(pendingWorkList)[id].value, sol.nonce)
    {
      var item := pendingWorkList[id].value;
      duplicate := false;
      for i := 0 to |item.solutions|
        invariant duplicate <==> exists j :: 0 <= j < i && item.solutions[j].nonce == sol.nonce
      {
        if item.solutions[i].nonce == sol.nonce {
          duplicate := true;
        }
      }
      if !duplicate {
        item := item.(solutions := item.solutions + [sol]);
      }
      pendingWorkList := pendingWorkList[id := Some(item)];
    }
  }
}
