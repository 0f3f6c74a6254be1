/**
 The Block Erupter solver: an iterator that hands out work to a USB device and turns the nonces it
 reads into solutions. A nonce read right after a switch may still belong to the previous work, so
 it is credited to both.
 */
module Erupter {
  import opened Wrappers

  /** A nonce and the time at which it was read. */
  datatype Nonce = Nonce(value: nat, time: nat)

  /** A work and the nonces read while it is the current one, before the wait for another times out. */
  datatype Assignment<W> = Assignment(work: W, nonces: seq<Nonce>)

  /** How a run ends: no more work, a failing read after the last nonce, or a further work that cannot be sent. */
  datatype Ending<W> = Closed | WaitFails | SendFails(unsent: W)

  datatype Solution<W> = Solution(work: W, nonce: Nonce, idx: nat)

  // ----- What should come out -----

  /** A nonce credited to an assignment under an index. */
  datatype Credit = Credit(assignment: nat, nonce: Nonce, idx: nat)

  /** Each nonce of assignment `j`, with its position as index. */
  function Own(j: nat, nonces: seq<Nonce>): (cs: seq<Credit>)
    ensures |cs| == |nonces|
    ensures forall i :: 0 <= i < |cs| ==> cs[i] == Credit(j, nonces[i], i)
  {
    seq(|nonces|, i requires 0 <= i < |nonces| => Credit(j, nonces[i], i))
  }

  /** The first nonce of assignment `j` credited to the assignment before it, under its next index. */
  function Late<W>(run: seq<Assignment<W>>, j: nat): seq<Credit>
    requires j < |run|
  {
    if j == 0 || run[j].nonces == [] then [] else [Credit(j - 1, run[j].nonces[0], |run[j - 1].nonces|)]
  }

  /** The credits of the first `m` assignments, in the order the solver yields them. */
  function Credits<W>(run: seq<Assignment<W>>, m: nat): seq<Credit>
    requires m <= |run|
  {
    if m == 0 then [] else Credits(run, m - 1) + Late(run, m - 1) + Own(m - 1, run[m - 1].nonces)
  }

  function ToSolution<W>(run: seq<Assignment<W>>, c: Credit): Solution<W>
    requires c.assignment < |run|
  {
    Solution(run[c.assignment].work, c.nonce, c.idx)
  }

  lemma {:induction false} CreditsInRange<W>(run: seq<Assignment<W>>, m: nat)
    requires m <= |run|
    ensures forall i :: 0 <= i < |Credits(run, m)| ==> Credits(run, m)[i].assignment < m
  {
    if m > 0 { CreditsInRange(run, m - 1); }
  }

  // ----- Indices without gap or repeat -----

  /** The credits of one assignment, in order. */
  function For(j: nat, cs: seq<Credit>): seq<Credit> {
    if cs == [] then [] else For(j, cs[..|cs| - 1]) + if cs[|cs| - 1].assignment == j then [cs[|cs| - 1]] else []
  }

  lemma {:induction false} ForConcat(j: nat, a: seq<Credit>, b: seq<Credit>)
    ensures For(j, a + b) == For(j, a) + For(j, b)
  {
    if b == [] {
      assert a + b == a;
    } else {
      assert (a + b)[..|a + b| - 1] == a + b[..|b| - 1];
      ForConcat(j, a, b[..|b| - 1]);
    }
  }

  lemma {:induction false} ForAll(j: nat, cs: seq<Credit>)
    requires forall i :: 0 <= i < |cs| ==> cs[i].assignment == j
    ensures For(j, cs) == cs
  {
    if cs != [] { ForAll(j, cs[..|cs| - 1]); }
  }

  lemma {:induction false} ForNone(j: nat, cs: seq<Credit>)
    requires forall i :: 0 <= i < |cs| ==> cs[i].assignment != j
    ensures For(j, cs) == []
  {
    if cs != [] { ForNone(j, cs[..|cs| - 1]); }
  }

  /**
   What assignment `j` is credited with: its own nonces, then the first nonce of the next assignment
   if it has one.
   */
  function Expected<W>(run: seq<Assignment<W>>, m: nat, j: nat): seq<Credit>
    requires j < m <= |run|
  {
    Own(j, run[j].nonces) +
    if j + 1 < m && run[j + 1].nonces != [] then [Credit(j, run[j + 1].nonces[0], |run[j].nonces|)] else []
  }

  /** Every assignment is credited exactly with its own nonces and the late one, under the indices 0, 1, 2, ... */
  lemma {:induction false} CreditedExactly<W>(run: seq<Assignment<W>>, m: nat, j: nat)
    requires j < m <= |run|
    ensures For(j, Credits(run, m)) == Expected(run, m, j)
    ensures forall i :: 0 <= i < |Expected(run, m, j)| ==> Expected(run, m, j)[i].idx == i
  {
    hide For, Own, Late;
    var before, late, own := Credits(run, m - 1), Late(run, m - 1), Own(m - 1, run[m - 1].nonces);
    ForConcat(j, before + late, own);
    ForConcat(j, before, late);
    LateOf(run, m - 1);
    if j == m - 1 {
      CreditsInRange(run, m - 1);
      ForNone(j, before);
      ForNone(j, late);
      ForAll(j, own);
    } else {
      CreditedExactly(run, m - 1, j);
      ForNone(j, own);
      if j == m - 2 { ForAll(j, late); } else { ForNone(j, late); }
    }
  }

  lemma {:induction false} LateOf<W>(run: seq<Assignment<W>>, j: nat)
    requires j < |run|
    ensures forall i :: 0 <= i < |Late(run, j)| ==> Late(run, j)[i].assignment == j - 1
    ensures Late(run, j) == if j > 0 && run[j].nonces != []
            then [Credit(j - 1, run[j].nonces[0], |run[j - 1].nonces|)] else []
  {
  }

  // ----- The solver -----

  /** How many credits have been yielded once `handed` works were handed out and `read` nonces of the last one read. */
  function Yielded<W>(run: seq<Assignment<W>>, handed: nat, read: nat): nat
    requires handed <= |run|
  {
    if handed == 0 then 0
    else |Credits(run, handed - 1)| + if read == 0 then 0 else read + if handed > 1 then 1 else 0
  }

  /** Handing out a work yields nothing by itself. */
  lemma {:induction false} Switched<W>(run: seq<Assignment<W>>, handed: nat)
    requires handed < |run|
    ensures Yielded(run, handed + 1, 0) == if handed == 0 then 0 else Yielded(run, handed, |run[handed - 1].nonces|)
  {
  }

  /** Once the nonces of the last assignment have been read, everything has been yielded. */
  lemma {:induction false} Finished<W>(run: seq<Assignment<W>>)
    ensures Yielded(run, 0, 0) == 0
    ensures Yielded(run, |run|, if run == [] then 0 else |run[|run| - 1].nonces|) == |Credits(run, |run|)|
  {
  }

  /** The credits are only extended by later assignments. */
  lemma {:induction false} CreditsExtend<W>(run: seq<Assignment<W>>, m: nat, n: nat)
    requires m <= n <= |run|
    ensures Credits(run, m) <= Credits(run, n)
    decreases n - m
  {
    if m < n { CreditsExtend(run, m, n - 1); }
  }

  lemma {:induction false} CreditsStep<W>(run: seq<Assignment<W>>, handed: nat)
    requires 0 < handed <= |run|
    ensures Credits(run, handed) == Credits(run, handed - 1) + Late(run, handed - 1) +
            Own(handed - 1, run[handed - 1].nonces)
  {
  }

  /** Which credits the next nonce of the current assignment brings. */
  lemma {:induction false} NextCredits<W>(run: seq<Assignment<W>>, handed: nat, read: nat)
    requires 0 < handed <= |run| && read < |run[handed - 1].nonces|
    ensures var all, at, j := Credits(run, |run|), Yielded(run, handed, read), handed - 1;
            && Yielded(run, handed, read + 1) == at + (if read == 0 && handed > 1 then 2 else 1) <= |all|
            && (if read == 0 && handed > 1
                then at + 1 < |all| && all[at] == Credit(j - 1, run[j].nonces[0], |run[j - 1].nonces|)
                     && all[at + 1] == Credit(j, run[j].nonces[0], 0)
                else at < |all| && all[at] == Credit(j, run[j].nonces[read], read))
  {
    hide Own, Credits;
    var j := handed - 1;
    CreditsExtend(run, handed, |run|);
    var part := Credits(run, j) + Late(run, j) + Own(j, run[j].nonces);
    CreditsStep(run, handed);
    assert part <= Credits(run, |run|);
    assert part[|Credits(run, j)| + |Late(run, j)| + read] == Own(j, run[j].nonces)[read];
  }

  class BlockErupterSolver<W> {
    // the device and the work generator
    const run: seq<Assignment<W>>
    const ending: Ending<W>
    var handed: nat
    var read: nat
    // the solver
    var currWork: Option<W>
    var nextSolution: Option<Solution<W>>
    var solutionIdx: nat
    var stopped: bool
    ghost var yielded: nat

    /** Between two calls of Next. */
    ghost predicate Valid()
      reads this
    {
      && handed <= |run| && Attached()
      && (currWork.Some? && !stopped ==> read > 0)
      && (nextSolution.Some? ==>
            && currWork.Some? && handed > 1 && read == 1 && !stopped && yielded + 1 == Yielded(run, handed, read)
            && nextSolution.value == Solution(run[handed - 1].work, run[handed - 1].nonces[0], 0))
      && (nextSolution.None? ==> yielded == Yielded(run, handed, read))
      && (stopped || (currWork.None? && handed > 0) ==> yielded == |Credits(run, |run|)| && handed == |run|)
      && (currWork.None? && handed > 0 ==> read == |run[handed - 1].nonces|)
    }

    /** The solver's current work and index are those of the device. */
    ghost predicate Attached()
      reads this
      requires handed <= |run|
    {
      && (handed == 0 ==> read == 0)
      && (handed > 0 ==> read <= |run[handed - 1].nonces|)
      && (currWork.Some? && !stopped ==> handed > 0 && currWork.value == run[handed - 1].work && solutionIdx == read)
    }

    constructor (run: seq<Assignment<W>>, ending: Ending<W>)
      ensures Valid() && this.run == run && this.ending == ending && yielded == 0
    {
      this.run, this.ending := run, ending;
      handed, read := 0, 0;
      currWork, nextSolution, solutionIdx, stopped := None, None, 0, false;
      yielded := 0;
    }

    /** A nonce of the current work, or none after a timeout or an error; an error is remembered. */
    method WaitForNonce() returns (nonce: Option<Nonce>)
      requires 0 < handed <= |run| && read <= |run[handed - 1].nonces| && !stopped
      modifies this`read, this`stopped
      ensures nonce.Some? ==> !stopped && old(read) < |run[handed - 1].nonces| && read == old(read) + 1
                              && nonce.value == run[handed - 1].nonces[old(read)]
      ensures nonce.None? ==> read == old(read) == |run[handed - 1].nonces|
      ensures nonce.None? ==> (stopped <==> handed == |run| && ending.WaitFails?)
    {
      if read < |run[handed - 1].nonces| {
        nonce := Some(run[handed - 1].nonces[read]);
        read := read + 1;
      } else {
        nonce := None;
        stopped := handed == |run| && ending.WaitFails?;
      }
    }

    /** The next work from the generator, sent to the device; an error is remembered. */
    method Generate() returns (work: Option<W>)
      requires handed <= |run| && !stopped
      modifies this`handed, this`read, this`stopped
      ensures handed <= |run|
      ensures old(handed) < |run| ==> handed == old(handed) + 1 && read == 0 && !stopped
      ensures old(handed) < |run| ==> work == Some(run[old(handed)].work)
      ensures old(handed) == |run| ==> handed == old(handed) && read == old(read)
      ensures old(handed) == |run| ==> work == (if ending.SendFails? then Some(ending.unsent) else None)
      ensures old(handed) == |run| ==> stopped == ending.SendFails?
    {
      if handed < |run| {
        work := Some(run[handed].work);
        handed := handed + 1;
        read := 0;
      } else if ending.SendFails? {
        work := Some(ending.unsent);
        stopped := true;
      } else {
        work := None;
      }
    }

    /** Turns a nonce just read into a solution of the current work, after one of the previous work if there is any. */
    method Found(nonce: Nonce, prevWork: Option<(W, nat)>) returns (solution: Solution<W>)
      requires 0 < handed <= |run| && 0 < read <= |run[handed - 1].nonces| && !stopped && nextSolution.None?
      requires currWork == Some(run[handed - 1].work) && solutionIdx == read - 1
               && nonce == run[handed - 1].nonces[read - 1]
      requires yielded == Yielded(run, handed, read - 1)
      requires prevWork == if read == 1 && handed > 1 then Some((run[handed - 2].work, |run[handed - 2].nonces|))
                           else None
      modifies this`solutionIdx, this`nextSolution, this`yielded
      ensures Valid() && yielded == old(yielded) + 1 <= |Credits(run, |run|)|
      ensures Credits(run, |run|)[old(yielded)].assignment < |run|
      ensures solution == ToSolution(run, Credits(run, |run|)[old(yielded)])
    {
      hide Credits, Yielded;
      NextCredits(run, handed, read - 1);
      var found := Solution(currWork.value, nonce, solutionIdx);
      solutionIdx := solutionIdx + 1;
      yielded := yielded + 1;
      if prevWork.None? {
        solution := found;
      } else {
        nextSolution := Some(found);
        solution := Solution(prevWork.value.0, nonce, prevWork.value.1);
      }
    }

    /** Puts the current work aside and takes the next one; `more` is false at the end of the stream. */
    method Switch() returns (prevWork: Option<(W, nat)>, more: bool)
      requires handed <= |run| && Attached() && !stopped && yielded == Yielded(run, handed, read)
      requires handed > 0 ==> read == |run[handed - 1].nonces|
      requires currWork.None? && handed > 0 ==> handed == |run|
      modifies this`currWork, this`solutionIdx, this`handed, this`read, this`stopped
      ensures handed <= |run| && Attached() && yielded == Yielded(run, handed, read)
      ensures more && !stopped ==> handed == old(handed) + 1 && read == 0 && currWork.Some?
      ensures more && !stopped ==>
                prevWork == if handed > 1 then Some((run[handed - 2].work, |run[handed - 2].nonces|)) else None
      ensures !more || stopped ==> yielded == |Credits(run, |run|)| && handed == old(handed) == |run|
      ensures !more ==> currWork.None? && !stopped
      ensures !more || stopped ==> read == old(read)
    {
      hide Credits, Yielded;
      Finished(run);
      if handed < |run| {
        Switched(run, handed);
      }
      prevWork := if currWork.Some? then Some((currWork.value, solutionIdx)) else None;
      currWork := None;
      var work := Generate();
      more := work.Some?;
      if more {
        currWork := work;
        solutionIdx := 0;
      }
    }

    /** Hands out the second solution of a nonce that was credited twice. */
    method TakePending() returns (solution: Solution<W>)
      requires Valid() && nextSolution.Some?
      modifies this`nextSolution, this`yielded
      ensures Valid() && yielded == old(yielded) + 1 <= |Credits(run, |run|)|
      ensures Credits(run, |run|)[old(yielded)].assignment < |run|
      ensures solution == ToSolution(run, Credits(run, |run|)[old(yielded)])
    {
      hide Credits, Yielded;
      solution := nextSolution.value;
      NextCredits(run, handed, 0);
      nextSolution := None;
      yielded := yielded + 1;
    }

    /** Yields the credits of the run one by one, in order, and then nothing. */
    method Next() returns (solution: Option<Solution<W>>)
      requires Valid()
      modifies this
      ensures Valid()
      ensures solution.None? <==> old(yielded) == |Credits(run, |run|)|
      ensures solution.Some? ==> yielded == old(yielded) + 1 <= |Credits(run, |run|)|
                                 && Credits(run, |run|)[old(yielded)].assignment < |run|
                                 && solution.value == ToSolution(run, Credits(run, |run|)[old(yielded)])
      ensures solution.None? ==> yielded == old(yielded)
    {
      hide Credits, Yielded;
      if nextSolution.Some? {
        var pending := TakePending();
        return Some(pending);
      }
      Finished(run);
      var prevWork: Option<(W, nat)> := None;
      while !stopped
        invariant handed <= |run| && Attached() && nextSolution.None? && yielded == old(yielded)
        invariant yielded == Yielded(run, handed, read)
        invariant !stopped && currWork.Some? ==>
                    prevWork == if read == 0 && handed > 1 then Some((run[handed - 2].work, |run[handed - 2].nonces|))
                                else None
        invariant stopped || (currWork.None? && handed > 0) ==> yielded == |Credits(run, |run|)| && handed == |run|
        invariant currWork.None? && handed > 0 ==> read == |run[handed - 1].nonces|
        decreases |run| - handed, if stopped then 0 else 1
      {
        if currWork.Some? {
          var nonce := WaitForNonce();
          if nonce.Some? {
            var found := Found(nonce.value, prevWork);
            return Some(found);
          }
          if stopped {
            break;
          }
        }
        var more;
        prevWork, more := Switch();
        if !more {
          break;
        }
      }
      return None;
    }
  }

  /** Iterating the solver to its end yields exactly the credits of the run, in order. */
  method SolveAll<W>(run: seq<Assignment<W>>, ending: Ending<W>) returns (solutions: seq<Solution<W>>)
    ensures |solutions| == |Credits(run, |run|)|
    ensures forall i :: 0 <= i < |solutions| ==>
              Credits(run, |run|)[i].assignment < |run| && solutions[i] == ToSolution(run, Credits(run, |run|)[i])
  {
    hide Credits, Yielded;
    var solver := new BlockErupterSolver(run, ending);
    solutions := [];
    while true
      invariant fresh(solver) && solver.Valid() && solver.run == run
      invariant |solutions| == solver.yielded <= |Credits(run, |run|)|
      invariant forall i :: 0 <= i < |solutions| ==>
                  Credits(run, |run|)[i].assignment < |run| && solutions[i] == ToSolution(run, Credits(run, |run|)[i])
      decreases |Credits(run, |run|)| - |solutions|
    {
      var s := solver.Next();
      if s.None? {
        return;
      }
      solutions := solutions + [s.value];
    }
  }
}
