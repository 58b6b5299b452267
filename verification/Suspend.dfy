/** `resume_all_fully` (`thread.rs`): resume the VM until a probe thread runs, or a bound is reached. */
module Suspend {
  /** The debuggee's suspend counts; a thread that is gone has none. */
  class Vm {
    var counts: map<nat, nat>

    constructor (counts: map<nat, nat>)
      ensures this.counts == counts
    {
      this.counts := counts;
    }

    /** `VirtualMachine.Resume`: every count above zero goes down by one. */
    method ResumeAll()
      modifies this
      ensures counts == Lowered(old(counts), 1)
    {
      counts := Lowered(counts, 1);
    }

    /** `suspend_count(..).unwrap_or(0)`. */
    method SuspendCount(thread: nat) returns (n: nat)
      ensures n == CountOf(counts, thread)
    {
      n := if thread in counts then counts[thread] else 0;
    }

    method ResumeAllFully(probe: nat, maxResumes: nat) returns (issued: nat, left: nat)
      modifies this
      ensures counts == Lowered(old(counts), issued)
      ensures counts.Keys == old(counts).Keys
      ensures forall t :: t in counts ==>
        counts[t] == if old(counts)[t] < issued then 0 else old(counts)[t] - issued
      ensures var c := CountOf(old(counts), probe);
        issued == (if maxResumes == 0 then 0 else AtLeastOne(if c < maxResumes then c else maxResumes))
        && left == if c < maxResumes then 0 else c - maxResumes
      // Nothing left on the probe means that all threads run exactly when no other was suspended more often.
      ensures left == 0 && maxResumes > 0 ==>
        (AllRunning(counts)
         <==> forall t :: t in old(counts) ==> old(counts)[t] <= AtLeastOne(CountOf(old(counts), probe)))
    {
      issued := 0;
      while issued < maxResumes
        invariant issued <= maxResumes && counts == Lowered(old(counts), issued)
        invariant issued > 0 ==> CountOf(old(counts), probe) > issued
      {
        LoweredTwice(old(counts), issued);
        ResumeAll();
        issued := issued + 1;
        left := SuspendCount(probe);
        if left == 0 {
          return issued, 0;
        }
      }
      left := SuspendCount(probe);
    }
  }

  function CountOf(counts: map<nat, nat>, thread: nat): nat {
    if thread in counts then counts[thread] else 0
  }

  function Minus(a: nat, b: nat): nat {
    if a < b then 0 else a - b
  }

  function AtLeastOne(n: nat): nat {
    if n == 0 then 1 else n
  }

  function Lowered(counts: map<nat, nat>, n: nat): map<nat, nat> {
    map t | t in counts :: Minus(counts[t], n)
  }

  predicate AllRunning(counts: map<nat, nat>) {
    forall t :: t in counts ==> counts[t] == 0
  }

  lemma LoweredTwice(counts: map<nat, nat>, n: nat)
    ensures Lowered(Lowered(counts, n), 1) == Lowered(counts, n + 1)
  {
  }
}
