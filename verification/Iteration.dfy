/** Running a step function a number of times. */
module Iteration {

  function Iterate<O>(step: O -> O, o: O, n: nat): O {
    if n == 0 then o else step(Iterate(step, o, n - 1))
  }

  /** So many steps and then so many more. */
  lemma {:induction false} Further<O>(step: O -> O, o: O, a: nat, b: nat)
    ensures Iterate(step, o, a + b) == Iterate(step, Iterate(step, o, a), b)
    decreases b
  {
    if b > 0 { Further(step, o, a, b - 1); }
  }

  /** What every step keeps holds throughout. */
  lemma {:induction false} Kept<O(!new)>(step: O -> O, inv: O -> bool, o: O, n: nat)
    requires inv(o) && forall x :: inv(x) ==> inv(step(x))
    ensures inv(Iterate(step, o, n))
  {
    if n > 0 { Kept(step, inv, o, n - 1); }
  }

  /** Two machines that take the same steps where an invariant holds run alike. */
  lemma {:induction false} Alike<O(!new)>(step: O -> O, step': O -> O, inv: O -> bool, o: O, n: nat)
    requires inv(o) && (forall x :: inv(x) ==> inv(step(x))) && (forall x :: inv(x) ==> step(x) == step'(x))
    ensures Iterate(step, o, n) == Iterate(step', o, n)
  {
    if n > 0 {
      Alike(step, step', inv, o, n - 1);
      Kept(step, inv, o, n - 1);
    }
  }

  /** Nothing follows a stop. */
  lemma {:induction false} Stopped<O>(step: O -> O, o: O, k: nat, n: nat)
    requires k <= n && step(Iterate(step, o, k)) == Iterate(step, o, k)
    ensures Iterate(step, o, n) == Iterate(step, o, k)
    decreases n
  {
    if k < n { Stopped(step, o, k, n - 1); }
  }
}
