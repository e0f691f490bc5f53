/** The replica rule of EditDeployment and what repeating it does. */
module Scaling {
  import opened Resources

  /** One EditDeployment step: above 2 replicas scale down by one, otherwise
      scale up by one.  Neither branch can leave int32. */
  function Step(replicas: Int32): (next: Int32)
    ensures next == replicas - 1 || next == replicas + 1
    ensures next < replicas <==> replicas > 2
    ensures replicas >= 0 ==> next >= 1
  {
    if replicas > 2 then replicas - 1 else replicas + 1
  }

  function Min(a: int, b: int): int { if a < b then a else b }

  function Max(a: int, b: int): int { if a < b then b else a }

  /** The replica count after `n` runs of EditDeployment.  It never leaves
      the band from min(start, 2) to max(start, 3): repeated runs never grow
      the count without bound, and never take it below min(start, 2). */
  function Iterate(replicas: Int32, n: nat): (r: Int32)
    ensures Min(replicas, 2) <= r <= Max(replicas, 3)
    decreases n
  {
    if n == 0 then replicas else Iterate(Step(replicas), n - 1)
  }

  /** How many steps it takes to first reach 2. */
  function Distance(replicas: Int32): nat {
    if replicas > 2 then replicas - 2 else 2 - replicas
  }

  lemma {:induction false} IterateSplit(replicas: Int32, a: nat, b: nat)
    ensures Iterate(replicas, a + b) == Iterate(Iterate(replicas, a), b)
    decreases a
  {
    if a > 0 {
      IterateSplit(Step(replicas), a - 1, b);
    }
  }

  /** Before reaching 2 the count moves straight towards it, one per step. */
  lemma {:induction false} Approach(replicas: Int32, n: nat)
    requires n <= Distance(replicas)
    ensures Iterate(replicas, n) == if replicas > 2 then replicas - n else replicas + n
    decreases n
  {
    if n > 0 {
      Approach(Step(replicas), n - 1);
    }
  }

  /** From 2 the count alternates 2, 3, 2, 3, ... */
  lemma {:induction false} Oscillate(k: nat)
    ensures Iterate(2, k) == if k % 2 == 0 then 2 else 3
    decreases k
  {
    if k >= 2 {
      assert Iterate(2, 2) == 2;
      IterateSplit(2, 2, k - 2);
      Oscillate(k - 2);
    }
  }

  /** Every start reaches 2 after exactly Distance steps and alternates
      between 2 and 3 from then on. */
  lemma Settles(replicas: Int32, n: nat)
    requires n >= Distance(replicas)
    ensures Iterate(replicas, n) == if (n - Distance(replicas)) % 2 == 0 then 2 else 3
  {
    var d := Distance(replicas);
    Approach(replicas, d);
    IterateSplit(replicas, d, n - d);
    Oscillate(n - d);
  }

  /** Starting from a non-negative count, no run of EditDeployment ever
      leaves the deployment with zero replicas. */
  lemma NeverZero(replicas: Int32, n: nat)
    requires replicas >= 0 && n >= 1
    ensures Iterate(replicas, n) >= 1
  {
  }

  /** The rule has no fixed point, and {2, 3} is its only two-step cycle. */
  lemma TwoCycle(replicas: Int32)
    ensures Step(replicas) != replicas
    ensures Step(Step(replicas)) == replicas <==> replicas == 2 || replicas == 3
  {
  }
}
