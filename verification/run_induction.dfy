// Induction over the steps of a run, with the facts about each step as functions of its number.
module RunInduction {

  /** What holds at the start and is kept by every step holds throughout. */
  lemma {:induction false} Always(keeps: nat -> bool, n: nat)
    requires keeps(0) && forall k: nat :: k < n && keeps(k) ==> keeps(k + 1)
    ensures keeps(n)
  {
    if n > 0 {
      Always(keeps, n - 1);
    }
  }

  lemma {:induction false} FineKeeps(keeps: nat -> bool, fine: nat -> bool, n: nat)
    requires keeps(0) && forall k: nat :: k < n && keeps(k) && fine(k) ==> keeps(k + 1)
    requires forall k: nat :: k < n ==> fine(k)
    ensures keeps(n)
  {
    if n > 0 {
      FineKeeps(keeps, fine, n - 1);
    }
  }

  lemma {:induction false} SeenIsFine(keeps: nat -> bool, fine: nat -> bool, seen: nat -> bool, n: nat)
    requires keeps(0)
    requires forall k: nat :: k < n && keeps(k) ==> (seen(k + 1) ==> fine(k)) && (fine(k) ==> keeps(k + 1))
    requires forall k: nat :: k <= n ==> seen(k)
    ensures forall k: nat :: k < n ==> fine(k)
  {
    if n > 0 {
      SeenIsFine(keeps, fine, seen, n - 1);
      FineKeeps(keeps, fine, n - 1);
    }
  }

  /** An invariant that each step keeps exactly when it is fine: what the invariant shows is seen
      throughout if and only if every step is fine. */
  lemma Stepwise(keeps: nat -> bool, fine: nat -> bool, seen: nat -> bool, n: nat)
    requires keeps(0)
    requires forall k: nat :: k <= n && keeps(k) ==> seen(k)
    requires forall k: nat :: k < n && keeps(k) ==> (seen(k + 1) ==> fine(k)) && (fine(k) ==> keeps(k + 1))
    ensures (forall k: nat :: k <= n ==> seen(k)) <==> (forall k: nat :: k < n ==> fine(k))
  {
    if forall k: nat :: k <= n ==> seen(k) {
      SeenIsFine(keeps, fine, seen, n);
    }
    if forall k: nat :: k < n ==> fine(k) {
      forall k: nat | k <= n ensures seen(k) {
        FineKeeps(keeps, fine, k);
      }
    }
  }

  function CountOf(p: nat -> bool, n: nat): nat {
    if n == 0 then 0 else CountOf(p, n - 1) + if p(n - 1) then 1 else 0
  }

  lemma {:induction false} NoneCounted(p: nat -> bool, n: nat)
    ensures CountOf(p, n) == 0 <==> forall k: nat :: k < n ==> !p(k)
  {
    if n > 0 {
      NoneCounted(p, n - 1);
    }
  }
}
