/** From one step to a whole run: a property that every step keeps exactly when the step is not of
    a certain kind holds at every moment of a run exactly when the run has no such step. */
module Lifting {
  import opened Invariants
  import opened State

  ghost predicate Always(s: Db, qs: seq<Request>, good: Db -> bool) {
    forall k | 0 <= k <= |qs| :: good(Run(s, qs[..k]))
  }

  ghost predicate Never(s: Db, qs: seq<Request>, bad: (Db, Request) -> bool) {
    forall k | 0 <= k < |qs| :: !bad(Run(s, qs[..k]), qs[k])
  }

  // The bad steps are exactly those that lose the property.
  ghost predicate LostExactlyBy(good: Db -> bool, bad: (Db, Request) -> bool) {
    forall s: Db, q: Request | Inv(s) && good(s) :: good(After(s, q)) <==> !bad(s, q)
  }

  lemma {:induction false} AlwaysIffNever(s: Db, qs: seq<Request>, good: Db -> bool, bad: (Db, Request) -> bool)
    requires Inv(s) && good(s) && LostExactlyBy(good, bad)
    ensures Always(s, qs, good) <==> Never(s, qs, bad)
  {
    hide Inv; hide After; hide Run;
    if qs == [] {
      RunNone(s);
      assert qs[..0] == qs;
    } else {
      var n := |qs| - 1;
      var init := qs[..n];
      AlwaysIffNever(s, init, good, bad);
      assert forall k | 0 <= k <= n :: init[..k] == qs[..k];
      assert qs[..|qs|] == qs && init[..n] == init;
      RunKeepsInv(s, init);
      RunUnfolds(s, qs);
      if good(Run(s, init)) {
        assert good(After(Run(s, init), qs[n])) <==> !bad(Run(s, init), qs[n]);
      } else {
        assert !Always(s, init, good) && !Always(s, qs, good);
      }
    }
  }
}
