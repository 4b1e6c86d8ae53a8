/** The positions at which something holds, in order. */
module Picking {
  ghost predicate Picks(at: seq<nat>, n: nat, wanted: nat -> bool) {
    && (forall i :: 0 <= i < |at| ==> at[i] < n && wanted(at[i]))
    && (forall i, j :: 0 <= i < j < |at| ==> at[i] < at[j])
    && (forall x: nat :: x < n && wanted(x) ==> x in at)
  }

  lemma PicksNone(wanted: nat -> bool)
    ensures Picks([], 0, wanted)
  {}

  lemma PicksMore(at: seq<nat>, n: nat, wanted: nat -> bool)
    requires Picks(at, n, wanted)
    ensures Picks(if wanted(n) then at + [n] else at, n + 1, wanted)
  {
    var more := if wanted(n) then at + [n] else at;
    forall x: nat | x < n + 1 && wanted(x) ensures x in more {
      if x < n {
        assert x in at;
      }
    }
  }

  /** There is one such list. */
  lemma {:induction false} PicksOne(a: seq<nat>, b: seq<nat>, n: nat, wanted: nat -> bool)
    requires Picks(a, n, wanted) && Picks(b, n, wanted)
    ensures a == b
    decreases n
  {
    var x, y := if a == [] then 0 else a[0], if b == [] then 0 else b[0];
    if n > 0 {
      var c := PicksInit(a, n - 1, wanted);
      var d := PicksInit(b, n - 1, wanted);
      PicksOne(c, d, n - 1, wanted);
    }
  }

  lemma PicksInit(at: seq<nat>, n: nat, wanted: nat -> bool) returns (init: seq<nat>)
    requires Picks(at, n + 1, wanted)
    ensures Picks(init, n, wanted) && at == if wanted(n) then init + [n] else init
  {
    init := at;
    if wanted(n) {
      assert n in at && at[|at| - 1] == n;
      init := at[..|at| - 1];
      forall x: nat | x < n && wanted(x) ensures x in init {
        assert x in at;
      }
    } else {
      forall i | 0 <= i < |at| ensures at[i] < n {}
    }
  }
}
