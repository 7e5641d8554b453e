/** A query's `WHERE`, `ORDER BY`, `LIMIT` and `OFFSET` over rows already in order, and what
    each of them means. */
module Filtering {
  function Kept<T>(rows: seq<T>, keep: T -> bool): seq<T> {
    if rows == [] then []
    else if keep(rows[0]) then [rows[0]] + Kept(rows[1..], keep)
    else Kept(rows[1..], keep)
  }

  /** `LIMIT`/`OFFSET` over the rows that pass. */
  function Page<T>(rows: seq<T>, keep: T -> bool, offset: nat, limit: nat): seq<T> {
    var kept := Kept(rows, keep);
    if offset >= |kept| then [] else if offset + limit > |kept| then kept[offset..] else kept[offset..offset + limit]
  }

  ghost predicate Ascending(at: seq<nat>) {
    forall i, j | 0 <= i < j < |at| :: at[i] < at[j]
  }

  ghost predicate AllPass<T>(rows: seq<T>, keep: T -> bool, at: seq<nat>) {
    forall i | 0 <= i < |at| :: at[i] < |rows| && keep(rows[at[i]])
  }

  ghost predicate MissesNone<T>(rows: seq<T>, keep: T -> bool, at: seq<nat>) {
    forall k | 0 <= k < |rows| && keep(rows[k]) :: k in at
  }

  /** `at` are the indices of exactly the rows that pass, in order. */
  ghost predicate Picks<T>(rows: seq<T>, keep: T -> bool, at: seq<nat>) {
    Ascending(at) && AllPass(rows, keep, at) && MissesNone(rows, keep, at)
  }

  /** The rows that pass, each as often as it occurs and in the order given. */
  ghost predicate IsFiltered<T>(rows: seq<T>, keep: T -> bool, kept: seq<T>) {
    exists at: seq<nat> | Picks(rows, keep, at) && |at| == |kept| :: forall i | 0 <= i < |kept| :: kept[i] == rows[at[i]]
  }

  function Min(x: nat, y: nat): nat { if x <= y then x else y }

  /** Row `i` of the page is row `offset + i` of those that pass, and there are `limit` of them
      or as many as are left behind the offset. */
  ghost predicate IsPage<T>(rows: seq<T>, keep: T -> bool, offset: nat, limit: nat, page: seq<T>) {
    exists at: seq<nat> | Picks(rows, keep, at) ::
      && |page| == (if offset >= |at| then 0 else Min(limit, |at| - offset))
      && (forall i | 0 <= i < |page| :: page[i] == rows[at[offset + i]])
  }

  function Shifted(at: seq<nat>): (shifted: seq<nat>)
    ensures |shifted| == |at| && forall i | 0 <= i < |at| :: shifted[i] == at[i] + 1
  {
    seq(|at|, i requires 0 <= i < |at| => at[i] + 1)
  }

  lemma AscendingCons(at: seq<nat>)
    requires Ascending(at)
    ensures Ascending(Shifted(at)) && Ascending([0] + Shifted(at))
  {
  }

  lemma AllPassCons<T>(rows: seq<T>, keep: T -> bool, at: seq<nat>)
    requires rows != [] && AllPass(rows[1..], keep, at)
    ensures AllPass(rows, keep, Shifted(at))
    ensures keep(rows[0]) ==> AllPass(rows, keep, [0] + Shifted(at))
  {
  }

  lemma MissesNoneCons<T>(rows: seq<T>, keep: T -> bool, at: seq<nat>, k: nat)
    requires rows != [] && MissesNone(rows[1..], keep, at) && k < |rows| && keep(rows[k])
    ensures k in [0] + Shifted(at) && (k > 0 ==> k in Shifted(at))
  {
    if k == 0 {
      assert ([0] + Shifted(at))[0] == 0;
    } else {
      assert rows[1..][k - 1] == rows[k];
      var i :| 0 <= i < |at| && at[i] == k - 1;
      assert Shifted(at)[i] == k;
    }
  }

  lemma PicksCons<T>(rows: seq<T>, keep: T -> bool, at: seq<nat>)
    requires rows != [] && Picks(rows[1..], keep, at)
    ensures Picks(rows, keep, if keep(rows[0]) then [0] + Shifted(at) else Shifted(at))
  {
    AscendingCons(at);
    AllPassCons(rows, keep, at);
    hide Ascending, AllPass;
    forall k: nat | k < |rows| && keep(rows[k]) ensures k in if keep(rows[0]) then [0] + Shifted(at) else Shifted(at) {
      MissesNoneCons(rows, keep, at, k);
    }
  }

  /** Where each kept row stands. */
  ghost predicate Locates<T>(rows: seq<T>, kept: seq<T>, at: seq<nat>) {
    |at| == |kept| && forall i | 0 <= i < |at| :: at[i] < |rows| && kept[i] == rows[at[i]]
  }

  lemma LocatesCons<T>(rows: seq<T>, kept: seq<T>, at: seq<nat>)
    requires rows != [] && Locates(rows[1..], kept, at)
    ensures Locates(rows, kept, Shifted(at)) && Locates(rows, [rows[0]] + kept, [0] + Shifted(at))
  {
  }

  lemma {:induction false} KeptPicks<T>(rows: seq<T>, keep: T -> bool) returns (at: seq<nat>)
    ensures Picks(rows, keep, at) && Locates(rows, Kept(rows, keep), at)
  {
    at := [];
    if rows != [] {
      var rest := KeptPicks(rows[1..], keep);
      PicksCons(rows, keep, rest);
      LocatesCons(rows, Kept(rows[1..], keep), rest);
      hide Picks, Locates;
      at := if keep(rows[0]) then [0] + Shifted(rest) else Shifted(rest);
    }
  }

  lemma KeptIsFiltered<T>(rows: seq<T>, keep: T -> bool)
    ensures IsFiltered(rows, keep, Kept(rows, keep))
  {
    var at := KeptPicks(rows, keep);
  }

  lemma PageIsPage<T>(rows: seq<T>, keep: T -> bool, offset: nat, limit: nat)
    ensures IsPage(rows, keep, offset, limit, Page(rows, keep, offset, limit))
  {
    var at := KeptPicks(rows, keep);
  }

  /** Conditions that agree on every row give the same page. */
  lemma {:induction false} KeptCongruent<T>(rows: seq<T>, keep: T -> bool, keep': T -> bool)
    requires forall x <- rows :: keep(x) == keep'(x)
    ensures Kept(rows, keep) == Kept(rows, keep')
  {
    if rows != [] { KeptCongruent(rows[1..], keep, keep'); }
  }

  /** Whatever a query tests, its page is the page of any condition that agrees with it. */
  lemma PageCongruent<T>(rows: seq<T>, keep: T -> bool, keep': T -> bool, offset: nat, limit: nat)
    requires forall x <- rows :: keep(x) == keep'(x)
    ensures IsPage(rows, keep', offset, limit, Page(rows, keep, offset, limit))
  {
    KeptCongruent(rows, keep, keep');
    PageIsPage(rows, keep', offset, limit);
  }

  lemma {:induction false} KeptMembers<T>(rows: seq<T>, keep: T -> bool, x: T)
    ensures x in Kept(rows, keep) <==> x in rows && keep(x)
  {
    if rows != [] { KeptMembers(rows[1..], keep, x); }
  }
}
