/**
 * The recent-vehicles list kept by the vehicle service: at most five vehicle
 * specifications, most recent first, none field-wise equal to another.
 * This module holds the list update as a function on values and what it
 * guarantees; `Vehicles.VehicleService.AddRecentVehicle` performs it on the
 * stored list.
 */
module Recent {
  import opened Seqs

  /** The four fields that identify a vehicle configuration; equality is field-wise. */
  datatype Spec = Spec(brand: string, model: string, year: int, engineType: string)

  /** How many entries `addRecentVehicle` keeps. */
  const Limit := 5

  /** The test `addRecentVehicle` filters with: not field-wise equal to `v`. */
  function NotEqualTo(v: Spec): Spec -> bool {
    (e: Spec) => e != v
  }

  /** The entries of `recent` that are not equal to `v`, in order. */
  function Without(recent: seq<Spec>, v: Spec): seq<Spec> {
    Filter(recent, NotEqualTo(v))
  }

  /** `recent` after recording `v`: drop copies of `v`, put `v` in front, keep the first five. */
  function AddedRecent(recent: seq<Spec>, v: Spec): (r: seq<Spec>)
    ensures forall x :: x in r ==> x == v || x in recent
  {
    var front := [v] + Without(recent, v);
    var r := front[..if |front| < Limit then |front| else Limit];
    assert forall x :: x in r ==> x in front;
    r
  }

  /** Removing `v` removes exactly its occurrences. */
  lemma {:induction false} WithoutLength(recent: seq<Spec>, v: Spec)
    ensures |Without(recent, v)| == |recent| - multiset(recent)[v]
  {
    if |recent| != 0 {
      assert recent == [recent[0]] + recent[1..];
      WithoutLength(recent[1..], v);
    }
  }

  /** The recorded vehicle comes first, and no other entry equals it. */
  lemma AddedRecentFront(recent: seq<Spec>, v: Spec)
    ensures |AddedRecent(recent, v)| >= 1 && AddedRecent(recent, v)[0] == v
    ensures forall i :: 1 <= i < |AddedRecent(recent, v)| ==> AddedRecent(recent, v)[i] != v
  {
    var w := Without(recent, v);
    var r := AddedRecent(recent, v);
    forall i | 1 <= i < |r| ensures r[i] != v {
      assert r[i] == w[i - 1] && w[i - 1] in w;
    }
  }

  /** The older entries that survive keep their relative order. */
  lemma AddedRecentKeepsOrder(recent: seq<Spec>, v: Spec)
    ensures IsSubsequence(AddedRecent(recent, v)[1..], recent)
  {
    var w := Without(recent, v);
    var r := AddedRecent(recent, v);
    assert r[1..] == w[..|r| - 1];
    PrefixIsSubsequence(w, |r| - 1, recent);
  }

  /** A prefix of a subsequence is a subsequence. */
  lemma {:induction false} PrefixIsSubsequence(sub: seq<Spec>, k: nat, s: seq<Spec>)
    requires k <= |sub| && IsSubsequence(sub, s)
    ensures IsSubsequence(sub[..k], s)
  {
    if k != 0 {
      if sub[0] == s[0] {
        assert sub[..k][1..] == sub[1..][..k - 1];
        PrefixIsSubsequence(sub[1..], k - 1, s[1..]);
      } else {
        PrefixIsSubsequence(sub, k, s[1..]);
      }
    }
  }

  /** The new length is min(5, 1 + the number of earlier entries not equal to `v`). */
  lemma AddedRecentLength(recent: seq<Spec>, v: Spec)
    ensures var kept := |recent| - multiset(recent)[v];
            |AddedRecent(recent, v)| == if kept + 1 < Limit then kept + 1 else Limit
  {
    WithoutLength(recent, v);
  }

  /** Recording a vehicle not in the list pushes it in front; a full list loses its last entry. */
  lemma AddedRecentNew(recent: seq<Spec>, v: Spec)
    requires v !in recent
    ensures |recent| < Limit ==> AddedRecent(recent, v) == [v] + recent
    ensures |recent| >= Limit ==> AddedRecent(recent, v) == [v] + recent[..Limit - 1]
  {
    FilterAllPass(recent, NotEqualTo(v));
  }

  /** Recording the same vehicle twice in a row is the same as recording it once. */
  lemma AddedRecentIdempotent(recent: seq<Spec>, v: Spec)
    ensures AddedRecent(AddedRecent(recent, v), v) == AddedRecent(recent, v)
  {
    var r := AddedRecent(recent, v);
    AddedRecentFront(recent, v);
    assert r == [v] + r[1..];
    FilterAllPass(r[1..], NotEqualTo(v));
    FilterAppend([v], r[1..], NotEqualTo(v));
    assert Without(r, v) == r[1..];
  }

  /** The shape the stored list keeps: at most five entries, no two equal. */
  predicate WellFormed(recent: seq<Spec>) {
    |recent| <= Limit && Distinct(recent)
  }

  /** Recording keeps the list well formed (a corrupt or hand-edited stored list need not be). */
  lemma AddedRecentWellFormed(recent: seq<Spec>, v: Spec)
    requires Distinct(recent)
    ensures WellFormed(AddedRecent(recent, v))
  {
    var w := Without(recent, v);
    var r := AddedRecent(recent, v);
    AddedRecentFront(recent, v);
    FilterKeepsDistinct(recent, NotEqualTo(v));
    forall i, j | 0 <= i < j < |r| ensures r[i] != r[j] {
      if i > 0 {
        assert r[i] == w[i - 1] && r[j] == w[j - 1];
      }
    }
  }

  /** Re-recording an entry of a well-formed list moves it to the front without changing the length. */
  lemma AddedRecentPresent(recent: seq<Spec>, v: Spec)
    requires WellFormed(recent) && v in recent
    ensures |AddedRecent(recent, v)| == |recent|
    ensures AddedRecent(recent, v)[0] == v
  {
    DistinctCount(recent, v);
    AddedRecentLength(recent, v);
    AddedRecentFront(recent, v);
  }
}
