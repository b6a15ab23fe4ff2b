/** `ORDER BY stamp ASC, id ASC LIMIT n` over rows given as a map from id to time stamp. */
module Oldest {
  import opened Sequences

  type Stamps = map<nat, int>

  predicate Before(stamps: Stamps, x: nat, y: nat)
    requires x in stamps && y in stamps
  {
    stamps[x] < stamps[y] || (stamps[x] == stamps[y] && x < y)
  }

  ghost predicate IsFirst(stamps: Stamps, x: nat) {
    x in stamps && forall y | y in stamps && y != x :: Before(stamps, x, y)
  }

  lemma FirstExists(stamps: Stamps)
    requires stamps != map[]
    ensures exists x :: IsFirst(stamps, x)
    decreases |stamps|
  {
    var z :| z in stamps;
    var rest := stamps - {z};
    if rest == map[] {
      assert forall y | y in stamps :: y == z by {
        forall y | y in stamps ensures y == z { assert y == z || y in rest; }
      }
      assert IsFirst(stamps, z);
    } else {
      FirstExists(rest);
      var w :| IsFirst(rest, w);
      var x := if Before(stamps, z, w) then z else w;
      forall y | y in stamps && y != x ensures Before(stamps, x, y) {
        if y != z && y != w {
          assert y in rest && Before(rest, w, y);
        }
      }
      assert IsFirst(stamps, x);
    }
  }

  function First(stamps: Stamps): (x: nat)
    requires stamps != map[]
    ensures IsFirst(stamps, x)
  {
    FirstExists(stamps);
    assert exists x :: x in stamps && forall y | y in stamps && y != x :: Before(stamps, x, y) by {
      var w :| IsFirst(stamps, w);
    }
    var x :| x in stamps && forall y | y in stamps && y != x :: Before(stamps, x, y);
    x
  }

  /** The first n ids in (stamp, id) order. */
  function Select(stamps: Stamps, n: nat): (ids: seq<nat>)
    ensures |ids| <= n
    ensures forall id | id in ids :: id in stamps
    decreases n
  {
    if n == 0 || stamps == map[] then []
    else
      var x := First(stamps);
      [x] + Select(stamps - {x}, n - 1)
  }

  /** The selection is sorted and repeats nothing, it comes before every row it leaves out,
      and it leaves a row out only when it is full. */
  lemma {:induction false} SelectTakesOldest(stamps: Stamps, n: nat)
    ensures var ids := Select(stamps, n);
            && NoRepeats(ids)
            && (forall i, j | 0 <= i < j < |ids| :: Before(stamps, ids[i], ids[j]))
            && (forall x, y | x in ids && y in stamps && y !in ids :: Before(stamps, x, y))
            && ((exists y :: y in stamps && y !in ids) ==> |ids| == n)
    decreases n
  {
    if n != 0 && stamps != map[] {
      var x := First(stamps);
      var rest := stamps - {x};
      var tail := Select(rest, n - 1);
      SelectTakesOldest(rest, n - 1);
      var ids := [x] + tail;
      assert forall id | id in tail :: id in rest && id != x;
      forall i, j | 0 <= i < j < |ids|
        ensures ids[i] != ids[j] && Before(stamps, ids[i], ids[j])
      {
        assert ids[j] == tail[j - 1] && tail[j - 1] in tail;
        if i > 0 {
          assert Before(rest, tail[i - 1], tail[j - 1]);
        }
      }
      forall a, b | a in ids && b in stamps && b !in ids
        ensures Before(stamps, a, b)
      {
        assert b != x && b in rest && b !in tail;
        if a != x {
          assert a in tail;
          assert Before(rest, a, b);
        }
      }
      if y :| y in stamps && y !in ids {
        assert y in rest && y !in tail;
      }
    }
  }
}
