/** Sets of numbers in ascending order, and their sizes. */
module Counting {

  predicate Ascending(ids: seq<nat>) {
    forall i, j | 0 <= i < j < |ids| :: ids[i] < ids[j]
  }

  /** Ascending, with repetitions. */
  predicate Sorted(ts: seq<nat>) {
    forall i, j | 0 <= i < j < |ts| :: ts[i] <= ts[j]
  }

  predicate IsLeast(s: set<nat>, x: nat) {
    x in s && forall y | y in s :: x <= y
  }

  lemma LeastExists(s: set<nat>)
    requires s != {}
    ensures exists x :: IsLeast(s, x)
    decreases |s|
  {
    var x :| x in s;
    var rest := s - {x};
    assert forall y | y in s :: y == x || y in rest;
    if rest == {} {
      assert IsLeast(s, x);
    } else {
      LeastExists(rest);
      var z :| IsLeast(rest, z);
      assert IsLeast(s, if z < x then z else x);
    }
  }

  function Least(s: set<nat>): (x: nat)
    requires s != {}
    ensures x in s && forall y | y in s :: x <= y
  {
    LeastExists(s);
    var x :| x in s && IsLeast(s, x);
    x
  }

  /** `ORDER BY id`: all members, in order. */
  function Listed(s: set<nat>): (ids: seq<nat>)
    ensures Ascending(ids) && forall x :: x in ids <==> x in s
    decreases s
  {
    if s == {} then []
    else
      var rest := Listed(s - {Least(s)});
      assert forall i | 0 <= i < |rest| :: rest[i] in s - {Least(s)};
      [Least(s)] + rest
  }

  /** `ORDER BY id LIMIT most`: the first members of a set, in order. */
  function FirstOf(s: set<nat>, most: nat): seq<nat> {
    var all := Listed(s);
    if |all| <= most then all else all[..most]
  }

  lemma FirstOfIsFirst(s: set<nat>, most: nat, x: nat)
    requires x in s && most > 0
    ensures
      var ids := FirstOf(s, most);
      x in ids || (|ids| == most && ids[most - 1] < x)
  {
    var all := Listed(s);
    var k :| 0 <= k < |all| && all[k] == x;
    if k < |FirstOf(s, most)| {
      assert FirstOf(s, most)[k] == x;
    }
  }

  /** A set within `len` consecutive numbers has at most `len` elements. */
  lemma RangeSize(s: set<nat>, lo: nat, len: nat)
    requires forall x | x in s :: lo <= x < lo + len
    ensures |s| <= len
    ensures (forall x | lo <= x < lo + len :: x in s) ==> |s| == len
    decreases len
  {
    if len == 0 {
      assert s == {};
    } else {
      RangeSize(s - {lo + len - 1}, lo, len - 1);
    }
  }
}
