/** Lists of locks built from rows, and when such a list keeps the discipline. */
module LockPlans {
  import opened Counting
  import opened LockOrder

  function Waits(rs: seq<Resource>): seq<Want> {
    seq(|rs|, i requires 0 <= i < |rs| => Wait(rs[i]))
  }

  function Skips(rs: seq<Resource>): seq<Want> {
    seq(|rs|, i requires 0 <= i < |rs| => SkipLocked(rs[i]))
  }

  function Rows(level: nat, ids: seq<nat>): seq<Resource> {
    seq(|ids|, i requires 0 <= i < |ids| => Row(level, ids[i]))
  }

  function Elements(rs: seq<Resource>): set<Resource> {
    set r | r in rs
  }

  predicate LevelsBelow(held: set<Resource>, level: nat) {
    forall h | h in held && h.Row? :: h.level < level
  }

  /** One list after another. */
  lemma {:induction false} Then(held: set<Resource>, a: seq<Resource>, b: seq<Resource>)
    requires Disciplined(held, Waits(a)) && Disciplined(held + Elements(a), Waits(b))
    ensures Disciplined(held, Waits(a + b))
    decreases |a|
  {
    if a == [] {
      assert a + b == b && held + Elements(a) == held;
    } else {
      assert Waits(a)[1..] == Waits(a[1..]);
      assert held + {a[0]} + Elements(a[1..]) == held + Elements(a);
      Then(held + {a[0]}, a[1..], b);
      assert Waits(a + b)[1..] == Waits(a[1..] + b);
    }
  }

  lemma {:induction false} HeldAgain(held: set<Resource>, rs: seq<Resource>)
    requires forall r | r in rs :: r.Row? && r in held
    ensures Disciplined(held, Waits(rs))
  {
    if rs != [] {
      assert rs[0] in rs && held + {rs[0]} == held;
      HeldAgain(held, rs[1..]);
      assert Waits(rs)[1..] == Waits(rs[1..]);
    }
  }

  lemma {:induction false} CoversFirst(held: set<Resource>, rs: seq<Resource>)
    requires forall r | r in rs :: r.Covered? && r.cover in held
    ensures Disciplined(held, Waits(rs))
    decreases |rs|
  {
    if rs != [] {
      assert rs[0] in rs;
      CoversFirst(held + {rs[0]}, rs[1..]);
      assert Waits(rs)[1..] == Waits(rs[1..]);
    }
  }

  lemma OneRow(held: set<Resource>, level: nat, id: nat)
    requires LevelsBelow(held, level)
    ensures Disciplined(held, Waits([Row(level, id)]))
  {
    assert Waits([Row(level, id)]) == [Wait(Row(level, id))];
  }

  lemma {:induction false} AscendingRows(held: set<Resource>, level: nat, ids: seq<nat>)
    requires Ascending(ids)
    requires forall h | h in held && h.Row? :: h.level < level || (h.level == level && forall i | 0 <= i < |ids| :: h.id < ids[i])
    ensures Disciplined(held, Waits(Rows(level, ids)))
    decreases |ids|
  {
    if ids != [] {
      var rs := Rows(level, ids);
      assert Above(held, rs[0]);
      AscendingRows(held + {rs[0]}, level, ids[1..]);
      assert Waits(rs)[1..] == Waits(Rows(level, ids[1..]));
    }
  }

  lemma RowsStayBelow(held: set<Resource>, level: nat, ids: seq<nat>)
    requires LevelsBelow(held, level)
    ensures LevelsBelow(held + Elements(Rows(level, ids)), level + 1)
  {
  }

  /** Rows of two further levels, each by ascending id. */
  lemma TwoLevels(held: set<Resource>, level: nat, first: seq<nat>, second: seq<nat>)
    requires LevelsBelow(held, level) && Ascending(first) && Ascending(second)
    ensures Disciplined(held, Waits(Rows(level, first) + Rows(level + 1, second)))
    ensures LevelsBelow(held + Elements(Rows(level, first) + Rows(level + 1, second)), level + 2)
  {
    AscendingRows(held, level, first);
    RowsStayBelow(held, level, first);
    AscendingRows(held + Elements(Rows(level, first)), level + 1, second);
    Then(held, Rows(level, first), Rows(level + 1, second));
  }

  /** Rows of three further levels. */
  lemma ThreeLevels(held: set<Resource>, level: nat, first: seq<nat>, second: seq<nat>, third: seq<nat>)
    requires LevelsBelow(held, level) && Ascending(first) && Ascending(second) && Ascending(third)
    ensures Disciplined(held, Waits(Rows(level, first) + Rows(level + 1, second) + Rows(level + 2, third)))
  {
    var two := Rows(level, first) + Rows(level + 1, second);
    TwoLevels(held, level, first, second);
    AscendingRows(held + Elements(two), level + 2, third);
    Then(held, two, Rows(level + 2, third));
  }

  /** Rows taken with SKIP LOCKED first: whichever of them were taken, what follows lies above them. */
  lemma {:induction false} SkipsFirst(held: set<Resource>, ids: seq<nat>, second: seq<nat>, third: seq<nat>, fourth: seq<nat>)
    requires LevelsBelow(held, 1) && Ascending(second) && Ascending(third) && Ascending(fourth)
    ensures Disciplined(held, Skips(Rows(0, ids)) + Waits(Rows(1, second) + Rows(2, third) + Rows(3, fourth)))
    decreases |ids|
  {
    var later := Waits(Rows(1, second) + Rows(2, third) + Rows(3, fourth));
    var plan := Skips(Rows(0, ids)) + later;
    if ids == [] {
      assert plan == later;
      ThreeLevels(held, 1, second, third, fourth);
    } else {
      assert plan[1..] == Skips(Rows(0, ids[1..])) + later;
      SkipsFirst(held + {Row(0, ids[0])}, ids[1..], second, third, fourth);
      SkipsFirst(held, ids[1..], second, third, fourth);
    }
  }
}
