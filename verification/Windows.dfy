/** The windows into which the indexer cuts the blocks up to the head. */
module Windows {

  /** Both ends included. */
  datatype Range = Range(lo: nat, hi: nat)

  /** The ranges follow each other without gap or overlap, from lo to just below end. */
  predicate Tiles(cut: seq<Range>, lo: nat, end: nat) {
    if cut == [] then lo == end
    else
      var last := cut[|cut| - 1];
      last.lo <= last.hi && last.hi + 1 == end && Tiles(cut[..|cut| - 1], lo, last.lo)
  }

  lemma {:induction false} TilesGrow(cut: seq<Range>, lo: nat, end: nat)
    requires Tiles(cut, lo, end)
    ensures lo <= end && forall r | r in cut :: lo <= r.lo <= r.hi < end
  {
    if cut != [] {
      TilesGrow(cut[..|cut| - 1], lo, cut[|cut| - 1].lo);
      assert cut == cut[..|cut| - 1] + [cut[|cut| - 1]];
    }
  }

  /** Every block lies in exactly one range, and the ranges hold no other block. */
  lemma {:induction false} TilesOnce(cut: seq<Range>, lo: nat, end: nat, block: nat)
    requires Tiles(cut, lo, end)
    ensures lo <= block < end <==> exists i :: 0 <= i < |cut| && cut[i].lo <= block <= cut[i].hi
    ensures forall i, j | 0 <= i < j < |cut| :: cut[i].hi < cut[j].lo
  {
    if cut != [] {
      var front, last := cut[..|cut| - 1], cut[|cut| - 1];
      TilesGrow(front, lo, last.lo);
      TilesOnce(front, lo, last.lo, block);
      if last.lo <= block < end {
        assert cut[|front|].lo <= block <= cut[|front|].hi;
      }
      if lo <= block < last.lo {
        var i :| 0 <= i < |front| && front[i].lo <= block <= front[i].hi;
        assert cut[i].lo <= block <= cut[i].hi;
      }
      forall i | 0 <= i < |front|
        ensures cut[i].hi < last.lo
      {
        assert front[i] in front;
      }
    }
  }

  lemma {:induction false} TilesConcat(a: seq<Range>, b: seq<Range>, lo: nat, mid: nat, end: nat)
    requires Tiles(a, lo, mid) && Tiles(b, mid, end)
    ensures Tiles(a + b, lo, end)
  {
    if b == [] {
      assert a + b == a;
    } else {
      var front, last := b[..|b| - 1], b[|b| - 1];
      TilesConcat(a, front, lo, mid, last.lo);
      assert (a + b)[..|a + b| - 1] == a + front;
    }
  }

  /** Windows behind windows; there are none exactly when nothing lies between. */
  lemma MoreWindows(a: seq<Range>, b: seq<Range>, lo: nat, mid: nat, end: nat)
    requires Tiles(a, lo, mid) && Tiles(b, mid, end)
    ensures Tiles(a + b, lo, end) && (b == [] <==> mid == end)
  {
    TilesConcat(a, b, lo, mid, end);
    TilesGrow(b, mid, end);
    if b != [] {
      assert b[0] in b;
    }
  }

  /** Where the loop over windows goes on. */
  function NextWindow(from: nat, size: nat): nat {
    from + size
  }

  /** The windows the loop cuts, none of them longer than the size. */
  function WindowsOf(next: nat, head: nat, size: nat): seq<Range>
    requires size >= 1
    decreases head + 1 - next
  {
    if next > head then []
    else [FirstWindow(next, head, size)] + WindowsOf(NextWindow(next, size), head, size)
  }

  function FirstWindow(next: nat, head: nat, size: nat): Range
    requires size >= 1
  {
    var end := NextWindow(next, size);
    Range(next, if end - 1 > head then head else end - 1)
  }

  lemma {:induction false} WindowsTile(next: nat, head: nat, size: nat)
    requires size >= 1 && next <= head
    ensures Tiles(WindowsOf(next, head, size), next, head + 1)
    ensures forall r | r in WindowsOf(next, head, size) :: r.hi - r.lo < size
    decreases head - next
  {
    var end := NextWindow(next, size);
    var first := FirstWindow(next, head, size);
    assert [first][..0] == [];
    if end <= head {
      WindowsTile(end, head, size);
      TilesConcat([first], WindowsOf(end, head, size), next, end, head + 1);
    } else {
      assert WindowsOf(next, head, size) == [first];
    }
  }

  /** Only the last window falls short of the size. */
  lemma {:induction false} WindowsAreFull(next: nat, head: nat, size: nat, i: nat)
    requires size >= 1 && i + 1 < |WindowsOf(next, head, size)|
    ensures var r := WindowsOf(next, head, size)[i];
            r.hi - r.lo + 1 == size
    decreases i
  {
    var rest := WindowsOf(NextWindow(next, size), head, size);
    assert WindowsOf(next, head, size) == [FirstWindow(next, head, size)] + rest;
    if i > 0 {
      WindowsAreFull(NextWindow(next, size), head, size, i - 1);
    }
  }

  /** Where it stands after some turns. */
  function AfterTurns(from: nat, size: nat, turns: nat): nat {
    if turns == 0 then from else NextWindow(AfterTurns(from, size, turns - 1), size)
  }

  /** The loop leaves the blocks up to a head behind if and only if windows are not empty,
      unless it has nothing to do. */
  lemma WindowsMustNotBeEmpty(from: nat, head: nat, size: nat)
    requires from <= head
    ensures (exists turns :: AfterTurns(from, size, turns) > head) <==> size >= 1
  {
    if size >= 1 {
      Advances(from, size, head + 1);
    }
    forall turns | size == 0
      ensures AfterTurns(from, size, turns) == from
    {
      Stalls(from, turns);
    }
  }

  lemma {:induction false} Advances(from: nat, size: nat, turns: nat)
    requires size >= 1
    ensures AfterTurns(from, size, turns) >= turns
  {
    if turns > 0 {
      Advances(from, size, turns - 1);
    }
  }

  lemma {:induction false} Stalls(from: nat, turns: nat)
    ensures AfterTurns(from, 0, turns) == from
  {
    if turns > 0 {
      Stalls(from, turns - 1);
    }
  }
}
