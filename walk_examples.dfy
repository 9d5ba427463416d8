module WalkExamples {
  import opened Wrappers
  import opened SchemaWalk
  import opened WalkLedger
  import opened WalkOrder
  import opened WalkHandling

  const R := Schema(Some("r"), ["a", "b"], [])
  const A := Schema(Some("a"), ["l"], [])
  const B := Schema(Some("b"), ["l"], [])
  const L := Schema(Some("l"), [], [])

  lemma WrongOrderRejected()
    ensures var log := [Visit(R, [], Inline(0)), Visit(A, [], Ref(0, Import, 0, "a", ["a"])),
                        Visit(B, [], Ref(0, Import, 1, "b", ["b"])), Visit(L, [], Ref(2, Import, 0, "l", ["l"]))];
      !Complete(log, 1)
  {
    var log := [Visit(R, [], Inline(0)), Visit(A, [], Ref(0, Import, 0, "a", ["a"])),
                Visit(B, [], Ref(0, Import, 1, "b", ["b"])), Visit(L, [], Ref(2, Import, 0, "l", ["l"]))];
    assert After(log, 1, Import, 0, 2);
    assert !Handled(log, 1, Import, 0);
  }

  lemma ProgramOrderAccepted()
    ensures var log := [Visit(R, [], Inline(0)), Visit(A, [], Ref(0, Import, 0, "a", ["a"])),
                        Visit(L, [], Ref(1, Import, 0, "l", ["l"])), Visit(B, [], Ref(0, Import, 1, "b", ["b"]))];
      forall j :: 0 <= j < |log| ==> Complete(log, j)
  {
    var log := [Visit(R, [], Inline(0)), Visit(A, [], Ref(0, Import, 0, "a", ["a"])),
                Visit(L, [], Ref(1, Import, 0, "l", ["l"])), Visit(B, [], Ref(0, Import, 1, "b", ["b"]))];
    assert ChildAt(log, 0, Import, 0, 1) && ChildAt(log, 0, Import, 1, 3) && ChildAt(log, 1, Import, 0, 2);
    assert Handled(log, 3, Import, 0) by {
      assert log[2].origin.location == "l";
    }
  }

  const S := Schema(Some("r"), ["s/a"], ["x"])
  const SA := Schema(Some("a"), ["x"], [])
  const SX := Schema(Some("x"), [], [])

  /** R imports "s/a", which imports "x"; R then includes "x" again, a
      location already processed. A failed walk over these three visits
      has no reference left where it could have stopped: every one names a
      location some visit was reached through. */
  lemma NoStopAtKnownLocation(files: Files)
    ensures var w := Walk({"s/a", "x", "zzz"}, ["r", "a", "x"],
                          [Visit(S, ["d"], Inline(0)), Visit(SA, ["d", "s"], Ref(0, Import, 0, "s/a", ["d", "s", "a"])),
                           Visit(SX, ["d", "s"], Ref(1, Import, 0, "x", ["d", "s", "x"]))], false);
      forall q: nat, kind: RefKind, pos: nat :: !Stopped(files, w, q, kind, pos)
  {
    var w := Walk({"s/a", "x", "zzz"}, ["r", "a", "x"],
                  [Visit(S, ["d"], Inline(0)), Visit(SA, ["d", "s"], Ref(0, Import, 0, "s/a", ["d", "s", "a"])),
                   Visit(SX, ["d", "s"], Ref(1, Import, 0, "x", ["d", "s", "x"]))], false);
    assert Visited(w.log, 0, "s/a") && Visited(w.log, 0, "x") by {
      assert w.log[1].origin.location == "s/a" && w.log[2].origin.location == "x";
    }
  }
}
