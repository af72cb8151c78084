/** Intersecting one list of builder names with several others. */
module BuilderLists {
  import opened BuilderNames

  /** `own` intersected with each of `lists` in turn. */
  function IntersectAll(own: seq<string>, lists: seq<seq<string>>): seq<string> {
    if lists == [] then own
    else Intersection(IntersectAll(own, lists[..|lists| - 1]), lists[|lists| - 1])
  }

  function LowerEach(lists: seq<seq<string>>): (lowered: seq<seq<string>>)
    ensures |lowered| == |lists|
  {
    seq(|lists|, i requires 0 <= i < |lists| => LowerAll(lists[i]))
  }

  /** A name is left exactly when every list has it. */
  lemma {:induction false} IntersectAllNames(own: seq<string>, lists: seq<seq<string>>)
    ensures forall s :: s in Names(IntersectAll(own, lists)) <==>
              s in Names(own) && forall i :: 0 <= i < |lists| ==> s in Names(lists[i])
  {
    if lists != [] {
      var front, last := lists[..|lists| - 1], lists[|lists| - 1];
      IntersectAllNames(own, front);
      IntersectionNames(IntersectAll(own, front), last);
      assert lists == front + [last];
      forall s
        ensures s in Names(IntersectAll(own, lists)) <==>
                  s in Names(own) && forall i :: 0 <= i < |lists| ==> s in Names(lists[i])
      {
        assert (forall i :: 0 <= i < |lists| ==> s in Names(lists[i])) <==>
               (forall i :: 0 <= i < |front| ==> s in Names(front[i])) && s in Names(last);
      }
    }
  }

  lemma LowerEachNames(lists: seq<seq<string>>)
    ensures forall i :: 0 <= i < |lists| ==> Names(LowerEach(lists)[i]) == Names(lists[i])
  {
    forall i | 0 <= i < |lists|
      ensures Names(LowerEach(lists)[i]) == Names(lists[i])
    {
      NamesOfLowered(lists[i]);
    }
  }

  lemma IntersectAllLowered(own: seq<string>, lists: seq<seq<string>>)
    requires lists != []
    ensures LowerAll(IntersectAll(own, lists)) == IntersectAll(own, lists)
  {
    IntersectionNames(IntersectAll(own, lists[..|lists| - 1]), lists[|lists| - 1]);
  }

  /** Doing it again with the outcome and lowered lists yields the very same sequence. */
  lemma IntersectAllAgain(own: seq<string>, lists: seq<seq<string>>)
    ensures var r := LowerAll(IntersectAll(own, lists));
            LowerAll(IntersectAll(r, LowerEach(lists))) == r
  {
    var r := LowerAll(IntersectAll(own, lists));
    if lists == [] {
      LowerAllIdempotent(own);
    } else {
      var front, last := lists[..|lists| - 1], lists[|lists| - 1];
      IntersectAllLowered(own, lists);
      IntersectAllLowered(r, LowerEach(lists));
      assert LowerEach(lists)[..|lists| - 1] == LowerEach(front);
      LowerAllIdempotent(last);
      SurvivorsSurvive(own, front, last);
      FilteredSame(LowerAll(last), Names(IntersectAll(own, front)), Names(IntersectAll(r, LowerEach(front))));
    }
  }

  lemma SurvivorsSurvive(own: seq<string>, front: seq<seq<string>>, last: seq<string>)
    ensures var r := Intersection(IntersectAll(own, front), last);
            forall s :: s in LowerAll(last) ==>
              (s in Names(IntersectAll(own, front)) <==> s in Names(IntersectAll(r, LowerEach(front))))
  {
    var r := Intersection(IntersectAll(own, front), last);
    IntersectAllNames(own, front);
    IntersectAllNames(r, LowerEach(front));
    LowerEachNames(front);
    IntersectionNames(IntersectAll(own, front), last);
    NamesOfLowered(last);
  }
}
