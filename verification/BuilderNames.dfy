/** Lists of builder names and their intersection. */
module BuilderNames {

  function LowerChar(c: char): char {
    if 'A' <= c <= 'Z' then c - 'A' + 'a' else c
  }

  function ToLower(s: string): string {
    seq(|s|, i requires 0 <= i < |s| => LowerChar(s[i]))
  }

  /** Letters A to Z move to a to z, 32 code points up; everything else stays in place. */
  lemma ToLowerChars(s: string)
    ensures |ToLower(s)| == |s|
    ensures forall i :: 0 <= i < |s| ==>
              ToLower(s)[i] as int == s[i] as int + if 65 <= s[i] as int <= 90 then 32 else 0
  {
  }

  lemma ToLowerIdempotent(s: string)
    ensures ToLower(ToLower(s)) == ToLower(s)
  {
  }

  function LowerAll(names: seq<string>): (lowered: seq<string>)
    ensures |lowered| == |names|
  {
    seq(|names|, i requires 0 <= i < |names| => ToLower(names[i]))
  }

  lemma LowerAllIdempotent(names: seq<string>)
    ensures LowerAll(LowerAll(names)) == LowerAll(names)
  {
    forall i | 0 <= i < |names|
      ensures ToLower(ToLower(names[i])) == ToLower(names[i])
    {
      ToLowerIdempotent(names[i]);
    }
  }

  /** The names of the list, ignoring case and order. */
  function Names(names: seq<string>): set<string> {
    set i | 0 <= i < |names| :: ToLower(names[i])
  }

  lemma NamesOfLowered(names: seq<string>)
    ensures Names(LowerAll(names)) == Names(names)
    ensures Names(names) == set s | s in LowerAll(names)
  {
    forall i | 0 <= i < |names|
      ensures ToLower(LowerAll(names)[i]) == ToLower(names[i])
    {
      ToLowerIdempotent(names[i]);
    }
    forall s | s in Names(names)
      ensures s in LowerAll(names) && s in Names(LowerAll(names))
    {
      var i :| 0 <= i < |names| && s == ToLower(names[i]);
      assert LowerAll(names)[i] == s;
      assert ToLower(LowerAll(names)[i]) == s;
    }
    forall s | s in LowerAll(names)
      ensures s in Names(names)
    {
      var i :| 0 <= i < |names| && LowerAll(names)[i] == s;
      assert s == ToLower(names[i]);
    }
    forall s | s in Names(LowerAll(names))
      ensures s in Names(names)
    {
      var i :| 0 <= i < |names| && s == ToLower(LowerAll(names)[i]);
      assert s == ToLower(names[i]);
    }
  }

  /** The elements of `names` that lie in `keep`, in order. */
  function Filtered(names: seq<string>, keep: set<string>): seq<string> {
    if names == [] then []
    else Filtered(names[..|names| - 1], keep) +
         if names[|names| - 1] in keep then [names[|names| - 1]] else []
  }

  lemma {:induction false} FilteredElements(names: seq<string>, keep: set<string>)
    ensures forall s :: s in Filtered(names, keep) <==> s in names && s in keep
  {
    if names != [] {
      FilteredElements(names[..|names| - 1], keep);
      assert names == names[..|names| - 1] + [names[|names| - 1]];
    }
  }

  /** Only membership of the elements matters. */
  lemma {:induction false} FilteredSame(names: seq<string>, keep: set<string>, keep': set<string>)
    requires forall s :: s in names ==> (s in keep <==> s in keep')
    ensures Filtered(names, keep) == Filtered(names, keep')
  {
    if names != [] {
      FilteredSame(names[..|names| - 1], keep, keep');
    }
  }

  /** The names of `b` that also occur in `a`, lowered, in the order of `b` and as often as there. */
  function Intersection(a: seq<string>, b: seq<string>): seq<string> {
    Filtered(LowerAll(b), Names(a))
  }

  lemma IntersectionNames(a: seq<string>, b: seq<string>)
    ensures Names(Intersection(a, b)) == Names(a) * Names(b)
    ensures LowerAll(Intersection(a, b)) == Intersection(a, b)
  {
    var r := Intersection(a, b);
    FilteredElements(LowerAll(b), Names(a));
    NamesOfLowered(b);
    forall i | 0 <= i < |r|
      ensures ToLower(r[i]) == r[i]
    {
      assert r[i] in r;
      var j :| 0 <= j < |b| && LowerAll(b)[j] == r[i];
      ToLowerIdempotent(b[j]);
    }
    assert LowerAll(r) == r;
    NamesOfLowered(r);
  }

  /** Order and repetition are those of the second list. */
  lemma IntersectionSnoc(a: seq<string>, b: seq<string>, name: string)
    ensures Intersection(a, []) == []
    ensures Intersection(a, b + [name]) ==
            Intersection(a, b) +
            if exists i :: 0 <= i < |a| && ToLower(a[i]) == ToLower(name) then [ToLower(name)] else []
  {
    var all := LowerAll(b + [name]);
    assert all[..|b|] == LowerAll(b) && all[|b|] == ToLower(name);
  }

  /** The loops of Intersect. Either list being empty gives the empty list. */
  method Intersect(a: seq<string>, b: seq<string>) returns (ret: seq<string>)
    ensures ret == Intersection(a, b)
  {
    if |a| == 0 || |b| == 0 {
      assert |a| == 0 ==> Names(a) == {};
      FilteredElements(LowerAll(b), Names(a));
      EmptyIffNoElements(Intersection(a, b));
      return [];
    }
    var m: set<string> := {};
    var i := 0;
    while i < |a|
      invariant 0 <= i <= |a|
      invariant m == Names(a[..i])
    {
      var v := ToLower(a[i]);
      NamesAppend(a, i);
      m := m + {v};
      i := i + 1;
    }
    assert a[..i] == a;
    ret := [];
    i := 0;
    while i < |b|
      invariant 0 <= i <= |b|
      invariant ret == Filtered(LowerAll(b)[..i], Names(a))
    {
      var v := ToLower(b[i]);
      assert LowerAll(b)[..i + 1][..i] == LowerAll(b)[..i];
      assert LowerAll(b)[..i + 1][i] == v;
      if v in m {
        ret := ret + [v];
      }
      i := i + 1;
    }
    assert LowerAll(b)[..i] == LowerAll(b);
  }

  lemma NamesAppend(a: seq<string>, i: nat)
    requires i < |a|
    ensures Names(a[..i + 1]) == Names(a[..i]) + {ToLower(a[i])}
  {
    var x, y := Names(a[..i + 1]), Names(a[..i]) + {ToLower(a[i])};
    forall s | s in x
      ensures s in y
    {
      var j :| 0 <= j < |a[..i + 1]| && s == ToLower(a[..i + 1][j]);
      if j < i {
        assert a[..i][j] == a[j];
      }
    }
    forall s | s in y
      ensures s in x
    {
      if s in Names(a[..i]) {
        var j :| 0 <= j < i && s == ToLower(a[..i][j]);
        assert a[..i + 1][j] == a[j];
      } else {
        assert a[..i + 1][i] == a[i];
      }
    }
  }

  lemma EmptyIffNoElements(s: seq<string>)
    ensures s == [] <==> forall x :: x !in s
  {
    if s != [] {
      assert s[0] in s;
    }
  }
}
