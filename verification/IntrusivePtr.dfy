/** The reference-counting pointer `vs_intrusive_ptr` of avs_core/core/AVSMap.h: which pointer leads to which
    object, and the count each live object keeps. An object whose count is gone has been deleted. */
module IntrusivePtr {
  datatype Refs<P(==), O(==)> = Refs(ptrs: map<P, O>, counts: map<O, int>)

  ghost function Holders<P, O>(ptrs: map<P, O>, o: O): (r: set<P>) {
    set p | p in ptrs && ptrs[p] == o
  }

  /** Every pointer leads to a live object, and every live object counts its pointers. */
  ghost predicate Sound<P(!new), O(!new)>(r: Refs<P, O>) {
    && (forall p :: p in r.ptrs ==> r.ptrs[p] in r.counts)
    && (forall o :: o in r.counts ==> r.counts[o] == |Holders(r.ptrs, o)| && r.counts[o] > 0)
  }

  function AddRef<O(==)>(counts: map<O, int>, o: O): (r: map<O, int>)
    requires o in counts
  {
    counts[o := counts[o] + 1]
  }

  function Release<O(==)>(counts: map<O, int>, o: O): (r: map<O, int>)
    requires o in counts
  {
    if counts[o] - 1 == 0 then counts - {o} else counts[o := counts[o] - 1]
  }

  /** Copy construction or assignment: the new object is counted before the old one is let go. */
  function Point<P(==), O(==)>(r: Refs<P, O>, p: P, o: O): (r': Refs<P, O>)
    requires o in r.counts && (p in r.ptrs ==> r.ptrs[p] in r.counts)
  {
    var counts := AddRef(r.counts, o);
    Refs(r.ptrs[p := o], if p in r.ptrs then Release(counts, r.ptrs[p]) else counts)
  }

  /** A new object, which starts with count 1, is given to the pointer p. */
  function PointNew<P(==), O(==)>(r: Refs<P, O>, p: P, o: O): (r': Refs<P, O>)
    requires o !in r.counts && (p in r.ptrs ==> r.ptrs[p] in r.counts)
  {
    var counts := r.counts[o := 1];
    Refs(r.ptrs[p := o], if p in r.ptrs then Release(counts, r.ptrs[p]) else counts)
  }

  /** The pointer is destroyed. */
  function Drop<P(==), O(==)>(r: Refs<P, O>, p: P): (r': Refs<P, O>)
    requires p in r.ptrs && r.ptrs[p] in r.counts
  {
    Refs(r.ptrs - {p}, Release(r.counts, r.ptrs[p]))
  }

  lemma HoldersGain<P(!new), O(!new)>(ptrs: map<P, O>, p: P, o: O, x: O)
    requires p !in ptrs
    ensures |Holders(ptrs[p := o], x)| == |Holders(ptrs, x)| + if x == o then 1 else 0
  {
    assert Holders(ptrs[p := o], x) == Holders(ptrs, x) + if x == o then {p} else {};
  }

  lemma HoldersLose<P(!new), O(!new)>(ptrs: map<P, O>, p: P, x: O)
    requires p in ptrs
    ensures |Holders(ptrs - {p}, x)| == |Holders(ptrs, x)| - if x == ptrs[p] then 1 else 0
  {
    if x == ptrs[p] {
      assert Holders(ptrs, x) == Holders(ptrs - {p}, x) + {p};
    } else {
      assert Holders(ptrs - {p}, x) == Holders(ptrs, x);
    }
  }

  lemma HoldersMove<P(!new), O(!new)>(ptrs: map<P, O>, p: P, o: O, x: O)
    ensures |Holders(ptrs[p := o], x)| == |Holders(ptrs, x)| + (if x == o then 1 else 0)
      - (if p in ptrs && x == ptrs[p] then 1 else 0)
  {
    if p in ptrs {
      HoldersLose(ptrs, p, x);
      assert (ptrs - {p})[p := o] == ptrs[p := o];
      HoldersGain(ptrs - {p}, p, o, x);
    } else {
      HoldersGain(ptrs, p, o, x);
    }
  }

  /** An object dies with its last pointer, never before. */
  lemma PointSound<P(!new), O(!new)>(r: Refs<P, O>, p: P, o: O)
    requires Sound(r) && o in r.counts
    ensures Sound(Point(r, p, o))
    ensures forall x :: x in Point(r, p, o).counts ==> x in r.counts
  {
    var r' := Point(r, p, o);
    forall x ensures |Holders(r'.ptrs, x)| == |Holders(r.ptrs, x)| + (if x == o then 1 else 0)
      - (if p in r.ptrs && x == r.ptrs[p] then 1 else 0)
    {
      HoldersMove(r.ptrs, p, o, x);
    }
    forall q | q in r'.ptrs ensures r'.ptrs[q] in r'.counts {
      assert q in Holders(r'.ptrs, r'.ptrs[q]);
    }
  }

  lemma PointNewSound<P(!new), O(!new)>(r: Refs<P, O>, p: P, o: O)
    requires Sound(r) && o !in r.counts
    ensures Sound(PointNew(r, p, o))
    ensures forall x :: x in PointNew(r, p, o).counts ==> x == o || x in r.counts
    ensures o in PointNew(r, p, o).counts && PointNew(r, p, o).counts[o] == 1
  {
    var r' := PointNew(r, p, o);
    assert Holders(r.ptrs, o) == {};
    forall x ensures |Holders(r'.ptrs, x)| == |Holders(r.ptrs, x)| + (if x == o then 1 else 0)
      - (if p in r.ptrs && x == r.ptrs[p] then 1 else 0)
    {
      HoldersMove(r.ptrs, p, o, x);
    }
    forall q | q in r'.ptrs ensures r'.ptrs[q] in r'.counts {
      assert q in Holders(r'.ptrs, r'.ptrs[q]);
    }
  }

  lemma DropSound<P(!new), O(!new)>(r: Refs<P, O>, p: P)
    requires Sound(r) && p in r.ptrs
    ensures Sound(Drop(r, p))
    ensures forall x :: x in Drop(r, p).counts ==> x in r.counts
  {
    var r' := Drop(r, p);
    forall x ensures |Holders(r'.ptrs, x)| == |Holders(r.ptrs, x)| - if x == r.ptrs[p] then 1 else 0 {
      HoldersLose(r.ptrs, p, x);
    }
    forall q | q in r'.ptrs ensures r'.ptrs[q] in r'.counts {
      assert q in Holders(r'.ptrs, r'.ptrs[q]);
    }
  }

  /** `unique()` tells the truth: with count 1, nobody else points there. */
  lemma UniqueIsSole<P(!new), O(!new)>(r: Refs<P, O>, p: P, q: P)
    requires Sound(r) && p in r.ptrs && q in r.ptrs && r.ptrs[p] == r.ptrs[q] && r.counts[r.ptrs[p]] == 1
    ensures p == q
  {
    var h := Holders(r.ptrs, r.ptrs[p]);
    assert p in h && q in h;
    assert |h - {p}| == 0;
  }
}
