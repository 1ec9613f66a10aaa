/** Sets kept as sorted runs of hashes (internal/diff/counts.go): in-place deduplication and
    merge-joins for the two differences. */
module HashSets {
  import opened Text
  import opened Bags
  import opened Slices

  const AS_NUMBER: Word -> int := (w: Word) => w as int

  ghost predicate Up(s: seq<Word>) {
    forall i, j :: 0 <= i < j < |s| ==> s[i] < s[j]
  }

  function Elems(s: seq<Word>): set<Word> {
    set x | x in s
  }

  lemma ElemsSnoc(s: seq<Word>, n: nat)
    requires n < |s|
    ensures Elems(s[..n + 1]) == Elems(s[..n]) + {s[n]}
  {
    TakeSnoc(s, n + 1);
  }

  method SortHashes(hs: array<Word>)
    modifies hs
    ensures NumbersSorted(hs[..], AS_NUMBER)
    ensures Elems(hs[..]) == Elems(old(hs[..]))
  {
    var before := hs[..];
    var s := SortByNumber(before, AS_NUMBER);
    SameLength(s, before);
    forall i | 0 <= i < hs.Length {
      hs[i] := s[i];
    }
    assert hs[..] == s;
    forall x ensures x in s <==> x in before {
      assert x in multiset(s) <==> x in multiset(before);
    }
  }

  lemma UpNil(s: seq<Word>, t: seq<Word>)
    requires |s| == |t| == 0
    ensures Up(s) && Elems(s) == Elems(t)
  {
  }

  lemma UpSnoc(s: seq<Word>, h: Word)
    requires Up(s) && (s == [] || s[|s| - 1] < h)
    ensures Up(s + [h]) && Elems(s + [h]) == Elems(s) + {h}
  {
    forall i | 0 <= i < |s| ensures s[i] < h {
      assert s[i] <= s[|s| - 1];
    }
  }

  lemma ElemsIn(s: seq<Word>, x: Word)
    ensures x in Elems(s) <==> x in s
  {
  }

  /** Sorts the hashes and removes duplicates, both in the array: the first `n` cells become
      the set of the values that were there. */
  method SortDedup(hs: array<Word>) returns (n: nat)
    modifies hs
    ensures n <= hs.Length && Up(hs[..n])
    ensures Elems(hs[..n]) == Elems(old(hs[..]))
  {
    hide Elems, Up;
    SortHashes(hs);
    ghost var sorted := hs[..];
    n := 0;
    UpNil(hs[..0], sorted[..0]);
    for i := 0 to hs.Length
      invariant n <= i
      invariant forall k :: n <= k < hs.Length ==> hs[k] == sorted[k]
      invariant i > 0 ==> n > 0 && hs[n - 1] == sorted[i - 1]
      invariant Up(hs[..n]) && Elems(hs[..n]) == Elems(sorted[..i])
    {
      var h := hs[i];
      ElemsSnoc(sorted, i);
      if i == 0 || h != hs[i - 1] {
        ghost var front := hs[..n];
        assert i > 0 ==> AS_NUMBER(sorted[i - 1]) <= AS_NUMBER(sorted[i]);
        UpSnoc(front, h);
        hs[n] := h;
        assert hs[..n + 1] == front + [h];
        n := n + 1;
      } else {
        assert hs[n - 1] in hs[..n];
        ElemsIn(hs[..n], h);
      }
    }
    TakeAll(sorted);
  }

  /** Where the join stands: what is before `i` and `j` is below what is after. */
  ghost predicate Joining(b: seq<Word>, c: seq<Word>, i: nat, j: nat) {
    && Up(b) && Up(c) && i <= |b| && j <= |c|
    && (forall p, q :: 0 <= p < i && j <= q < |c| ==> b[p] < c[q])
    && (forall p, q :: i <= p < |b| && 0 <= q < j ==> c[q] < b[p])
  }

  /** How many of the first `i` hashes the other side lacks. */
  ghost function Beyond(s: seq<Word>, i: nat, other: seq<Word>): set<Word>
    requires i <= |s|
  {
    Elems(s[..i]) - Elems(other)
  }

  lemma BeyondNew(b: seq<Word>, c: seq<Word>, i: nat, j: nat)
    requires Joining(b, c, i, j)
    requires i < |b| && (j == |c| || b[i] < c[j])
    ensures Joining(b, c, i + 1, j)
    ensures Beyond(b, i + 1, c) == Beyond(b, i, c) + {b[i]}
    ensures |Beyond(b, i + 1, c)| == |Beyond(b, i, c)| + 1
  {
    NextIsNew(b, c, i, j);
    ElemsSnoc(b, i);
    hide Elems;
    var s := Elems(b[..i]) - Elems(c);
    assert Elems(b[..i + 1]) - Elems(c) == s + {b[i]};
    assert |s + {b[i]}| == |s| + 1;
  }

  lemma NextIsNew(b: seq<Word>, c: seq<Word>, i: nat, j: nat)
    requires Joining(b, c, i, j)
    requires i < |b| && (j == |c| || b[i] < c[j])
    ensures Joining(b, c, i + 1, j)
    ensures b[i] !in Elems(b[..i]) && b[i] !in Elems(c)
  {
  }

  lemma BeyondShared(b: seq<Word>, c: seq<Word>, i: nat, j: nat)
    requires Joining(b, c, i, j)
    requires i < |b| && j < |c| && b[i] == c[j]
    ensures Joining(b, c, i + 1, j + 1)
    ensures Beyond(b, i + 1, c) == Beyond(b, i, c)
    ensures Beyond(c, j + 1, b) == Beyond(c, j, b)
  {
    ElemsSnoc(b, i);
    ElemsSnoc(c, j);
  }

  lemma JoiningSwap(b: seq<Word>, c: seq<Word>, i: nat, j: nat)
    ensures Joining(b, c, i, j) <==> Joining(c, b, j, i)
  {
  }

  /** Once the other run is used up, everything left is beyond it. */
  lemma {:induction false} BeyondRest(b: seq<Word>, c: seq<Word>, i: nat, j: nat)
    requires i <= |b| && j <= |c| && Joining(b, c, i, j) && (i == |b| || j == |c|)
    ensures |Elems(b) - Elems(c)| == |Beyond(b, i, c)| + |b| - i
    decreases |b| - i
  {
    hide Joining, Elems;
    if i == |b| {
      TakeAll(b);
    } else {
      BeyondNew(b, c, i, j);
      BeyondRest(b, c, i + 1, j);
    }
  }

  /** The sizes of the two set differences. */
  method CountSetDelta(base: seq<Word>, cur: seq<Word>) returns (added: nat, removed: nat)
    requires Up(base) && Up(cur)
    ensures added == |Elems(cur) - Elems(base)|
    ensures removed == |Elems(base) - Elems(cur)|
  {
    hide Joining, Elems, Up;
    var i, j := 0, 0;
    added, removed := 0, 0;
    JoinStart(base, cur);
    while i < |base| && j < |cur|
      invariant i <= |base| && j <= |cur| && Joining(base, cur, i, j)
      invariant added == |Beyond(cur, j, base)| && removed == |Beyond(base, i, cur)|
      decreases |base| - i + |cur| - j
    {
      if base[i] == cur[j] {
        BeyondShared(base, cur, i, j);
        i, j := i + 1, j + 1;
      } else if base[i] < cur[j] {
        BeyondNew(base, cur, i, j);
        removed := removed + 1;
        i := i + 1;
      } else {
        JoiningSwap(base, cur, i, j);
        BeyondNew(cur, base, j, i);
        JoiningSwap(base, cur, i, j + 1);
        added := added + 1;
        j := j + 1;
      }
    }
    JoiningSwap(base, cur, i, j);
    BeyondRest(base, cur, i, j);
    BeyondRest(cur, base, j, i);
    added, removed := added + |cur| - j, removed + |base| - i;
  }

  lemma JoinStart(b: seq<Word>, c: seq<Word>)
    requires Up(b) && Up(c)
    ensures Joining(b, c, 0, 0) && Beyond(b, 0, c) == {} && Beyond(c, 0, b) == {}
  {
  }

  /** Records the symmetric difference. */
  method CollectSetDelta(base: seq<Word>, cur: seq<Word>, out0: set<Word>) returns (out: set<Word>)
    requires Up(base) && Up(cur)
    ensures out == out0 + (Elems(base) - Elems(cur)) + (Elems(cur) - Elems(base))
  {
    hide Joining, Elems, Up, Beyond;
    var i, j := 0, 0;
    out := out0;
    JoinStart(base, cur);
    while i < |base| && j < |cur|
      invariant i <= |base| && j <= |cur| && Joining(base, cur, i, j)
      invariant out == out0 + Beyond(base, i, cur) + Beyond(cur, j, base)
      decreases |base| - i + |cur| - j
    {
      if base[i] == cur[j] {
        BeyondShared(base, cur, i, j);
        i, j := i + 1, j + 1;
      } else if base[i] < cur[j] {
        BeyondNew(base, cur, i, j);
        out := out + {base[i]};
        i := i + 1;
      } else {
        JoiningSwap(base, cur, i, j);
        BeyondNew(cur, base, j, i);
        JoiningSwap(base, cur, i, j + 1);
        out := out + {cur[j]};
        j := j + 1;
      }
    }
    while i < |base|
      invariant i <= |base| && j <= |cur| && Joining(base, cur, i, j) && (i == |base| || j == |cur|)
      invariant out == out0 + Beyond(base, i, cur) + Beyond(cur, j, base)
    {
      BeyondNew(base, cur, i, j);
      out := out + {base[i]};
      i := i + 1;
    }
    while j < |cur|
      invariant i == |base| && j <= |cur| && Joining(base, cur, i, j)
      invariant out == out0 + Beyond(base, i, cur) + Beyond(cur, j, base)
    {
      JoiningSwap(base, cur, i, j);
      BeyondNew(cur, base, j, i);
      JoiningSwap(base, cur, i, j + 1);
      out := out + {cur[j]};
      j := j + 1;
    }
    BeyondAll(base, cur);
    BeyondAll(cur, base);
  }

  lemma BeyondAll(b: seq<Word>, c: seq<Word>)
    ensures Beyond(b, |b|, c) == Elems(b) - Elems(c)
  {
    TakeAll(b);
  }
}
