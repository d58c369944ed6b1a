/** List facts the players rely on: a list without repeats, and what
    appending, reordering and sampling do to it. */
module Lists {

  /** No entry occurs twice. */
  predicate Distinct(s: seq<string>) {
    forall i, j :: 0 <= i < j < |s| ==> s[i] != s[j]
  }

  lemma DistinctAppend(s: seq<string>, x: string)
    requires Distinct(s) && x !in s
    ensures Distinct(s + [x])
  {
  }

  /** The set of a list without repeats has one member per entry. */
  lemma {:induction false} SetSize(s: seq<string>)
    requires Distinct(s)
    ensures |set f | f in s| == |s|
  {
    if s != [] {
      var init := s[..|s| - 1];
      assert s == init + [s[|s| - 1]];
      SetSize(init);
      assert (set f | f in s) == (set f | f in init) + {s[|s| - 1]};
    }
  }

  /** A reordering of a list without repeats has none either. */
  lemma {:induction false} DistinctPerm(a: seq<string>, b: seq<string>)
    requires Distinct(a) && multiset(a) == multiset(b)
    ensures Distinct(b)
    ensures forall x :: x in a <==> x in b
  {
    DistinctSub(b, a);
    forall x ensures x in a <==> x in b {
      assert x in a <==> x in multiset(a);
      assert x in b <==> x in multiset(b);
    }
  }

  /** Entries drawn at distinct positions of a list without repeats, as
      `random.sample` draws them, have no repeats either. */
  lemma DistinctSub(a: seq<string>, b: seq<string>)
    requires Distinct(b) && multiset(a) <= multiset(b)
    ensures Distinct(a)
  {
    DistinctCounts(a);
    DistinctCounts(b);
    forall f | f in a ensures multiset(a)[f] == 1 {
      assert f in multiset(a);
    }
  }

  /** No repeats means every member occurs once. */
  lemma {:induction false} DistinctCounts(s: seq<string>)
    ensures Distinct(s) <==> forall f :: f in s ==> multiset(s)[f] == 1
  {
    if s != [] {
      var init := s[..|s| - 1];
      var last := s[|s| - 1];
      assert s == init + [last];
      DistinctCounts(init);
      if Distinct(s) {
        assert last !in init;
      } else {
        var i, j :| 0 <= i < j < |s| && s[i] == s[j];
        if j == |s| - 1 {
          assert s[i] in init;
          assert multiset(s)[last] == multiset(init)[last] + 1;
        } else {
          assert s[i] == init[i] && s[j] == init[j];
          assert !Distinct(init);
          var f :| f in init && multiset(init)[f] != 1;
          assert f in s;
        }
      }
    }
  }

  /** Concatenation regroups freely. */
  lemma AppendAssoc<T>(a: seq<T>, b: seq<T>, c: seq<T>)
    ensures a + (b + c) == (a + b) + c
  {
  }

  /** A prefix one longer is the prefix and the next entry. */
  lemma PrefixStep<T>(s: seq<T>, i: int)
    requires 0 <= i < |s|
    ensures s[..i + 1] == s[..i] + [s[i]]
  {
  }

  /** A non-empty list holds its front part and its last entry. */
  lemma MultisetOfLast<T>(s: seq<T>)
    requires s != []
    ensures multiset(s) == multiset(s[..|s| - 1]) + multiset{s[|s| - 1]}
  {
    assert s == s[..|s| - 1] + [s[|s| - 1]];
  }
}
