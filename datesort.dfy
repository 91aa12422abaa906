/** `Object.keys(courtData).sort()` (script.js:55): the date keys in
    ascending order of their characters. */
module DateSort {
  import opened Text

  /** Strictly ascending in the order the default `sort` uses. */
  predicate Ascending(s: seq<string>)
  {
    forall i, j :: 0 <= i < j < |s| ==> LexLess(s[i], s[j])
  }

  predicate Distinct(s: seq<string>)
  {
    forall i, j :: 0 <= i < j < |s| ==> s[i] != s[j]
  }

  /** `x` placed before the first element it does not follow. */
  function Insert(x: string, s: seq<string>): (r: seq<string>)
    ensures multiset(r) == multiset(s) + multiset{x}
  {
    if s == [] || !LexLess(s[0], x) then [x] + s
    else
      assert s == [s[0]] + s[1..];
      [s[0]] + Insert(x, s[1..])
  }

  /** The sorted keys, by insertion. */
  function Sort(s: seq<string>): (r: seq<string>)
    ensures multiset(r) == multiset(s)
  {
    if s == [] then []
    else
      assert s == s[..|s| - 1] + [s[|s| - 1]];
      Insert(s[|s| - 1], Sort(s[..|s| - 1]))
  }

  lemma {:induction false} InsertAscending(x: string, s: seq<string>)
    requires Ascending(s) && x !in s
    ensures Ascending(Insert(x, s))
  {
    var r := Insert(x, s);
    if s == [] {
    } else if !LexLess(s[0], x) {
      LexTotal(x, s[0]);
      forall j | 0 < j < |r|
        ensures LexLess(x, r[j])
      {
        if j > 1 {
          LexTransitive(x, s[0], s[j - 1]);
        }
      }
    } else {
      var tail := s[1..];
      assert x !in tail;
      InsertAscending(x, tail);
      var rest := Insert(x, tail);
      forall j | 0 <= j < |rest|
        ensures LexLess(s[0], rest[j])
      {
        assert rest[j] in multiset(rest);
        if rest[j] != x {
          assert rest[j] in tail;
        }
      }
    }
  }

  /** Sorting distinct keys gives them in strictly ascending order. */
  lemma {:induction false} SortAscending(s: seq<string>)
    requires Distinct(s)
    ensures Ascending(Sort(s))
    ensures |Sort(s)| == |s|
  {
    assert |multiset(Sort(s))| == |multiset(s)|;
    if s != [] {
      var prefix := s[..|s| - 1];
      var x := s[|s| - 1];
      SortAscending(prefix);
      assert x !in prefix;
      assert x !in multiset(Sort(prefix));
      InsertAscending(x, Sort(prefix));
    }
  }

  /** Two strictly ascending sequences of the same keys are equal: the
      sorted order depends on the set of keys alone, not on the order
      `Object.keys` lists them in. */
  lemma {:induction false} AscendingUnique(a: seq<string>, b: seq<string>)
    requires Ascending(a) && Ascending(b)
    requires forall x :: x in a <==> x in b
    ensures a == b
    decreases |a|
  {
    assert a == [] <==> b == [] by {
      if a != [] {
        assert a[0] in b;
      }
      if b != [] {
        assert b[0] in a;
      }
    }
    if a != [] {
      if a[0] != b[0] {
        assert a[0] in b;
        assert b[0] in a;
        LexAsymmetric(a[0], b[0]);
      }
      forall x
        ensures x in a[1..] <==> x in b[1..]
      {
        if x in a[1..] {
          var k :| 1 <= k < |a| && a[k] == x;
          LexIrreflexive(a[0]);
          assert x != b[0] && x in b;
          assert b == [b[0]] + b[1..];
        }
        if x in b[1..] {
          var k :| 1 <= k < |b| && b[k] == x;
          LexIrreflexive(b[0]);
          assert x != a[0] && x in a;
          assert a == [a[0]] + a[1..];
        }
      }
      AscendingUnique(a[1..], b[1..]);
      assert a == [a[0]] + a[1..] && b == [b[0]] + b[1..];
    }
  }

  /** Dates written `YYYY-MM-DD` come out in calendar order. */
  lemma SortExample()
    ensures Sort(["2024-03-02", "2024-03-01"]) == ["2024-03-01", "2024-03-02"]
  {
    assert LexLess("2024-03-01", "2024-03-02");
  }
}
