/** The ordering `Array.prototype.sort()` uses with no comparator: strings
    compared character by character, a proper prefix first; and the sort as a
    function on sequences of names. */
module StringOrder {

  /** `a` sorts strictly before `b`. */
  predicate Below(a: string, b: string)
    decreases |a|
  {
    if a == [] then b != []
    else b != [] && (a[0] < b[0] || (a[0] == b[0] && Below(a[1..], b[1..])))
  }

  lemma {:induction false} BelowIrreflexive(a: string)
    ensures !Below(a, a)
    decreases |a|
  {
    if a != [] {
      BelowIrreflexive(a[1..]);
    }
  }

  lemma {:induction false} BelowTransitive(a: string, b: string, c: string)
    requires Below(a, b) && Below(b, c)
    ensures Below(a, c)
    decreases |a|
  {
    if a != [] && a[0] == b[0] && b[0] == c[0] {
      BelowTransitive(a[1..], b[1..], c[1..]);
    }
  }

  lemma {:induction false} BelowTotal(a: string, b: string)
    ensures a == b || Below(a, b) || Below(b, a)
    decreases |a|
  {
    if a != [] && b != [] && a[0] == b[0] {
      BelowTotal(a[1..], b[1..]);
      assert a == [a[0]] + a[1..] && b == [b[0]] + b[1..];
    }
  }

  predicate Ascending(s: seq<string>) {
    forall i, j :: 0 <= i < j < |s| ==> Below(s[i], s[j])
  }

  predicate NoDuplicates(s: seq<string>) {
    forall i, j :: 0 <= i < j < |s| ==> s[i] != s[j]
  }

  lemma AscendingHasNoDuplicates(s: seq<string>)
    requires Ascending(s)
    ensures NoDuplicates(s)
  {
    forall i, j | 0 <= i < j < |s| ensures s[i] != s[j] {
      BelowIrreflexive(s[i]);
    }
  }

  /** Puts `x` before the first element that does not sort before it. */
  function Insert(x: string, s: seq<string>): seq<string>
    decreases |s|
  {
    if s == [] || !Below(s[0], x) then [x] + s
    else [s[0]] + Insert(x, s[1..])
  }

  /** `Array.from(keys).sort()`. */
  function Sort(s: seq<string>): seq<string>
    decreases |s|
  {
    if s == [] then [] else Insert(s[0], Sort(s[1..]))
  }

  lemma {:induction false} InsertPermutes(x: string, s: seq<string>)
    ensures multiset(Insert(x, s)) == multiset(s) + multiset{x}
    decreases |s|
  {
    if s != [] && Below(s[0], x) {
      InsertPermutes(x, s[1..]);
      assert s == [s[0]] + s[1..];
    }
  }

  /** The sort is a permutation of its input. */
  lemma {:induction false} SortPermutes(s: seq<string>)
    ensures multiset(Sort(s)) == multiset(s)
    ensures |Sort(s)| == |s|
    decreases |s|
  {
    if s != [] {
      SortPermutes(s[1..]);
      InsertPermutes(s[0], Sort(s[1..]));
      assert s == [s[0]] + s[1..];
    }
    assert |multiset(Sort(s))| == |Sort(s)|;
  }

  lemma {:induction false} InsertAscending(x: string, s: seq<string>)
    requires Ascending(s) && x !in s
    ensures Ascending(Insert(x, s))
    decreases |s|
  {
    if s == [] {
    } else if !Below(s[0], x) {
      BelowTotal(s[0], x);
      forall j | 0 < j < |s| ensures Below(x, s[j]) {
        BelowTransitive(x, s[0], s[j]);
      }
    } else {
      InsertAscending(x, s[1..]);
      InsertPermutes(x, s[1..]);
      var r := Insert(x, s[1..]);
      forall j | 0 <= j < |r| ensures Below(s[0], r[j]) {
        assert r[j] in multiset(r);
        assert r[j] == x || r[j] in multiset(s[1..]);
      }
    }
  }

  /** The sort of duplicate-free names is strictly ascending (so still
      duplicate-free). */
  lemma {:induction false} SortAscending(s: seq<string>)
    requires NoDuplicates(s)
    ensures Ascending(Sort(s))
    decreases |s|
  {
    if s != [] {
      SortAscending(s[1..]);
      SortPermutes(s[1..]);
      assert s[0] !in multiset(s[1..]);
      InsertAscending(s[0], Sort(s[1..]));
    }
  }

  /** Sorting an already ascending sequence leaves it as it is. */
  lemma {:induction false} SortKeepsAscending(s: seq<string>)
    requires Ascending(s)
    ensures Sort(s) == s
    decreases |s|
  {
    if s != [] {
      SortKeepsAscending(s[1..]);
      if |s| > 1 {
        BelowIrreflexive(s[0]);
        assert Below(s[0], s[1]);
        if Below(s[1], s[0]) {
          BelowTransitive(s[0], s[1], s[0]);
        }
      }
      assert s == [s[0]] + s[1..];
    }
  }

  /** For duplicate-free names, the sort changes nothing exactly when they
      are already ascending. */
  lemma SortFixedIff(s: seq<string>)
    requires NoDuplicates(s)
    ensures Sort(s) == s <==> Ascending(s)
  {
    if Ascending(s) {
      SortKeepsAscending(s);
    } else {
      SortAscending(s);
    }
  }
}
