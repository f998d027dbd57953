/** Python's ordering of `str` values (lexicographic by code point) and the
    `sorted(...)` of a token list, with the fact the quality check relies on:
    two token lists sort to the same list exactly when they hold the same
    tokens with the same multiplicities. */
module TokenOrder {

  /** `a <= b` on Python strings. */
  predicate StrLe(a: string, b: string)
    decreases |a|
  {
    |a| == 0 || (|b| > 0 && (a[0] < b[0] || (a[0] == b[0] && StrLe(a[1..], b[1..]))))
  }

  lemma {:induction false} StrLeTotal(a: string, b: string)
    ensures StrLe(a, b) || StrLe(b, a)
    decreases |a|
  {
    if |a| > 0 && |b| > 0 && a[0] == b[0] {
      StrLeTotal(a[1..], b[1..]);
    }
  }

  lemma {:induction false} StrLeAntisymmetric(a: string, b: string)
    requires StrLe(a, b) && StrLe(b, a)
    ensures a == b
    decreases |a|
  {
    if |a| > 0 {
      StrLeAntisymmetric(a[1..], b[1..]);
      assert a == [a[0]] + a[1..];
      assert b == [b[0]] + b[1..];
    }
  }

  lemma {:induction false} StrLeTransitive(a: string, b: string, c: string)
    requires StrLe(a, b) && StrLe(b, c)
    ensures StrLe(a, c)
    decreases |a|
  {
    if |a| > 0 && a[0] == b[0] && b[0] == c[0] {
      StrLeTransitive(a[1..], b[1..], c[1..]);
    }
  }

  /** Non-decreasing under `StrLe`. */
  predicate Sorted(s: seq<string>) {
    forall i, j :: 0 <= i < j < |s| ==> StrLe(s[i], s[j])
  }

  /** Inserts `x` into a sorted list before the first element it does not
      exceed. */
  function Insert(x: string, s: seq<string>): (r: seq<string>)
    requires Sorted(s)
    ensures Sorted(r)
    ensures multiset(r) == multiset(s) + multiset{x}
    decreases |s|
  {
    if |s| == 0 then [x]
    else if StrLe(x, s[0]) then
      InsertFront(x, s);
      [x] + s
    else
      StrLeTotal(x, s[0]);
      var tail := Insert(x, s[1..]);
      assert s == [s[0]] + s[1..];
      InsertBehind(s[0], x, s[1..], tail);
      [s[0]] + tail
  }

  lemma InsertFront(x: string, s: seq<string>)
    requires Sorted(s) && |s| > 0 && StrLe(x, s[0])
    ensures Sorted([x] + s)
  {
    var r := [x] + s;
    forall i, j | 0 <= i < j < |r| ensures StrLe(r[i], r[j]) {
      if i == 0 {
        if j > 1 {
          StrLeTransitive(x, s[0], s[j - 1]);
        }
      } else {
        assert r[i] == s[i - 1] && r[j] == s[j - 1];
      }
    }
  }

  lemma InsertBehind(h: string, x: string, rest: seq<string>, tail: seq<string>)
    requires Sorted([h] + rest) && StrLe(h, x)
    requires Sorted(tail) && multiset(tail) == multiset(rest) + multiset{x}
    ensures Sorted([h] + tail)
  {
    var s := [h] + rest;
    var r := [h] + tail;
    forall i, j | 0 <= i < j < |r| ensures StrLe(r[i], r[j]) {
      if i == 0 {
        var y := tail[j - 1];
        assert r[j] == y;
        assert y in multiset(tail);
        if y != x {
          assert y in multiset(rest);
          var k :| 0 <= k < |rest| && rest[k] == y;
          assert s[0] == h && s[k + 1] == y;
          assert StrLe(s[0], s[k + 1]);
        }
      } else {
        assert r[i] == tail[i - 1] && r[j] == tail[j - 1];
      }
    }
  }

  /** Python's `sorted(tokens)`. */
  function Sort(s: seq<string>): (r: seq<string>)
    ensures Sorted(r)
    ensures multiset(r) == multiset(s)
  {
    if |s| == 0 then []
    else
      assert s == [s[0]] + s[1..];
      Insert(s[0], Sort(s[1..]))
  }

  /** Two sorted lists with the same elements are the same list. */
  lemma {:induction false} SortedUnique(a: seq<string>, b: seq<string>)
    requires Sorted(a) && Sorted(b) && multiset(a) == multiset(b)
    ensures a == b
    decreases |a|
  {
    if |a| == 0 {
      assert |b| == |multiset(b)| == 0;
    } else {
      assert |b| == |multiset(b)| == |a|;
      SortedHeadsAgree(a, b);
      DropHead(a);
      DropHead(b);
      SortedUnique(a[1..], b[1..]);
      assert a == [a[0]] + a[1..];
      assert b == [b[0]] + b[1..];
    }
  }

  /** Removing the head keeps a list sorted and removes one copy of the head
      from its elements. */
  lemma DropHead(a: seq<string>)
    requires Sorted(a) && |a| > 0
    ensures Sorted(a[1..])
    ensures multiset(a[1..]) == multiset(a) - multiset{a[0]}
  {
    assert a == [a[0]] + a[1..];
  }

  /** Two non-empty sorted lists with the same elements start alike. */
  lemma SortedHeadsAgree(a: seq<string>, b: seq<string>)
    requires Sorted(a) && Sorted(b) && multiset(a) == multiset(b)
    requires |a| > 0 && |b| > 0
    ensures a[0] == b[0]
  {
    assert a[0] in multiset(b);
    var j :| 0 <= j < |b| && b[j] == a[0];
    assert b[0] in multiset(a);
    var i :| 0 <= i < |a| && a[i] == b[0];
    if i != 0 && j != 0 {
      assert StrLe(a[0], a[i]) && StrLe(b[0], b[j]);
      StrLeAntisymmetric(a[0], b[0]);
    }
  }

  /** `sorted(a) == sorted(b)` exactly when `a` and `b` are permutations of
      each other. */
  lemma SortEqualIffSameTokens(a: seq<string>, b: seq<string>)
    ensures Sort(a) == Sort(b) <==> multiset(a) == multiset(b)
  {
    if multiset(a) == multiset(b) {
      SortedUnique(Sort(a), Sort(b));
    }
  }
}
