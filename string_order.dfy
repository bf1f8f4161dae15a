/** The order Swift's `String` comparison puts on tags, and `sorted()` on an
    array of tags.

    Tags are modelled as `seq<char>` and compared lexicographically by code
    point: a proper prefix comes first, otherwise the first differing character
    decides. `Sort` returns the ascending arrangement that `[String].sorted()`
    promises: for every two positions i < j, element j is not less than
    element i, and the result holds the same elements as the input. */
module StringOrder {

  /** Strict lexicographic order, Swift's `<` on `String`. */
  predicate Less(a: string, b: string)
  {
    b != [] && (a == [] || a[0] < b[0] || (a[0] == b[0] && Less(a[1..], b[1..])))
  }

  lemma {:induction false} LessIrreflexive(a: string)
    ensures !Less(a, a)
  {
    if a != [] {
      LessIrreflexive(a[1..]);
    }
  }

  lemma {:induction false} LessTransitive(a: string, b: string, c: string)
    requires Less(a, b) && Less(b, c)
    ensures Less(a, c)
  {
    if a != [] && a[0] == b[0] && b[0] == c[0] {
      LessTransitive(a[1..], b[1..], c[1..]);
    }
  }

  /** Any two different strings are ordered one way or the other. */
  lemma {:induction false} LessTotal(a: string, b: string)
    ensures a == b || Less(a, b) || Less(b, a)
  {
    if a != [] && b != [] && a[0] == b[0] {
      LessTotal(a[1..], b[1..]);
      if a[1..] == b[1..] {
        assert a == [a[0]] + a[1..] && b == [b[0]] + b[1..];
      }
    }
  }

  /** `a` is less than `b` exactly when, after their longest common prefix of
      length k, `a` has ended while `b` goes on, or `a`'s next character is
      smaller than `b`'s. */
  lemma {:induction false} LessIffFirstDifference(a: string, b: string)
    ensures Less(a, b) <==>
      exists k :: 0 <= k <= |a| && k < |b| && a[..k] == b[..k] && (k == |a| || a[k] < b[k])
  {
    if a == [] || b == [] || a[0] != b[0] {
      if Less(a, b) {
        assert a[..0] == b[..0];
      }
    } else {
      LessIffFirstDifference(a[1..], b[1..]);
      if Less(a, b) {
        var k :| 0 <= k <= |a| - 1 && k < |b| - 1 && a[1..][..k] == b[1..][..k] &&
          (k == |a| - 1 || a[1..][k] < b[1..][k]);
        assert a[..k + 1] == [a[0]] + a[1..][..k];
        assert b[..k + 1] == [b[0]] + b[1..][..k];
      }
      if exists k :: 0 <= k <= |a| && k < |b| && a[..k] == b[..k] && (k == |a| || a[k] < b[k]) {
        var k :| 0 <= k <= |a| && k < |b| && a[..k] == b[..k] && (k == |a| || a[k] < b[k]);
        assert k > 0;
        assert a[1..][..k - 1] == a[..k][1..] && b[1..][..k - 1] == b[..k][1..];
        assert k - 1 == |a| - 1 || a[1..][k - 1] < b[1..][k - 1];
      }
    }
  }

  /** "Not less", the non-strict order `sorted()` arranges by, is transitive. */
  lemma NotLessTransitive(a: string, b: string, c: string)
    requires !Less(b, a) && !Less(c, b)
    ensures !Less(c, a)
  {
    LessTotal(a, b);
    if Less(c, a) {
      if Less(a, b) {
        LessTransitive(c, a, b);
      }
    }
  }

  lemma NotLessAntisymmetric(a: string, b: string)
    requires !Less(a, b) && !Less(b, a)
    ensures a == b
  {
    LessTotal(a, b);
  }

  /** Ascending order in the sense of `sorted()`: no later element is less
      than an earlier one. */
  predicate Sorted(s: seq<string>)
  {
    forall i, j :: 0 <= i < j < |s| ==> !Less(s[j], s[i])
  }

  /** Prepending an element that no element of a sorted sequence is less than
      keeps it sorted. */
  lemma SortedPrepend(x: string, s: seq<string>)
    requires Sorted(s)
    requires forall y :: y in s ==> !Less(y, x)
    ensures Sorted([x] + s)
  {
    var r := [x] + s;
    forall i, j | 0 <= i < j < |r| ensures !Less(r[j], r[i]) {
      if i == 0 {
        assert r[j] in s;
      } else {
        assert r[i] == s[i - 1] && r[j] == s[j - 1];
      }
    }
  }

  /** Dropping the first element of a sorted sequence keeps it sorted and
      removes exactly that element. */
  lemma SortedTail(a: seq<string>)
    requires Sorted(a) && a != []
    ensures Sorted(a[1..])
    ensures multiset(a[1..]) == multiset(a) - multiset{a[0]}
  {
    assert a == [a[0]] + a[1..];
    forall p, q | 0 <= p < q < |a| - 1 ensures !Less(a[1..][q], a[1..][p]) {
      assert a[1..][p] == a[p + 1] && a[1..][q] == a[q + 1];
    }
  }

  /** The first element of a sorted sequence is not greater than any element. */
  lemma SortedHeadLeast(a: seq<string>, y: string)
    requires Sorted(a) && y in a
    ensures !Less(y, a[0])
  {
    var i :| 0 <= i < |a| && a[i] == y;
    if i == 0 {
      LessIrreflexive(y);
    }
  }

  /** If `x` is not greater than the head of a sorted sequence, it is not
      greater than any of its elements. */
  lemma BelowSorted(x: string, s: seq<string>)
    requires Sorted(s) && s != [] && !Less(s[0], x)
    ensures forall y :: y in s ==> !Less(y, x)
  {
    forall y | y in s ensures !Less(y, x) {
      SortedHeadLeast(s, y);
      NotLessTransitive(x, s[0], y);
    }
  }

  /** Every element of the tail of a sorted sequence, and any `x` greater than
      its head, is not less than that head. */
  lemma AboveHead(x: string, s: seq<string>, rest: seq<string>)
    requires Sorted(s) && s != [] && Less(s[0], x)
    requires multiset(rest) == multiset(s[1..]) + multiset{x}
    ensures forall y :: y in rest ==> !Less(y, s[0])
  {
    forall y | y in rest ensures !Less(y, s[0]) {
      assert y in multiset(rest);
      if y == x {
        LessTotal(x, s[0]);
        if Less(x, s[0]) {
          LessTransitive(x, s[0], x);
          LessIrreflexive(x);
        }
      } else {
        assert y in multiset(s[1..]);
        assert y in s;
        SortedHeadLeast(s, y);
      }
    }
  }

  /** Inserts `x` into the sorted `s` before the first element that `x` is
      not greater than. */
  function Insert(x: string, s: seq<string>): (r: seq<string>)
    requires Sorted(s)
    ensures Sorted(r)
    ensures multiset(r) == multiset(s) + multiset{x}
  {
    if s == [] then
      [x]
    else if !Less(s[0], x) then
      BelowSorted(x, s);
      SortedPrepend(x, s);
      [x] + s
    else
      SortedTail(s);
      var rest := Insert(x, s[1..]);
      AboveHead(x, s, rest);
      SortedPrepend(s[0], rest);
      assert s == [s[0]] + s[1..];
      [s[0]] + rest
  }

  /** `sorted()`: the ascending arrangement of `s`, built by insertion. */
  function Sort(s: seq<string>): (r: seq<string>)
    ensures Sorted(r)
    ensures multiset(r) == multiset(s)
    ensures |r| == |s|
  {
    if s == [] then
      []
    else
      assert s == [s[0]] + s[1..];
      var r := Insert(s[0], Sort(s[1..]));
      assert |r| == |multiset(r)|;
      r
  }

  /** Two sorted arrangements of the same elements are the same sequence. */
  lemma {:induction false} SortedUnique(a: seq<string>, b: seq<string>)
    requires Sorted(a) && Sorted(b)
    requires multiset(a) == multiset(b)
    ensures a == b
  {
    assert |a| == |multiset(a)| == |b|;
    if a != [] {
      assert a[0] in multiset(b) && b[0] in multiset(a);
      SortedHeadLeast(a, b[0]);
      SortedHeadLeast(b, a[0]);
      NotLessAntisymmetric(a[0], b[0]);
      SortedTail(a);
      SortedTail(b);
      SortedUnique(a[1..], b[1..]);
      assert a == [a[0]] + a[1..] && b == [b[0]] + b[1..];
    }
  }

  /** Sorting a sequence that is already sorted leaves it unchanged. */
  lemma {:induction false} SortIdempotent(s: seq<string>)
    ensures Sorted(s) ==> Sort(s) == s
  {
    if Sorted(s) {
      SortedUnique(Sort(s), s);
    }
  }

  /** The sorted result depends only on which tags were submitted and how many
      times, not on the order they were submitted in. */
  lemma SortCanonical(a: seq<string>, b: seq<string>)
    requires multiset(a) == multiset(b)
    ensures Sort(a) == Sort(b)
  {
    SortedUnique(Sort(a), Sort(b));
  }
}
