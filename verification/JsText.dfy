/** JavaScript strings as sequences of UTF-16 code units, with the order and the
    set operations that `Array.prototype.sort` and `new Set` give them. */
module JsText {

  type CodeUnit = u: int | 0 <= u < 0x1_0000
  type JsString = seq<CodeUnit>
  type Byte = b: int | 0 <= b < 256

  datatype Option<+T> = None | Some(value: T)

  /** The code unit of a Dafny character; every literal below stays within ASCII. */
  function Unit(c: char): CodeUnit {
    if c as int < 0x1_0000 then c as int else 0xFFFD
  }

  /** A string literal of the source. */
  function Js(s: string): (t: JsString)
    ensures |t| == |s|
    ensures forall i :: 0 <= i < |s| ==> t[i] == Unit(s[i])
  {
    seq(|s|, i requires 0 <= i < |s| => Unit(s[i]))
  }

  /** White space and line terminators, as `trim` knows them. */
  predicate IsWhiteSpace(u: CodeUnit) {
    9 <= u <= 13 || u == 32 || u == 0xA0 || u == 0x1680 || 0x2000 <= u <= 0x200A
    || u == 0x2028 || u == 0x2029 || u == 0x202F || u == 0x205F || u == 0x3000 || u == 0xFEFF
  }

  /** `s.trim()`. */
  function Trim(s: JsString): (t: JsString)
    ensures s != [] && !IsWhiteSpace(s[0]) && !IsWhiteSpace(s[|s| - 1]) ==> t == s
    decreases |s|
  {
    if s == [] then []
    else if IsWhiteSpace(s[0]) then Trim(s[1..])
    else if IsWhiteSpace(s[|s| - 1]) then Trim(s[..|s| - 1])
    else s
  }

  /** The default sort order of JavaScript strings: lexicographic on code units. */
  predicate LexLe(a: JsString, b: JsString)
    decreases |a|
  {
    a == [] || (b != [] && (a[0] < b[0] || (a[0] == b[0] && LexLe(a[1..], b[1..]))))
  }

  predicate Sorted(s: seq<JsString>) {
    forall i, j :: 0 <= i < j < |s| ==> LexLe(s[i], s[j])
  }

  predicate Distinct<T(==)>(s: seq<T>) {
    forall i, j :: 0 <= i < j < |s| ==> s[i] != s[j]
  }

  lemma {:induction false} LexTotal(a: JsString, b: JsString)
    ensures LexLe(a, b) || LexLe(b, a)
    decreases |a|
  {
    if a != [] && b != [] && a[0] == b[0] {
      LexTotal(a[1..], b[1..]);
    }
  }

  lemma {:induction false} LexAntisymmetric(a: JsString, b: JsString)
    requires LexLe(a, b) && LexLe(b, a)
    ensures a == b
    decreases |a|
  {
    if a != [] && b != [] {
      LexAntisymmetric(a[1..], b[1..]);
      assert a == [a[0]] + a[1..] && b == [b[0]] + b[1..];
    }
  }

  lemma {:induction false} LexTransitive(a: JsString, b: JsString, c: JsString)
    requires LexLe(a, b) && LexLe(b, c)
    ensures LexLe(a, c)
    decreases |a|
  {
    if a != [] && a[0] == b[0] && b[0] == c[0] {
      LexTransitive(a[1..], b[1..], c[1..]);
    }
  }

  function Insert(x: JsString, s: seq<JsString>): (r: seq<JsString>)
    ensures multiset(r) == multiset(s) + multiset{x}
  {
    if s == [] then [x]
    else if LexLe(x, s[0]) then [x] + s
    else
      assert s == [s[0]] + s[1..];
      [s[0]] + Insert(x, s[1..])
  }

  /** `[...s].sort()`. */
  function Sort(s: seq<JsString>): (r: seq<JsString>)
    ensures multiset(r) == multiset(s)
    ensures |r| == |s|
  {
    if s == [] then []
    else
      assert s == [s[0]] + s[1..];
      var r := Insert(s[0], Sort(s[1..]));
      assert |multiset(r)| == |r| && |multiset(s)| == |s|;
      r
  }

  lemma {:induction false} InsertKeepsSorted(x: JsString, s: seq<JsString>)
    requires Sorted(s)
    ensures Sorted(Insert(x, s))
  {
    if s != [] {
      if LexLe(x, s[0]) {
        forall j | 0 <= j < |s| ensures LexLe(x, s[j]) {
          if 0 < j { LexTransitive(x, s[0], s[j]); }
        }
      } else {
        LexTotal(x, s[0]);
        InsertKeepsSorted(x, s[1..]);
        var r := Insert(x, s[1..]);
        forall j | 0 <= j < |r| ensures LexLe(s[0], r[j]) {
          assert r[j] in multiset(r);
          assert r[j] in multiset(s[1..]) + multiset{x};
        }
      }
    }
  }

  lemma {:induction false} SortSorts(s: seq<JsString>)
    ensures Sorted(Sort(s))
  {
    if s != [] {
      SortSorts(s[1..]);
      InsertKeepsSorted(s[0], Sort(s[1..]));
    }
  }

  lemma LeastIsFirst(a: seq<JsString>, b: seq<JsString>)
    requires Sorted(a) && a != [] && b != []
    requires multiset(a) == multiset(b)
    ensures LexLe(a[0], b[0])
  {
    assert b[0] in multiset(b);
    assert b[0] in a;
    var j :| 0 <= j < |a| && a[j] == b[0];
    LexTotal(a[0], a[0]);
  }

  lemma TailsShareMultiset(a: seq<JsString>, b: seq<JsString>)
    requires a != [] && b != [] && a[0] == b[0] && multiset(a) == multiset(b)
    ensures multiset(a[1..]) == multiset(b[1..])
  {
    assert a == [a[0]] + a[1..] && b == [b[0]] + b[1..];
    assert multiset(a[1..]) == multiset(a) - multiset{a[0]};
    assert multiset(b[1..]) == multiset(b) - multiset{b[0]};
  }

  lemma SameMultisetSameLength(a: seq<JsString>, b: seq<JsString>)
    requires multiset(a) == multiset(b)
    ensures |a| == |b|
  {
    assert |multiset(a)| == |a| && |multiset(b)| == |b|;
  }

  /** A multiset has only one sorted arrangement. */
  lemma {:induction false} SortedArrangementIsUnique(a: seq<JsString>, b: seq<JsString>)
    requires Sorted(a) && Sorted(b)
    requires multiset(a) == multiset(b)
    ensures a == b
  {
    SameMultisetSameLength(a, b);
    if a != [] {
      LeastIsFirst(a, b);
      LeastIsFirst(b, a);
      LexAntisymmetric(a[0], b[0]);
      TailsShareMultiset(a, b);
      SortedArrangementIsUnique(a[1..], b[1..]);
      assert a == [a[0]] + a[1..] && b == [b[0]] + b[1..];
    }
  }

  /** Sorting forgets the order it was given. */
  lemma SortForgetsOrder(a: seq<JsString>, b: seq<JsString>)
    requires multiset(a) == multiset(b)
    ensures Sort(a) == Sort(b)
  {
    SortSorts(a);
    SortSorts(b);
    SortedArrangementIsUnique(Sort(a), Sort(b));
  }

  function Elements<T>(s: seq<T>): set<T> {
    set x | x in s
  }

  lemma DistinctMeansMultiplicityOne<T>(s: seq<T>)
    requires Distinct(s)
    ensures forall x :: multiset(s)[x] == if x in s then 1 else 0
  {
    if s != [] {
      var t := s[..|s| - 1];
      assert s == t + [s[|s| - 1]];
      assert Distinct(t);
      DistinctMeansMultiplicityOne(t);
      assert s[|s| - 1] !in t;
    }
  }

  lemma SameElementsSameMultiset<T>(a: seq<T>, b: seq<T>)
    requires Distinct(a) && Distinct(b)
    requires Elements(a) == Elements(b)
    ensures multiset(a) == multiset(b)
  {
    DistinctMeansMultiplicityOne(a);
    DistinctMeansMultiplicityOne(b);
    forall x ensures multiset(a)[x] == multiset(b)[x] {
      assert x in a <==> x in Elements(a);
      assert x in b <==> x in Elements(b);
    }
  }

  /** `[...new Set(s)]`: the first occurrence of every element, in order. */
  function Unique<T(==)>(s: seq<T>): (r: seq<T>)
    ensures Distinct(r)
    ensures Elements(r) == Elements(s)
  {
    if s == [] then []
    else
      var init := s[..|s| - 1];
      var last := s[|s| - 1];
      assert s == init + [last];
      assert Elements(s) == Elements(init) + {last};
      var r := Unique(init);
      if last in init then
        assert last in Elements(init);
        r
      else
        assert last !in Elements(init);
        assert forall i :: 0 <= i < |r| ==> r[i] in Elements(r);
        r + [last]
  }

  /** `set.add(x)`, for a set that holds what was added so far. */
  method AddTo(members: seq<JsString>, x: JsString, ghost added: seq<JsString>) returns (r: seq<JsString>)
    requires members == Unique(added)
    ensures r == Unique(added + [x])
  {
    assert (added + [x])[..|added|] == added;
    assert x in members <==> x in Elements(added);
    r := if x in members then members else members + [x];
  }

  /** `[...new Set(s)].sort()`. */
  function SortedUnique(s: seq<JsString>): (r: seq<JsString>)
    ensures Elements(r) == Elements(s)
    ensures |r| == 0 <==> |s| == 0
  {
    var r := Sort(Unique(s));
    assert forall x :: x in r <==> x in multiset(r);
    assert forall x :: x in r <==> x in Unique(s);
    assert forall x :: x in Unique(s) <==> x in Elements(Unique(s));
    assert |s| != 0 ==> s[0] in Elements(s);
    assert |r| != 0 ==> r[0] in Elements(r);
    r
  }

  /** The sorted list of distinct strings depends only on which strings were given. */
  lemma SortedUniqueDependsOnSet(a: seq<JsString>, b: seq<JsString>)
    requires Elements(a) == Elements(b)
    ensures SortedUnique(a) == SortedUnique(b)
  {
    SameElementsSameMultiset(Unique(a), Unique(b));
    SortForgetsOrder(Unique(a), Unique(b));
  }

  // ------------------------------------------------- what these orders are

  /** Strictly before: a proper prefix, or the smaller code unit at the first difference. */
  predicate Precedes(a: JsString, b: JsString) {
    exists n :: 0 <= n <= |a| && n < |b| && a[..n] == b[..n] && (n == |a| || a[n] < b[n])
  }

  predicate Ascending(s: seq<JsString>) {
    forall i, j :: 0 <= i < j < |s| ==> Precedes(s[i], s[j])
  }

  lemma {:induction false} LexLePrecedes(a: JsString, b: JsString)
    requires LexLe(a, b) && a != b
    ensures Precedes(a, b)
    decreases |a|
  {
    if a == [] {
      assert a[..0] == b[..0];
    } else if a[0] < b[0] {
      assert a[..0] == b[..0];
    } else {
      assert a == [a[0]] + a[1..] && b == [b[0]] + b[1..];
      LexLePrecedes(a[1..], b[1..]);
      var n :| 0 <= n <= |a[1..]| && n < |b[1..]| && a[1..][..n] == b[1..][..n]
        && (n == |a[1..]| || a[1..][n] < b[1..][n]);
      assert a[..n + 1] == [a[0]] + a[1..][..n] && b[..n + 1] == [b[0]] + b[1..][..n];
    }
  }

  /** Sorting puts equal strings together, and every other pair in order. */
  lemma SortOrders(s: seq<JsString>, i: nat, j: nat)
    requires i < j < |s|
    ensures Sort(s)[i] == Sort(s)[j] || Precedes(Sort(s)[i], Sort(s)[j])
  {
    SortSorts(s);
    if Sort(s)[i] != Sort(s)[j] {
      LexLePrecedes(Sort(s)[i], Sort(s)[j]);
    }
  }

  /** Distinct strings are sorted into strictly ascending order. */
  lemma SortAscends(s: seq<JsString>)
    requires Distinct(s)
    ensures Ascending(Sort(s))
  {
    SortSorts(s);
    var r := Sort(s);
    SameMultisetKeepsDistinct(s, r);
    forall i, j | 0 <= i < j < |r| ensures Precedes(r[i], r[j]) {
      LexLePrecedes(r[i], r[j]);
    }
  }

  lemma SameMultisetKeepsDistinct(a: seq<JsString>, b: seq<JsString>)
    requires Distinct(a) && multiset(a) == multiset(b)
    ensures Distinct(b)
  {
    DistinctMeansMultiplicityOne(a);
    forall i, j | 0 <= i < j < |b| ensures b[i] != b[j] {
      if b[i] == b[j] {
        TwiceInMultiset(b, i, j);
      }
    }
  }

  lemma TwiceInMultiset(b: seq<JsString>, i: nat, j: nat)
    requires i < j < |b| && b[i] == b[j]
    ensures multiset(b)[b[i]] >= 2
  {
    assert b == b[..j] + [b[j]] + b[j + 1..];
    assert b[i] in b[..j];
  }

  /** The sorted list of distinct strings: the same strings, strictly ascending. */
  lemma SortedUniqueAscends(s: seq<JsString>)
    ensures Ascending(SortedUnique(s))
    ensures forall c :: c in SortedUnique(s) <==> c in s
  {
    SortAscends(Unique(s));
    forall c ensures c in SortedUnique(s) <==> c in s {
      assert c in SortedUnique(s) <==> c in Elements(SortedUnique(s));
      assert c in s <==> c in Elements(s);
    }
  }

  /** Where an element first occurs. */
  function FirstIndex<T(==)>(s: seq<T>, x: T): (i: nat)
    requires x in s
    ensures i < |s| && s[i] == x && x !in s[..i]
  {
    if s[0] == x then 0
    else
      assert s == [s[0]] + s[1..];
      var i := FirstIndex(s[1..], x);
      assert s[..i + 1] == [s[0]] + s[1..][..i];
      i + 1
  }

  lemma {:induction false} IndexIsFirst<T>(s: seq<T>, x: T, i: nat)
    requires i < |s| && s[i] == x && forall k :: 0 <= k < i ==> s[k] != x
    ensures FirstIndex(s, x) == i
    decreases i
  {
    if i > 0 {
      assert s[1..][i - 1] == x;
      IndexIsFirst(s[1..], x, i - 1);
    }
  }

  lemma FirstIndexOfPrefix<T>(init: seq<T>, last: T, x: T)
    requires x in init
    ensures FirstIndex(init + [last], x) == FirstIndex(init, x)
  {
    var i := FirstIndex(init, x);
    forall k | 0 <= k < i ensures init[k] != x {
      assert init[..i][k] == init[k];
    }
    IndexIsFirst(init + [last], x, i);
  }

  lemma UniqueHas<T>(s: seq<T>, x: T)
    ensures x in Unique(s) <==> x in s
  {
    assert x in Unique(s) <==> x in Elements(Unique(s));
    assert x in s <==> x in Elements(s);
  }

  /** A set lists its members in the order in which they were first added. */
  lemma {:induction false} UniqueKeepsOrder<T>(s: seq<T>, i: nat, j: nat)
    requires i < j < |Unique(s)|
    ensures Unique(s)[i] in s && Unique(s)[j] in s
    ensures FirstIndex(s, Unique(s)[i]) < FirstIndex(s, Unique(s)[j])
  {
    var init, last := s[..|s| - 1], s[|s| - 1];
    assert s == init + [last];
    UniqueHas(s, Unique(s)[i]);
    UniqueHas(s, Unique(s)[j]);
    UniqueHas(init, Unique(s)[i]);
    if j < |Unique(init)| {
      UniqueKeepsOrder(init, i, j);
      FirstIndexOfPrefix(init, last, Unique(s)[j]);
    }
    FirstIndexOfPrefix(init, last, Unique(s)[i]);
  }

  /** White space before and after a part of a string, which is what trimming leaves. */
  predicate Trims(s: JsString, i: nat, j: nat) {
    && i <= j <= |s| && Trim(s) == s[i..j]
    && (forall k :: 0 <= k < i ==> IsWhiteSpace(s[k])) && (forall k :: j <= k < |s| ==> IsWhiteSpace(s[k]))
    && (i < j ==> !IsWhiteSpace(s[i]) && !IsWhiteSpace(s[j - 1]))
  }

  lemma TrimsAfter(s: JsString, i: nat, j: nat)
    requires s != [] && IsWhiteSpace(s[0]) && Trims(s[1..], i, j)
    ensures Trims(s, i + 1, j + 1)
  {
    var t := s[1..];
    assert t[i..j] == s[i + 1..j + 1];
    assert forall k :: 0 < k < |s| ==> s[k] == t[k - 1];
  }

  lemma TrimsBefore(s: JsString, i: nat, j: nat)
    requires s != [] && !IsWhiteSpace(s[0]) && IsWhiteSpace(s[|s| - 1]) && Trims(s[..|s| - 1], i, j)
    ensures Trims(s, i, j)
  {
    var t := s[..|s| - 1];
    assert t[i..j] == s[i..j];
    assert forall k :: 0 <= k < |t| ==> s[k] == t[k];
  }

  /** `trim` removes white space at both ends and nothing else. */
  lemma {:induction false} TrimExactly(s: JsString) returns (i: nat, j: nat)
    ensures Trims(s, i, j)
    decreases |s|
  {
    i, j := 0, |s|;
    if s == [] {
    } else if IsWhiteSpace(s[0]) {
      i, j := TrimExactly(s[1..]);
      TrimsAfter(s, i, j);
      i, j := i + 1, j + 1;
    } else if IsWhiteSpace(s[|s| - 1]) {
      i, j := TrimExactly(s[..|s| - 1]);
      TrimsBefore(s, i, j);
    }
  }
}
