/** The stable sort of `.sort((l, r) => l.reasonCode.localeCompare(r.reasonCode))`, for any elements
    with a code. */
module StableSort {
  import opened JsText

  /** `localeCompare`, as whether one string comes before or together with another. */
  type Collation = (JsString, JsString) -> bool

  /** What the collation of a locale promises. */
  ghost predicate IsCollation(le: Collation) {
    && (forall a, b :: le(a, b) || le(b, a))
    && (forall a, b, c :: le(a, b) && le(b, c) ==> le(a, c))
  }

  function Insert<T>(le: Collation, code: T -> JsString, x: T, s: seq<T>): (r: seq<T>)
    ensures multiset(r) == multiset(s) + multiset{x}
  {
    if s == [] || le(code(x), code(s[0])) then [x] + s
    else
      assert s == [s[0]] + s[1..];
      [s[0]] + Insert(le, code, x, s[1..])
  }

  function SortBy<T>(le: Collation, code: T -> JsString, s: seq<T>): (r: seq<T>)
    ensures multiset(r) == multiset(s)
  {
    if s == [] then []
    else
      assert s == [s[0]] + s[1..];
      Insert(le, code, s[0], SortBy(le, code, s[1..]))
  }

  predicate InOrder<T>(le: Collation, code: T -> JsString, s: seq<T>) {
    forall i, j :: 0 <= i < j < |s| ==> le(code(s[i]), code(s[j]))
  }

  lemma {:induction false} InsertKeepsOrder<T>(le: Collation, code: T -> JsString, x: T, s: seq<T>)
    requires IsCollation(le) && InOrder(le, code, s)
    ensures InOrder(le, code, Insert(le, code, x, s))
  {
    if s != [] && !le(code(x), code(s[0])) {
      InsertKeepsOrder(le, code, x, s[1..]);
      var r := Insert(le, code, x, s[1..]);
      forall j | 0 <= j < |r| ensures le(code(s[0]), code(r[j])) {
        assert r[j] in multiset(r);
        assert r[j] in multiset(s[1..]) + multiset{x};
      }
    }
  }

  lemma {:induction false} SortIsInOrder<T>(le: Collation, code: T -> JsString, s: seq<T>)
    requires IsCollation(le)
    ensures InOrder(le, code, SortBy(le, code, s))
  {
    if s != [] {
      SortIsInOrder(le, code, s[1..]);
      InsertKeepsOrder(le, code, s[0], SortBy(le, code, s[1..]));
    }
  }

  lemma {:induction false} SortKeepsOrdered<T>(le: Collation, code: T -> JsString, s: seq<T>)
    requires InOrder(le, code, s)
    ensures SortBy(le, code, s) == s
  {
    if s != [] {
      SortKeepsOrdered(le, code, s[1..]);
    }
  }

  // --------------------------------------------------------------- stability

  /** The elements whose code the collation does not tell from a given one, in their order. */
  function Alike<T>(le: Collation, code: T -> JsString, c: JsString, s: seq<T>): seq<T> {
    if s == [] then []
    else (if le(code(s[0]), c) && le(c, code(s[0])) then [s[0]] else []) + Alike(le, code, c, s[1..])
  }

  lemma {:induction false} InsertIsFirst<T>(le: Collation, code: T -> JsString, c: JsString, x: T, s: seq<T>)
    requires IsCollation(le)
    ensures Alike(le, code, c, Insert(le, code, x, s)) == Alike(le, code, c, [x] + s)
  {
    assert ([x] + s)[1..] == s;
    if s != [] && !le(code(x), code(s[0])) {
      InsertIsFirst(le, code, c, x, s[1..]);
      var r := Insert(le, code, x, s[1..]);
      assert ([s[0]] + r)[1..] == r;
      assert ([x] + s[1..])[1..] == s[1..];
    }
  }

  /** Sorting leaves elements with codes the collation does not tell apart in their order. */
  lemma {:induction false} SortIsStable<T>(le: Collation, code: T -> JsString, c: JsString, s: seq<T>)
    requires IsCollation(le)
    ensures Alike(le, code, c, SortBy(le, code, s)) == Alike(le, code, c, s)
  {
    if s != [] {
      SortIsStable(le, code, c, s[1..]);
      InsertIsFirst(le, code, c, s[0], SortBy(le, code, s[1..]));
      var r := SortBy(le, code, s[1..]);
      assert ([s[0]] + r)[1..] == r;
    }
  }
}
