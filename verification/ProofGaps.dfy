/** Deduplicated proof gaps: a map keyed by reason code, printed in collation order
    (`dedupeProofGaps` of the interlock packet and of the release proof, which is one function). */
module ProofGaps {
  import opened JsText
  import opened StableSort

  datatype Gap = Gap(reasonCode: JsString, evidenceRefs: seq<JsString>)

  function CodeOf(g: Gap): JsString { g.reasonCode }

  function Codes(gaps: seq<Gap>): (codes: seq<JsString>)
    ensures |codes| == |gaps| && forall i :: 0 <= i < |gaps| ==> codes[i] == gaps[i].reasonCode
  {
    seq(|gaps|, i requires 0 <= i < |gaps| => gaps[i].reasonCode)
  }

  /** A `Map` from reason codes to gaps, in insertion order. */
  predicate IsMap(m: seq<Gap>) {
    Distinct(Codes(m))
  }

  /** `map.set`: a known key keeps its place and takes the new value. */
  function Set(m: seq<Gap>, g: Gap): (r: seq<Gap>)
    requires IsMap(m)
    ensures IsMap(r)
    ensures g in r && forall h :: h in r <==> h == g || (h in m && h.reasonCode != g.reasonCode)
  {
    if m == [] then [g]
    else if m[0].reasonCode == g.reasonCode then
      SameKeyOnce(m);
      assert m == [m[0]] + m[1..];
      [g] + m[1..]
    else
      MapTail(m);
      var tail := Set(m[1..], g);
      HeadStaysDistinct(m, g, tail);
      assert m == [m[0]] + m[1..];
      [m[0]] + tail
  }

  lemma MapTail(m: seq<Gap>)
    requires IsMap(m) && m != []
    ensures IsMap(m[1..])
  {
    assert forall i :: 0 <= i < |m[1..]| ==> Codes(m[1..])[i] == Codes(m)[i + 1];
  }

  lemma SameKeyOnce(m: seq<Gap>)
    requires IsMap(m) && m != []
    ensures forall h :: h in m[1..] ==> h.reasonCode != m[0].reasonCode
    ensures forall g: Gap :: g.reasonCode == m[0].reasonCode ==> IsMap([g] + m[1..])
  {
    forall h | h in m[1..] ensures h.reasonCode != m[0].reasonCode {
      var i :| 0 <= i < |m[1..]| && m[1..][i] == h;
      assert Codes(m)[i + 1] == h.reasonCode;
    }
    forall g: Gap | g.reasonCode == m[0].reasonCode ensures IsMap([g] + m[1..]) {
      assert Codes([g] + m[1..]) == Codes(m);
    }
  }

  lemma HeadStaysDistinct(m: seq<Gap>, g: Gap, tail: seq<Gap>)
    requires IsMap(m) && m != [] && m[0].reasonCode != g.reasonCode && IsMap(tail)
    requires forall h :: h in tail ==> h == g || h in m[1..]
    ensures IsMap([m[0]] + tail)
  {
    SameKeyOnce(m);
    var r := [m[0]] + tail;
    forall i, j | 0 <= i < j < |r| ensures Codes(r)[i] != Codes(r)[j] {
      assert r[j] == tail[j - 1] && tail[j - 1] in tail;
      if i > 0 {
        assert Codes(tail)[i - 1] != Codes(tail)[j - 1];
      }
    }
  }

  /** The map after every gap was set. */
  function ByReasonCode(gaps: seq<Gap>): (m: seq<Gap>)
    ensures IsMap(m)
  {
    if gaps == [] then [] else Set(ByReasonCode(gaps[..|gaps| - 1]), gaps[|gaps| - 1])
  }

  // ----------------------------------------------------- the stable sort

  function SortGaps(le: Collation, s: seq<Gap>): (r: seq<Gap>)
    ensures multiset(r) == multiset(s)
  {
    SortBy(le, CodeOf, s)
  }

  predicate InOrder(le: Collation, s: seq<Gap>) {
    forall i, j :: 0 <= i < j < |s| ==> le(s[i].reasonCode, s[j].reasonCode)
  }

  lemma GapsSortInOrder(le: Collation, s: seq<Gap>)
    requires IsCollation(le)
    ensures InOrder(le, SortGaps(le, s))
  {
    SortIsInOrder(le, CodeOf, s);
    var r := SortGaps(le, s);
    forall i, j | 0 <= i < j < |r| ensures le(r[i].reasonCode, r[j].reasonCode) {
      assert le(CodeOf(r[i]), CodeOf(r[j]));
    }
  }

  // ------------------------------------------------------- dedupeProofGaps

  function Dedupe(le: Collation, gaps: seq<Gap>): seq<Gap> {
    SortGaps(le, ByReasonCode(gaps))
  }

  method DedupeProofGaps(le: Collation, gaps: seq<Gap>) returns (r: seq<Gap>)
    ensures r == Dedupe(le, gaps)
  {
    var byReasonCode: seq<Gap> := [];
    for i := 0 to |gaps|
      invariant byReasonCode == ByReasonCode(gaps[..i])
    {
      assert gaps[..i + 1][..i] == gaps[..i];
      byReasonCode := Set(byReasonCode, gaps[i]);
    }
    assert gaps[..|gaps|] == gaps;
    r := SortGaps(le, byReasonCode);
  }

  predicate IsLastAt(gaps: seq<Gap>, g: Gap, i: nat) {
    i < |gaps| && gaps[i] == g && forall j :: i < j < |gaps| ==> gaps[j].reasonCode != g.reasonCode
  }

  /** The last gap pushed for its reason code. */
  predicate IsLastOfItsCode(gaps: seq<Gap>, g: Gap) {
    exists i :: 0 <= i < |gaps| && IsLastAt(gaps, g, i)
  }

  lemma LastStays(init: seq<Gap>, last: Gap, g: Gap)
    requires IsLastOfItsCode(init, g) && g.reasonCode != last.reasonCode
    ensures IsLastOfItsCode(init + [last], g)
  {
    var i :| 0 <= i < |init| && IsLastAt(init, g, i);
    assert IsLastAt(init + [last], g, i);
  }

  lemma LastWas(init: seq<Gap>, last: Gap, g: Gap)
    requires IsLastOfItsCode(init + [last], g) && g != last
    ensures IsLastOfItsCode(init, g) && g.reasonCode != last.reasonCode
  {
    var gaps := init + [last];
    var i :| 0 <= i < |gaps| && IsLastAt(gaps, g, i);
    assert gaps[|init|] == last;
    assert i < |init| && init[i] == g;
    assert forall j :: i < j < |init| ==> init[j] == gaps[j];
    assert IsLastAt(init, g, i);
  }

  lemma {:induction false} MapHoldsTheLast(gaps: seq<Gap>, g: Gap)
    ensures g in ByReasonCode(gaps) <==> IsLastOfItsCode(gaps, g)
  {
    if gaps != [] {
      var init, last := gaps[..|gaps| - 1], gaps[|gaps| - 1];
      assert gaps == init + [last];
      MapHoldsTheLast(init, g);
      if g == last {
        assert IsLastAt(gaps, g, |gaps| - 1);
      } else if IsLastOfItsCode(gaps, g) {
        LastWas(init, last, g);
      } else if IsLastOfItsCode(init, g) && g.reasonCode != last.reasonCode {
        LastStays(init, last, g);
      }
    }
  }

  lemma SortKeepsMembers(le: Collation, s: seq<Gap>, g: Gap)
    ensures g in SortGaps(le, s) <==> g in s
  {
    assert g in SortGaps(le, s) <==> g in multiset(SortGaps(le, s));
  }

  lemma SameMultisetIsMap(a: seq<Gap>, b: seq<Gap>)
    requires IsMap(a) && multiset(a) == multiset(b)
    ensures IsMap(b)
  {
    forall i, j | 0 <= i < j < |b| ensures b[i].reasonCode != b[j].reasonCode {
      if b[i].reasonCode == b[j].reasonCode {
        assert b == b[..j] + [b[j]] + b[j + 1..];
        assert b[i] in b[..j];
        MapCountsOnce(a);
        assert b[i] in multiset(a) && b[j] in multiset(a);
        CodesDecide(a, b[i], b[j]);
      }
    }
  }

  lemma CodesDecide(m: seq<Gap>, g: Gap, h: Gap)
    requires IsMap(m) && g in m && h in m && g.reasonCode == h.reasonCode
    ensures g == h
  {
    var i :| 0 <= i < |m| && m[i] == g;
    var j :| 0 <= j < |m| && m[j] == h;
    assert Codes(m)[i] == Codes(m)[j];
  }

  lemma {:induction false} MapCountsOnce(m: seq<Gap>)
    requires IsMap(m)
    ensures forall g: Gap :: multiset(m)[g] <= 1
  {
    if m != [] {
      MapTail(m);
      MapCountsOnce(m[1..]);
      SameKeyOnce(m);
      assert m == [m[0]] + m[1..];
      assert m[0] !in m[1..];
    }
  }

  /** Deduplication keeps exactly one gap per reason code, the last one pushed, in collation
      order. */
  lemma DedupeKeepsTheLast(le: Collation, gaps: seq<Gap>, g: Gap)
    requires IsCollation(le)
    ensures g in Dedupe(le, gaps) <==> IsLastOfItsCode(gaps, g)
    ensures IsMap(Dedupe(le, gaps)) && InOrder(le, Dedupe(le, gaps))
  {
    MapHoldsTheLast(gaps, g);
    SortKeepsMembers(le, ByReasonCode(gaps), g);
    SameMultisetIsMap(ByReasonCode(gaps), Dedupe(le, gaps));
    GapsSortInOrder(le, ByReasonCode(gaps));
  }

  /** No two codes that the collation does not tell apart. */
  predicate ToldApart(le: Collation, codes: seq<JsString>) {
    forall i, j :: 0 <= i < |codes| && 0 <= j < |codes| && le(codes[i], codes[j]) && le(codes[j], codes[i])
      ==> codes[i] == codes[j]
  }

  predicate InStrictOrder(le: Collation, s: seq<Gap>) {
    forall i, j :: 0 <= i < j < |s| ==>
      le(s[i].reasonCode, s[j].reasonCode) && !le(s[j].reasonCode, s[i].reasonCode)
  }

  lemma StrictMeansToldApart(le: Collation, s: seq<Gap>)
    requires IsMap(s) && InOrder(le, s)
    ensures InStrictOrder(le, s) <==> ToldApart(le, Codes(s))
  {
    if InStrictOrder(le, s) {
      forall i, j | 0 <= i < |s| && 0 <= j < |s| && le(Codes(s)[i], Codes(s)[j]) && le(Codes(s)[j], Codes(s)[i])
        ensures i == j
      {
        assert le(s[i].reasonCode, s[j].reasonCode) && le(s[j].reasonCode, s[i].reasonCode);
      }
    }
    if ToldApart(le, Codes(s)) {
      forall i, j | 0 <= i < j < |s| ensures !le(s[j].reasonCode, s[i].reasonCode) {
        assert le(s[i].reasonCode, s[j].reasonCode) && Codes(s)[i] != Codes(s)[j];
      }
    }
  }

  lemma ToldApartByCodes(le: Collation, codes: seq<JsString>, others: seq<JsString>)
    requires ToldApart(le, codes) && forall c :: c in others ==> c in codes
    ensures ToldApart(le, others)
  {
    forall i, j | 0 <= i < |others| && 0 <= j < |others| && le(others[i], others[j]) && le(others[j], others[i])
      ensures others[i] == others[j]
    {
      assert others[i] in codes && others[j] in codes;
    }
  }

  /** The order is strict exactly when the collation tells the pushed codes apart. */
  lemma DedupeIsStrictExactly(le: Collation, gaps: seq<Gap>)
    requires IsCollation(le)
    ensures InStrictOrder(le, Dedupe(le, gaps)) <==> ToldApart(le, Codes(gaps))
  {
    var r := Dedupe(le, gaps);
    SameMultisetIsMap(ByReasonCode(gaps), r);
    GapsSortInOrder(le, ByReasonCode(gaps));
    StrictMeansToldApart(le, r);
    forall c ensures c in Codes(r) <==> c in Codes(gaps) {
      DedupeKeepsEveryCode(le, gaps, c);
    }
    if ToldApart(le, Codes(gaps)) {
      ToldApartByCodes(le, Codes(gaps), Codes(r));
    }
    if ToldApart(le, Codes(r)) {
      ToldApartByCodes(le, Codes(r), Codes(gaps));
    }
  }

  lemma NewKeyIsNew(m: seq<Gap>, g: Gap)
    requires IsMap(m + [g])
    ensures IsMap(m) && forall h :: h in m ==> h.reasonCode != g.reasonCode
  {
    assert Codes(m) == Codes(m + [g])[..|m|];
    forall h | h in m ensures h.reasonCode != g.reasonCode {
      var i :| 0 <= i < |m| && m[i] == h;
      assert Codes(m + [g])[i] != Codes(m + [g])[|m|];
    }
  }

  lemma {:induction false} SetAppends(m: seq<Gap>, g: Gap)
    requires IsMap(m) && forall h :: h in m ==> h.reasonCode != g.reasonCode
    ensures Set(m, g) == m + [g]
  {
    if m != [] {
      assert m[0] in m;
      MapTail(m);
      SetAppends(m[1..], g);
      assert m == [m[0]] + m[1..];
    }
  }

  lemma {:induction false} MapOfMap(m: seq<Gap>)
    requires IsMap(m)
    ensures ByReasonCode(m) == m
  {
    if m != [] {
      var init, last := m[..|m| - 1], m[|m| - 1];
      assert m == init + [last];
      NewKeyIsNew(init, last);
      SetAppends(init, last);
      MapOfMap(init);
    }
  }

  /** Deduplicating again changes nothing. */
  lemma DedupeIsIdempotent(le: Collation, gaps: seq<Gap>)
    requires IsCollation(le)
    ensures Dedupe(le, Dedupe(le, gaps)) == Dedupe(le, gaps)
  {
    var r := Dedupe(le, gaps);
    SameMultisetIsMap(ByReasonCode(gaps), r);
    MapOfMap(r);
    GapsSortInOrder(le, ByReasonCode(gaps));
    SortKeepsOrdered(le, CodeOf, r);
  }

  /** Every code that was pushed is listed, and no other. */
  lemma DedupeKeepsEveryCode(le: Collation, gaps: seq<Gap>, code: JsString)
    ensures code in Codes(Dedupe(le, gaps)) <==> code in Codes(gaps)
  {
    MapKeepsCodes(gaps, code);
    var m, r := ByReasonCode(gaps), Dedupe(le, gaps);
    if code in Codes(r) {
      var i :| 0 <= i < |r| && r[i].reasonCode == code;
      SortKeepsMembers(le, m, r[i]);
      var j :| 0 <= j < |m| && m[j] == r[i];
      assert Codes(m)[j] == code;
    }
    if code in Codes(m) {
      var j :| 0 <= j < |m| && m[j].reasonCode == code;
      SortKeepsMembers(le, m, m[j]);
      var i :| 0 <= i < |r| && r[i] == m[j];
      assert Codes(r)[i] == code;
    }
  }

  lemma {:induction false} MapKeepsCodes(gaps: seq<Gap>, code: JsString)
    ensures code in Codes(ByReasonCode(gaps)) <==> code in Codes(gaps)
  {
    if gaps != [] {
      var init, last := gaps[..|gaps| - 1], gaps[|gaps| - 1];
      MapKeepsCodes(init, code);
      SetCodes(ByReasonCode(init), last, code);
      CodesAppend(init, last, code);
      assert gaps == init + [last];
    }
  }

  lemma CodesAppend(init: seq<Gap>, last: Gap, code: JsString)
    ensures code in Codes(init + [last]) <==> code in Codes(init) || code == last.reasonCode
  {
    assert Codes(init + [last]) == Codes(init) + [last.reasonCode];
  }

  lemma SetCodes(m: seq<Gap>, g: Gap, code: JsString)
    requires IsMap(m)
    ensures code in Codes(Set(m, g)) <==> code in Codes(m) || code == g.reasonCode
  {
    var r := Set(m, g);
    if code in Codes(r) {
      var i :| 0 <= i < |r| && r[i].reasonCode == code;
      if r[i] != g {
        var j :| 0 <= j < |m| && m[j] == r[i];
        assert Codes(m)[j] == code;
      }
    }
    if code in Codes(m) && code != g.reasonCode {
      var j :| 0 <= j < |m| && m[j].reasonCode == code;
      assert m[j] in r;
      var i :| 0 <= i < |r| && r[i] == m[j];
      assert Codes(r)[i] == code;
    }
    if code == g.reasonCode {
      var i :| 0 <= i < |r| && r[i] == g;
      assert Codes(r)[i] == code;
    }
  }

  // ------------------------------------------------------- derived over given

  /** One gap per code. */
  predicate OnePerCode(gaps: seq<Gap>) {
    forall i, j :: 0 <= i < |gaps| && 0 <= j < |gaps| && gaps[i].reasonCode == gaps[j].reasonCode ==> gaps[i] == gaps[j]
  }

  lemma {:induction false} LastExists(gaps: seq<Gap>, code: JsString) returns (i: nat)
    requires code in Codes(gaps)
    ensures i < |gaps| && gaps[i].reasonCode == code && IsLastAt(gaps, gaps[i], i)
  {
    var last := |gaps| - 1;
    if gaps[last].reasonCode == code {
      i := last;
    } else {
      assert Codes(gaps)[..last] == Codes(gaps[..last]) && Codes(gaps)[last] != code;
      assert Codes(gaps) == Codes(gaps)[..last] + [Codes(gaps)[last]];
      i := LastExists(gaps[..last], code);
    }
  }

  lemma OnlyIsLast(gaps: seq<Gap>, g: Gap)
    requires OnePerCode(gaps)
    ensures IsLastOfItsCode(gaps, g) <==> g in gaps
  {
    if g in gaps {
      var k :| 0 <= k < |gaps| && gaps[k] == g;
      assert Codes(gaps)[k] == g.reasonCode;
      var i := LastExists(gaps, g.reasonCode);
    }
  }

  lemma LastOfSecond(given: seq<Gap>, derived: seq<Gap>, g: Gap)
    requires IsLastOfItsCode(derived, g)
    ensures IsLastOfItsCode(given + derived, g)
  {
    var i :| 0 <= i < |derived| && IsLastAt(derived, g, i);
    assert IsLastAt(given + derived, g, |given| + i);
  }

  lemma LastOfFirst(given: seq<Gap>, derived: seq<Gap>, g: Gap)
    requires IsLastOfItsCode(given, g) && g.reasonCode !in Codes(derived)
    ensures IsLastOfItsCode(given + derived, g)
  {
    var i :| 0 <= i < |given| && IsLastAt(given, g, i);
    forall j | i < j < |given + derived| ensures (given + derived)[j].reasonCode != g.reasonCode {
      if j >= |given| {
        assert Codes(derived)[j - |given|] != g.reasonCode;
      }
    }
    assert IsLastAt(given + derived, g, i);
  }

  lemma LastOfEither(given: seq<Gap>, derived: seq<Gap>, g: Gap)
    requires IsLastOfItsCode(given + derived, g)
    ensures IsLastOfItsCode(derived, g) || (IsLastOfItsCode(given, g) && g.reasonCode !in Codes(derived))
  {
    var all := given + derived;
    var i :| 0 <= i < |all| && IsLastAt(all, g, i);
    if i < |given| {
      forall j | i < j < |given| ensures given[j].reasonCode != g.reasonCode {
        assert all[j] == given[j];
      }
      assert IsLastAt(given, g, i);
      forall j | 0 <= j < |derived| ensures Codes(derived)[j] != g.reasonCode {
        assert all[|given| + j] == derived[j];
      }
    } else {
      forall j | i - |given| < j < |derived| ensures derived[j].reasonCode != g.reasonCode {
        assert all[|given| + j] == derived[j];
      }
      assert IsLastAt(derived, g, i - |given|);
    }
  }

  /** Deduplicating given and then derived gaps keeps every derived gap, and of the given ones the
      last of each code for which none was derived. */
  lemma DerivedReplaceGiven(le: Collation, given: seq<Gap>, derived: seq<Gap>, g: Gap)
    requires IsCollation(le) && OnePerCode(derived)
    ensures g in Dedupe(le, given + derived)
       <==> g in derived || (IsLastOfItsCode(given, g) && g.reasonCode !in Codes(derived))
  {
    DedupeKeepsTheLast(le, given + derived, g);
    OnlyIsLast(derived, g);
    if IsLastOfItsCode(given + derived, g) {
      LastOfEither(given, derived, g);
    } else if g in derived {
      LastOfSecond(given, derived, g);
    } else if IsLastOfItsCode(given, g) && g.reasonCode !in Codes(derived) {
      LastOfFirst(given, derived, g);
    }
  }
}
