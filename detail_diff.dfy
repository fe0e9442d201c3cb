/**
 * checkDetailsChanged<T> (qt-folks/managerengine.cpp): decides whether the
 * details of one type differ between the stored and the edited contact, by
 * pairing each edited detail with the first still-unpaired stored detail
 * whose fields all agree.
 */
module DetailDiff {
  import opened Contacts

  /**
   * Two details match when every field either carries is present in both
   * with the same value; integer lists compare element by element.
   */
  predicate FieldsMatch(a: Detail, b: Detail)
  {
    forall f :: f in a.fields || f in b.fields ==> f in a.fields && f in b.fields && a.fields[f] == b.fields[f]
  }

  /** Matching is exactly equality of the field maps. */
  lemma FieldsMatchIsMapEquality(a: Detail, b: Detail)
    ensures FieldsMatch(a, b) <==> a.fields == b.fields
  {
    if FieldsMatch(a, b) {
      assert a.fields.Keys == b.fields.Keys;
    }
  }

  /** The position of the first detail in `ds` matching `d`, or the length when none does. */
  function FirstMatch(ds: seq<Detail>, d: Detail): (j: nat)
    ensures j <= |ds|
    ensures j < |ds| ==> FieldsMatch(ds[j], d)
    ensures forall k :: 0 <= k < j ==> !FieldsMatch(ds[k], d)
  {
    if ds == [] then 0 else if FieldsMatch(ds[0], d) then 0 else 1 + FirstMatch(ds[1..], d)
  }

  /**
   * What is left of both lists once each edited detail, in order, has
   * consumed the first matching stored detail: the unmatched stored details
   * and the unmatched edited ones.
   */
  function Residual(original: seq<Detail>, modified: seq<Detail>): (seq<Detail>, seq<Detail>)
    decreases |modified|
  {
    if modified == [] then (original, [])
    else
      var j := FirstMatch(original, modified[0]);
      if j < |original| then Residual(original[..j] + original[j + 1..], modified[1..])
      else
        var rest := Residual(original, modified[1..]);
        (rest.0, [modified[0]] + rest.1)
  }

  /** The verdict of checkDetailsChanged: something is left unmatched on either side. */
  predicate Changed(original: seq<Detail>, modified: seq<Detail>)
  {
    var r := Residual(original, modified);
    |r.0| > 0 || |r.1| > 0
  }

  /** checkDetailsChanged<T>(originalContact, modifiedContact), with the nested erase-while-iterating loops. */
  method CheckDetailsChanged(kind: DetailKind, originalContact: Contact, modifiedContact: Contact) returns (changed: bool)
    ensures changed == Changed(DetailsOf(originalContact, kind), DetailsOf(modifiedContact, kind))
  {
    var originalDetails := DetailsOf(originalContact, kind);
    var modifiedDetails := DetailsOf(modifiedContact, kind);
    ghost var goal := Residual(originalDetails, modifiedDetails);
    var it := 0;
    FinishStart(originalDetails, modifiedDetails);
    while it < |modifiedDetails|
      invariant 0 <= it <= |modifiedDetails|
      invariant goal == Finish(modifiedDetails[..it], originalDetails, modifiedDetails[it..])
      decreases |modifiedDetails| - it
    {
      var originalIt := FindMatch(originalDetails, modifiedDetails[it]);
      ghost var tail := modifiedDetails[it..];
      ghost var done := modifiedDetails[..it];
      ghost var before := originalDetails;
      if originalIt < |originalDetails| {
        EraseSplits(modifiedDetails, it);
        originalDetails := originalDetails[..originalIt] + originalDetails[originalIt + 1..];
        modifiedDetails := modifiedDetails[..it] + modifiedDetails[it + 1..];
        FinishMatched(done, before, tail);
      } else {
        AdvanceSplits(modifiedDetails, it);
        FinishUnmatched(done, before, tail);
        it := it + 1;
      }
    }
    FinishEnd(modifiedDetails, originalDetails);
    changed := |originalDetails| > 0 || |modifiedDetails| > 0;
  }

  /** The residual of the whole run, given the unmatched edited details so far and what is still to be scanned. */
  function Finish(done: seq<Detail>, original: seq<Detail>, rest: seq<Detail>): (seq<Detail>, seq<Detail>)
  {
    var r := Residual(original, rest);
    (r.0, done + r.1)
  }

  lemma FinishStart(original: seq<Detail>, modified: seq<Detail>)
    ensures Residual(original, modified) == Finish(modified[..0], original, modified[0..])
  {
    assert modified[0..] == modified;
    assert modified[..0] + Residual(original, modified).1 == Residual(original, modified).1;
  }

  lemma FinishEnd(modified: seq<Detail>, original: seq<Detail>)
    ensures Finish(modified[..|modified|], original, modified[|modified|..]) == (original, modified)
  {
    assert modified[|modified|..] == [];
    assert modified[..|modified|] + [] == modified;
  }

  /** Erasing position `it` keeps the prefix before it and drops the head of the suffix from it. */
  lemma EraseSplits(ds: seq<Detail>, it: nat)
    requires it < |ds|
    ensures (ds[..it] + ds[it + 1..])[..it] == ds[..it]
    ensures (ds[..it] + ds[it + 1..])[it..] == ds[it..][1..]
  {
  }

  /** Moving past position `it` extends the prefix by the head of the suffix. */
  lemma AdvanceSplits(ds: seq<Detail>, it: nat)
    requires it < |ds|
    ensures ds[..it + 1] == ds[..it] + [ds[it..][0]]
    ensures ds[it + 1..] == ds[it..][1..]
  {
  }

  lemma FinishMatched(done: seq<Detail>, original: seq<Detail>, rest: seq<Detail>)
    requires rest != [] && FirstMatch(original, rest[0]) < |original|
    ensures var j := FirstMatch(original, rest[0]);
            Finish(done, original, rest) == Finish(done, original[..j] + original[j + 1..], rest[1..])
  {
  }

  lemma FinishUnmatched(done: seq<Detail>, original: seq<Detail>, rest: seq<Detail>)
    requires rest != [] && FirstMatch(original, rest[0]) == |original|
    ensures Finish(done, original, rest) == Finish(done + [rest[0]], original, rest[1..])
  {
    var r := Residual(original, rest[1..]);
    assert Residual(original, rest) == (r.0, [rest[0]] + r.1);
    assert done + ([rest[0]] + r.1) == (done + [rest[0]]) + r.1;
  }

  /** The inner loop: scan the stored details for the first one matching `modifiedDetail`. */
  method FindMatch(originalDetails: seq<Detail>, modifiedDetail: Detail) returns (originalIt: nat)
    ensures originalIt == FirstMatch(originalDetails, modifiedDetail)
  {
    originalIt := 0;
    while originalIt < |originalDetails|
      invariant 0 <= originalIt <= |originalDetails|
      invariant forall k :: 0 <= k < originalIt ==> !FieldsMatch(originalDetails[k], modifiedDetail)
    {
      if FieldsMatch(modifiedDetail, originalDetails[originalIt]) {
        FieldsMatchSymmetric(modifiedDetail, originalDetails[originalIt]);
        break;
      }
      originalIt := originalIt + 1;
    }
    FirstMatchIs(originalDetails, modifiedDetail, originalIt);
  }

  lemma FieldsMatchSymmetric(a: Detail, b: Detail)
    requires FieldsMatch(a, b)
    ensures FieldsMatch(b, a)
  {
  }

  /** A position with no match before it and a match at it, or the end with no match at all, is the first match. */
  lemma {:induction false} FirstMatchIs(ds: seq<Detail>, d: Detail, j: nat)
    requires j <= |ds|
    requires forall k :: 0 <= k < j ==> !FieldsMatch(ds[k], d)
    requires j < |ds| ==> FieldsMatch(ds[j], d)
    ensures FirstMatch(ds, d) == j
    decreases |ds|
  {
    if ds != [] && j > 0 {
      FirstMatchIs(ds[1..], d, j - 1);
    }
  }

  // ---------------------------------------------------------------- what the verdict means

  /** Within one detail type, matching is equality. */
  lemma MatchIsEquality(a: Detail, b: Detail)
    requires a.kind == b.kind
    ensures FieldsMatch(a, b) <==> a == b
  {
    FieldsMatchIsMapEquality(a, b);
  }

  /** Erasing position `j` of a list of one type leaves a list of that type with one occurrence fewer. */
  lemma EraseAt(ds: seq<Detail>, j: nat, kind: DetailKind)
    requires j < |ds| && AllOfKind(ds, kind)
    ensures AllOfKind(ds[..j] + ds[j + 1..], kind)
    ensures multiset(ds) == multiset(ds[..j] + ds[j + 1..]) + multiset{ds[j]}
  {
    assert ds == ds[..j] + [ds[j]] + ds[j + 1..];
    var rest := ds[..j] + ds[j + 1..];
    forall i | 0 <= i < |rest|
      ensures rest[i].kind == kind
    {
      if i < j { assert rest[i] == ds[i]; } else { assert rest[i] == ds[i + 1]; }
    }
  }

  /** The unmatched stored details are drawn from the stored ones, and keep their type. */
  lemma {:induction false} ResidualDrawsFromOriginal(original: seq<Detail>, modified: seq<Detail>, kind: DetailKind)
    requires AllOfKind(original, kind)
    ensures multiset(Residual(original, modified).0) <= multiset(original)
    ensures AllOfKind(Residual(original, modified).0, kind)
    decreases |modified|
  {
    if modified != [] {
      var j := FirstMatch(original, modified[0]);
      if j < |original| {
        var rest := original[..j] + original[j + 1..];
        assert Residual(original, modified) == Residual(rest, modified[1..]);
        EraseAt(original, j, kind);
        ResidualDrawsFromOriginal(rest, modified[1..], kind);
        assert multiset(rest) <= multiset(original);
      } else {
        assert Residual(original, modified).0 == Residual(original, modified[1..]).0;
        ResidualDrawsFromOriginal(original, modified[1..], kind);
      }
    }
  }

  /** What was paired off is the same on both sides: stored plus unmatched edited equals edited plus unmatched stored. */
  lemma {:induction false} ResidualBalances(original: seq<Detail>, modified: seq<Detail>, kind: DetailKind)
    requires AllOfKind(original, kind) && AllOfKind(modified, kind)
    ensures multiset(original) + multiset(Residual(original, modified).1)
         == multiset(modified) + multiset(Residual(original, modified).0)
    decreases |modified|
  {
    if modified != [] {
      var m0 := modified[0];
      var m1 := modified[1..];
      assert modified == [m0] + m1;
      var mm := multiset(modified);
      assert mm == multiset{m0} + multiset(m1);
      assert AllOfKind(m1, kind);
      var j := FirstMatch(original, m0);
      if j < |original| {
        var rest := original[..j] + original[j + 1..];
        EraseAt(original, j, kind);
        MatchIsEquality(original[j], m0);
        ResidualBalances(rest, m1, kind);
        var r := Residual(rest, m1);
        assert Residual(original, modified) == r;
        var a, b, c, d := multiset(rest), multiset(r.1), multiset(m1), multiset(r.0);
        assert a + b == c + d;
        MultisetAddBoth(a, b, c, d, m0);
      } else {
        ResidualBalances(original, m1, kind);
        var r := Residual(original, m1);
        assert Residual(original, modified) == (r.0, [m0] + r.1);
        assert multiset([m0] + r.1) == multiset{m0} + multiset(r.1);
        var a, b, c, d := multiset(original), multiset(r.1), multiset(m1), multiset(r.0);
        assert a + b == c + d;
        MultisetAddBoth2(a, b, c, d, m0);
      }
    }
  }

  lemma MultisetAddBoth(a: multiset<Detail>, b: multiset<Detail>, c: multiset<Detail>, d: multiset<Detail>, x: Detail)
    requires a + b == c + d
    ensures (a + multiset{x}) + b == (multiset{x} + c) + d
  {
    assert forall y :: ((a + multiset{x}) + b)[y] == ((multiset{x} + c) + d)[y] by {
      forall y ensures ((a + multiset{x}) + b)[y] == ((multiset{x} + c) + d)[y] {
        assert (a + b)[y] == (c + d)[y];
      }
    }
  }

  lemma MultisetAddBoth2(a: multiset<Detail>, b: multiset<Detail>, c: multiset<Detail>, d: multiset<Detail>, x: Detail)
    requires a + b == c + d
    ensures a + (multiset{x} + b) == (multiset{x} + c) + d
  {
    assert forall y :: (a + (multiset{x} + b))[y] == ((multiset{x} + c) + d)[y] by {
      forall y ensures (a + (multiset{x} + b))[y] == ((multiset{x} + c) + d)[y] {
        assert (a + b)[y] == (c + d)[y];
      }
    }
  }

  /** No unmatched edited detail matches an unmatched stored one. */
  lemma {:induction false} ResidualsDisjoint(original: seq<Detail>, modified: seq<Detail>, kind: DetailKind)
    requires AllOfKind(original, kind)
    ensures forall x, y :: x in Residual(original, modified).1 && y in Residual(original, modified).0 ==> !FieldsMatch(y, x)
    decreases |modified|
  {
    if modified != [] {
      var j := FirstMatch(original, modified[0]);
      if j < |original| {
        EraseAt(original, j, kind);
        ResidualsDisjoint(original[..j] + original[j + 1..], modified[1..], kind);
      } else {
        ResidualsDisjoint(original, modified[1..], kind);
        ResidualDrawsFromOriginal(original, modified[1..], kind);
        var r := Residual(original, modified[1..]);
        forall y | y in r.0
          ensures !FieldsMatch(y, modified[0])
        {
          assert y in multiset(r.0);
          assert y in multiset(original);
          var i :| 0 <= i < |original| && original[i] == y;
        }
      }
    }
  }

  /**
   * checkDetailsChanged reports no change exactly when the two lists hold the
   * same details the same number of times, whatever their order.
   */
  lemma UnchangedIffSameDetails(original: seq<Detail>, modified: seq<Detail>, kind: DetailKind)
    requires AllOfKind(original, kind) && AllOfKind(modified, kind)
    ensures !Changed(original, modified) <==> multiset(original) == multiset(modified)
  {
    var r := Residual(original, modified);
    ResidualBalances(original, modified, kind);
    if !Changed(original, modified) {
      assert r.0 == [] && r.1 == [];
      assert multiset(original) + multiset(r.1) == multiset(original);
      assert multiset(modified) + multiset(r.0) == multiset(modified);
    }
    if multiset(original) == multiset(modified) {
      ResidualsDisjoint(original, modified, kind);
      assert forall x :: multiset(r.1)[x] == multiset(r.0)[x] by {
        forall x ensures multiset(r.1)[x] == multiset(r.0)[x] {
          assert (multiset(original) + multiset(r.1))[x] == (multiset(modified) + multiset(r.0))[x];
        }
      }
      assert multiset(r.1) == multiset(r.0);
      if |r.1| > 0 {
        var x := r.1[0];
        assert x in multiset(r.0);
        FieldsMatchIsMapEquality(x, x);
        assert false;
      }
      assert multiset(r.0) == multiset{};
      assert |r.0| == |multiset(r.0)| == 0;
      assert |r.1| == 0;
      assert !Changed(original, modified);
    }
  }

  /** A contact compared with itself has changed in no detail type. */
  lemma NothingChangedAgainstItself(c: Contact, kind: DetailKind)
    ensures !Changed(DetailsOf(c, kind), DetailsOf(c, kind))
  {
    UnchangedIffSameDetails(DetailsOf(c, kind), DetailsOf(c, kind), kind);
  }

  /** Adding or dropping a detail is always a change. */
  lemma DifferentCountsChanged(original: seq<Detail>, modified: seq<Detail>, kind: DetailKind)
    requires AllOfKind(original, kind) && AllOfKind(modified, kind)
    requires |original| != |modified|
    ensures Changed(original, modified)
  {
    UnchangedIffSameDetails(original, modified, kind);
    assert |multiset(original)| != |multiset(modified)|;
  }
}
