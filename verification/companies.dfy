/**
 The company record of the dashboard and the list operations the page performs on it:
 removal by identifier (a filter that keeps order) and the bookkeeping needed to
 talk about identifiers, which are random tokens and not guaranteed to be unique.
 */
module Companies {
  import opened Wrappers

  /** One company record: an opaque identifier, a name, and optional ticker and sector. */
  datatype Company = Company(id: string, name: string, ticker: Option<string>, sector: Option<string>)

  /** Some record of `cs` carries identifier `id`. */
  predicate HasId(cs: seq<Company>, id: string) {
    exists k :: 0 <= k < |cs| && cs[k].id == id
  }

  /** No two records of `cs` share an identifier. */
  predicate DistinctIds(cs: seq<Company>) {
    forall a, b :: 0 <= a < b < |cs| ==> cs[a].id != cs[b].id
  }

  /** The number of records of `cs` that carry identifier `id`. */
  function CountId(cs: seq<Company>, id: string): (n: nat)
    ensures n <= |cs|
    ensures n == 0 <==> !HasId(cs, id)
  {
    if cs == [] then 0
    else
      assert forall k :: 1 <= k < |cs| ==> cs[k] == cs[1..][k - 1];
      (if cs[0].id == id then 1 else 0) + CountId(cs[1..], id)
  }

  /** `a` is `b` with some elements left out, the rest kept in their order. */
  predicate IsSubsequence<T(==)>(a: seq<T>, b: seq<T>)
    decreases |b|
  {
    if a == [] then true
    else if b == [] then false
    else if a[0] == b[0] then IsSubsequence(a[1..], b[1..])
    else IsSubsequence(a, b[1..])
  }

  /**
   The list after the page's "Remove" action on `id`: every record carrying `id`
   is dropped and the others stay in their order.
   */
  function Remove(cs: seq<Company>, id: string): (r: seq<Company>)
    ensures forall c :: c in r <==> c in cs && c.id != id
    ensures !HasId(r, id)
    ensures IsSubsequence(r, cs)
    ensures |r| == |cs| - CountId(cs, id)
  {
    if cs == [] then []
    else
      assert forall c :: c in cs <==> c == cs[0] || c in cs[1..];
      if cs[0].id == id then Remove(cs[1..], id)
      else [cs[0]] + Remove(cs[1..], id)
  }

  /** A record-free subsequence of `b` leaves out at least the records carrying `id`. */
  lemma {:induction false} SubsequenceAvoidingBound(a: seq<Company>, b: seq<Company>, id: string)
    requires IsSubsequence(a, b)
    requires !HasId(a, id)
    ensures |a| <= |b| - CountId(b, id)
    decreases |b|
  {
    if a == [] {
    } else if a[0] == b[0] {
      assert !HasId(a[1..], id) by {
        forall k | 0 <= k < |a[1..]| ensures a[1..][k].id != id { assert a[1..][k] == a[k + 1]; }
      }
      SubsequenceAvoidingBound(a[1..], b[1..], id);
      assert b[0].id != id by { assert a[0].id != id; }
    } else {
      SubsequenceAvoidingBound(a, b[1..], id);
    }
  }

  /**
   A list that is an order-preserving subsequence of `cs`, carries no record with
   `id`, and is as long as the records of `cs` that carry another id, is `Remove(cs, id)`.
   */
  lemma {:induction false} FilterDescriptionIsRemove(r: seq<Company>, cs: seq<Company>, id: string)
    requires IsSubsequence(r, cs) && !HasId(r, id) && |r| == |cs| - CountId(cs, id)
    ensures r == Remove(cs, id)
    decreases |cs|
  {
    if cs == [] {
    } else if cs[0].id == id {
      assert r == [] || r[0] != cs[0] by {
        if r != [] { assert r[0].id != id; }
      }
      FilterDescriptionIsRemove(r, cs[1..], id);
    } else if r != [] && r[0] == cs[0] {
      assert !HasId(r[1..], id) by {
        forall k | 0 <= k < |r[1..]| ensures r[1..][k].id != id { assert r[1..][k] == r[k + 1]; }
      }
      FilterDescriptionIsRemove(r[1..], cs[1..], id);
      assert r == [r[0]] + r[1..];
    } else if r != [] {
      SubsequenceAvoidingBound(r, cs[1..], id);
    }
  }

  /**
   `Remove` is the only list that is an order-preserving subsequence of the input,
   carries no record with `id`, and keeps every other record: the reference
   description of a filter and `Remove` agree, in both directions.
   */
  lemma RemoveCharacterized(r: seq<Company>, cs: seq<Company>, id: string)
    ensures (IsSubsequence(r, cs) && !HasId(r, id) && |r| == |cs| - CountId(cs, id))
            <==> r == Remove(cs, id)
  {
    if IsSubsequence(r, cs) && !HasId(r, id) && |r| == |cs| - CountId(cs, id) {
      FilterDescriptionIsRemove(r, cs, id);
    }
  }

  /** Removing an identifier nobody carries changes nothing. */
  lemma {:induction false} RemoveAbsent(cs: seq<Company>, id: string)
    requires !HasId(cs, id)
    ensures Remove(cs, id) == cs
  {
    if cs != [] {
      assert cs[0].id != id;
      assert !HasId(cs[1..], id) by {
        forall k | 0 <= k < |cs[1..]| ensures cs[1..][k].id != id { assert cs[1..][k] == cs[k + 1]; }
      }
      RemoveAbsent(cs[1..], id);
      assert cs == [cs[0]] + cs[1..];
    }
  }

  /** Removing the same identifier twice is removing it once. */
  lemma RemoveIdempotent(cs: seq<Company>, id: string)
    ensures Remove(Remove(cs, id), id) == Remove(cs, id)
  {
    RemoveAbsent(Remove(cs, id), id);
  }

  /** Removal distributes over concatenation, so it acts on each record independently. */
  lemma {:induction false} RemoveAppend(a: seq<Company>, b: seq<Company>, id: string)
    ensures Remove(a + b, id) == Remove(a, id) + Remove(b, id)
  {
    if a != [] {
      assert (a + b)[1..] == a[1..] + b;
      RemoveAppend(a[1..], b, id);
    } else {
      assert a + b == b;
    }
  }

  /** Two removals commute. */
  lemma {:induction false} RemoveCommutes(cs: seq<Company>, x: string, y: string)
    ensures Remove(Remove(cs, x), y) == Remove(Remove(cs, y), x)
  {
    if cs != [] {
      RemoveCommutes(cs[1..], x, y);
      var head := [cs[0]];
      assert cs == head + cs[1..];
      RemoveAppend(head, cs[1..], x);
      RemoveAppend(head, cs[1..], y);
      RemoveAppend(Remove(head, x), Remove(cs[1..], x), y);
      RemoveAppend(Remove(head, y), Remove(cs[1..], y), x);
    }
  }

  /** Records of an order-preserving subsequence keep distinct identifiers. */
  lemma {:induction false} SubsequenceKeepsDistinct(a: seq<Company>, b: seq<Company>)
    requires IsSubsequence(a, b) && DistinctIds(b)
    ensures DistinctIds(a)
    decreases |b|
  {
    if a != [] {
      assert DistinctIds(b[1..]) by {
        forall p, q | 0 <= p < q < |b[1..]| ensures b[1..][p].id != b[1..][q].id {
          assert b[1..][p] == b[p + 1] && b[1..][q] == b[q + 1];
        }
      }
      if a[0] == b[0] {
        SubsequenceKeepsDistinct(a[1..], b[1..]);
        SubsequenceMembers(a[1..], b[1..]);
        forall q | 0 < q < |a| ensures a[0].id != a[q].id {
          assert a[q] == a[1..][q - 1];
          var m :| 0 <= m < |b[1..]| && b[1..][m] == a[q];
          assert b[0].id != b[m + 1].id;
        }
        forall p, q | 0 <= p < q < |a| ensures a[p].id != a[q].id {
          if p > 0 { assert a[p] == a[1..][p - 1] && a[q] == a[1..][q - 1]; }
        }
      } else {
        SubsequenceKeepsDistinct(a, b[1..]);
      }
    }
  }

  /** Every element of a subsequence occurs in the sequence it was taken from. */
  lemma {:induction false} SubsequenceMembers<T>(a: seq<T>, b: seq<T>)
    requires IsSubsequence(a, b)
    ensures forall k :: 0 <= k < |a| ==> exists m :: 0 <= m < |b| && b[m] == a[k]
    decreases |b|
  {
    if a != [] {
      if a[0] == b[0] {
        SubsequenceMembers(a[1..], b[1..]);
        forall k | 0 <= k < |a| ensures exists m :: 0 <= m < |b| && b[m] == a[k] {
          if k == 0 {
            assert b[0] == a[0];
          } else {
            assert a[k] == a[1..][k - 1];
            var m :| 0 <= m < |b[1..]| && b[1..][m] == a[k];
            assert b[m + 1] == a[k];
          }
        }
      } else {
        SubsequenceMembers(a, b[1..]);
        forall k | 0 <= k < |a| ensures exists m :: 0 <= m < |b| && b[m] == a[k] {
          var m :| 0 <= m < |b[1..]| && b[1..][m] == a[k];
          assert b[m + 1] == a[k];
        }
      }
    }
  }

  /** Removal keeps identifiers distinct. */
  lemma RemoveKeepsDistinct(cs: seq<Company>, id: string)
    requires DistinctIds(cs)
    ensures DistinctIds(Remove(cs, id))
  {
    SubsequenceKeepsDistinct(Remove(cs, id), cs);
  }

  /** With distinct identifiers, an identifier that is present is carried by exactly one record. */
  lemma {:induction false} DistinctCountsOnce(cs: seq<Company>, id: string)
    requires DistinctIds(cs) && HasId(cs, id)
    ensures CountId(cs, id) == 1
  {
    var k :| 0 <= k < |cs| && cs[k].id == id;
    assert DistinctIds(cs[1..]) by {
      forall p, q | 0 <= p < q < |cs[1..]| ensures cs[1..][p].id != cs[1..][q].id {
        assert cs[1..][p] == cs[p + 1] && cs[1..][q] == cs[q + 1];
      }
    }
    if k == 0 {
      assert !HasId(cs[1..], id) by {
        forall m | 0 <= m < |cs[1..]| ensures cs[1..][m].id != id { assert cs[1..][m] == cs[m + 1]; }
      }
    } else {
      assert cs[1..][k - 1] == cs[k];
      DistinctCountsOnce(cs[1..], id);
    }
  }

  /**
   With distinct identifiers, removing an identifier that is present shortens the
   list by exactly one; removing one that is absent leaves it as it was.
   */
  lemma RemoveDistinctLength(cs: seq<Company>, id: string)
    requires DistinctIds(cs)
    ensures HasId(cs, id) ==> |Remove(cs, id)| == |cs| - 1
    ensures !HasId(cs, id) ==> Remove(cs, id) == cs
  {
    if HasId(cs, id) {
      DistinctCountsOnce(cs, id);
    } else {
      RemoveAbsent(cs, id);
    }
  }
}
