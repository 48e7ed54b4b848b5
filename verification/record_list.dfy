/**
 The list logic of the record store: removal by `id` (the `filter` in
 `removeRecord`), counting entries with an `id`, and an order-preserving
 subsequence relation used to state what removal keeps.
 */
module RecordList {
  import opened Json

  /** No entry of `s` carries `id`. */
  predicate IdFree(s: seq<Record>, id: string) {
    forall k :: 0 <= k < |s| ==> s[k].id != id
  }

  /** Number of entries of `s` whose `id` is `id`. */
  function CountId(s: seq<Record>, id: string): nat {
    if s == [] then 0
    else (if s[0].id == id then 1 else 0) + CountId(s[1..], id)
  }

  /** `records.filter((record) => record.id !== r.id)`: keeps, in order, the
      entries whose `id` differs from `id`. */
  function RemoveId(s: seq<Record>, id: string): seq<Record> {
    if s == [] then []
    else if s[0].id == id then RemoveId(s[1..], id)
    else [s[0]] + RemoveId(s[1..], id)
  }

  /** `a` can be obtained from `b` by deleting entries (greedy matching of
      `a`'s head against the earliest equal entry of `b`). */
  predicate IsSubseq<T(==)>(a: seq<T>, b: seq<T>)
    decreases |b|
  {
    if a == [] then true
    else if b == [] then false
    else if a[0] == b[0] then IsSubseq(a[1..], b[1..])
    else IsSubseq(a, b[1..])
  }

  /** Independent description of removal by `id`: `r` keeps the order of `s`,
      holds no entry with `id`, and holds every other entry of `s` exactly as
      many times as `s` does. */
  ghost predicate IsRemoval(r: seq<Record>, s: seq<Record>, id: string) {
    && IsSubseq(r, s)
    && IdFree(r, id)
    && forall x: Record :: x.id != id ==> multiset(r)[x] == multiset(s)[x]
  }

  lemma {:induction false} SubseqMultiset<T>(a: seq<T>, b: seq<T>)
    requires IsSubseq(a, b)
    ensures multiset(a) <= multiset(b)
    decreases |b|
  {
    if a == [] {
    } else {
      assert b != [];
      assert b == [b[0]] + b[1..];
      if a[0] == b[0] {
        SubseqMultiset(a[1..], b[1..]);
        assert a == [a[0]] + a[1..];
      } else {
        SubseqMultiset(a, b[1..]);
      }
    }
  }

  /** Removal by `id` meets its independent description. */
  lemma {:induction false} RemoveIdIsRemoval(s: seq<Record>, id: string)
    ensures IsRemoval(RemoveId(s, id), s, id)
    decreases |s|
  {
    if s != [] {
      var x, t := s[0], s[1..];
      assert s == [x] + t;
      RemoveIdIsRemoval(t, id);
      var rt := RemoveId(t, id);
      if x.id == id {
        assert rt != [] ==> rt[0] != x;
      } else {
        var r := [x] + rt;
        assert r[1..] == rt;
        forall k | 0 <= k < |r| ensures r[k].id != id {
          if k > 0 { assert r[k] == rt[k - 1]; }
        }
      }
    }
  }

  /** The description determines the result: whatever satisfies it is exactly
      `RemoveId(s, id)`. */
  lemma {:induction false} RemovalIsUnique(r: seq<Record>, s: seq<Record>, id: string)
    requires IsRemoval(r, s, id)
    ensures r == RemoveId(s, id)
    decreases |s|
  {
    if s == [] {
      assert r == [];
    } else {
      var x, t := s[0], s[1..];
      assert s == [x] + t;
      if x.id == id {
        assert r != [] ==> r[0].id != id;
        assert IsSubseq(r, t);
        forall y: Record | y.id != id ensures multiset(r)[y] == multiset(t)[y] {
          assert y != x;
        }
        RemovalIsUnique(r, t, id);
      } else {
        assert multiset(s)[x] >= 1;
        assert r != [];
        assert r == [r[0]] + r[1..];
        if r[0] == x {
          var r' := r[1..];
          assert IsSubseq(r', t);
          forall k | 0 <= k < |r'| ensures r'[k].id != id {
            assert r'[k] == r[k + 1];
          }
          forall y: Record | y.id != id ensures multiset(r')[y] == multiset(t)[y] {
            assert multiset(r)[y] == multiset(r')[y] + (if y == x then 1 else 0);
            assert multiset(s)[y] == multiset(t)[y] + (if y == x then 1 else 0);
          }
          RemovalIsUnique(r', t, id);
        } else {
          assert IsSubseq(r, t);
          SubseqMultiset(r, t);
          assert false;
        }
      }
    }
  }

  lemma {:induction false} RemoveIdConcat(a: seq<Record>, b: seq<Record>, id: string)
    ensures RemoveId(a + b, id) == RemoveId(a, id) + RemoveId(b, id)
    decreases |a|
  {
    if a != [] {
      assert (a + b)[1..] == a[1..] + b;
      RemoveIdConcat(a[1..], b, id);
    } else {
      assert a + b == b;
    }
  }

  /** Removing an `id` that no entry carries changes nothing. */
  lemma {:induction false} RemoveIdAbsent(s: seq<Record>, id: string)
    requires IdFree(s, id)
    ensures RemoveId(s, id) == s
    decreases |s|
  {
    if s != [] {
      assert s[0].id != id;
      assert IdFree(s[1..], id) by {
        forall k | 0 <= k < |s[1..]| ensures s[1..][k].id != id {
          assert s[1..][k] == s[k + 1];
        }
      }
      RemoveIdAbsent(s[1..], id);
      assert s == [s[0]] + s[1..];
    }
  }

  /** Removing the same `id` twice is the same as removing it once. */
  lemma RemoveIdIdempotent(s: seq<Record>, id: string)
    ensures RemoveId(RemoveId(s, id), id) == RemoveId(s, id)
  {
    RemoveIdIsRemoval(s, id);
    RemoveIdAbsent(RemoveId(s, id), id);
  }

  /** Appending a record whose `id` is new and then removing that `id`
      restores the list. */
  lemma RemoveIdAfterAppend(s: seq<Record>, d: Record)
    requires IdFree(s, d.id)
    ensures RemoveId(s + [d], d.id) == s
  {
    RemoveIdConcat(s, [d], d.id);
    RemoveIdAbsent(s, d.id);
    assert [d][1..] == [];
  }

  lemma {:induction false} CountIdAppend(s: seq<Record>, d: Record, id: string)
    ensures CountId(s + [d], id) == CountId(s, id) + (if d.id == id then 1 else 0)
    decreases |s|
  {
    if s == [] {
      assert s + [d] == [d];
      assert [d][1..] == [];
    } else {
      assert (s + [d])[1..] == s[1..] + [d];
      CountIdAppend(s[1..], d, id);
    }
  }

  /** An `id` occurs in `s` exactly when its count is positive. */
  lemma {:induction false} CountIdPositive(s: seq<Record>, id: string)
    ensures CountId(s, id) > 0 <==> !IdFree(s, id)
    decreases |s|
  {
    if s != [] {
      CountIdPositive(s[1..], id);
      if !IdFree(s[1..], id) {
        var k :| 0 <= k < |s[1..]| && s[1..][k].id == id;
        assert s[k + 1].id == id;
      }
      if s[0].id != id && !IdFree(s, id) {
        var k :| 0 <= k < |s| && s[k].id == id;
        assert k > 0 && s[1..][k - 1].id == id;
      }
    }
  }
}
