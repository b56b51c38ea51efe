/**
The order in which the ledger table is read: by creation time, then by id. Ids are
compared character by character, as SQLite's BINARY collation compares text.
*/
module KeyOrder {

  datatype Key = Key(ts: int, id: string)

  predicate TextLt(a: string, b: string) {
    if b == "" then false
    else if a == "" then true
    else a[0] < b[0] || (a[0] == b[0] && TextLt(a[1..], b[1..]))
  }

  /** Texts are compared at their first difference, and a beginning comes before what it begins. */
  lemma {:induction false} FirstDifferenceDecides(p: string, x: char, a: string, y: char, b: string)
    requires x != y
    ensures TextLt(p + [x] + a, p + [y] + b) <==> x < y
    ensures TextLt(p, p + [x] + a) && !TextLt(p + [x] + a, p) && !TextLt(p, p)
  {
    if p == "" {
      assert p + [x] + a == [x] + a && p + [y] + b == [y] + b;
    } else {
      FirstDifferenceDecides(p[1..], x, a, y, b);
      assert (p + [x] + a)[1..] == p[1..] + [x] + a && (p + [y] + b)[1..] == p[1..] + [y] + b;
    }
  }

  predicate KeyLt(a: Key, b: Key) {
    a.ts < b.ts || (a.ts == b.ts && TextLt(a.id, b.id))
  }

  predicate KeyLe(a: Key, b: Key) {
    a == b || KeyLt(a, b)
  }

  ghost predicate Ascending(s: seq<Key>) {
    forall i, j :: 0 <= i < j < |s| ==> KeyLt(s[i], s[j])
  }

  lemma {:induction false} TextIrreflexive(a: string)
    ensures !TextLt(a, a)
  {
    if a != "" {
      TextIrreflexive(a[1..]);
    }
  }

  lemma {:induction false} TextTransitive(a: string, b: string, c: string)
    requires TextLt(a, b) && TextLt(b, c)
    ensures TextLt(a, c)
  {
    if a != "" && a[0] == b[0] && b[0] == c[0] {
      TextTransitive(a[1..], b[1..], c[1..]);
    }
  }

  lemma {:induction false} TextTotal(a: string, b: string)
    ensures a == b || TextLt(a, b) || TextLt(b, a)
  {
    if a != "" && b != "" && a[0] == b[0] {
      TextTotal(a[1..], b[1..]);
      assert a == [a[0]] + a[1..] && b == [b[0]] + b[1..];
    }
  }

  lemma KeyTransitive(a: Key, b: Key, c: Key)
    requires KeyLe(a, b) && KeyLe(b, c)
    ensures KeyLe(a, c)
    ensures KeyLt(a, b) || KeyLt(b, c) ==> KeyLt(a, c)
  {
    if a != b && b != c && a.ts == b.ts && b.ts == c.ts {
      TextTransitive(a.id, b.id, c.id);
    }
  }

  lemma KeyIrreflexive(a: Key)
    ensures !KeyLt(a, a)
  {
    TextIrreflexive(a.id);
  }

  lemma KeyAsymmetric(a: Key, b: Key)
    requires KeyLt(a, b)
    ensures !KeyLe(b, a)
  {
    if KeyLe(b, a) {
      KeyTransitive(a, b, a);
      KeyIrreflexive(a);
    }
  }

  lemma KeyTotal(a: Key, b: Key)
    ensures KeyLe(a, b) || KeyLt(b, a)
  {
    TextTotal(a.id, b.id);
  }

  predicate IsLeast(keys: set<Key>, k: Key) {
    k in keys && forall other :: other in keys ==> KeyLe(k, other)
  }

  /** A nonempty finite set of keys has exactly one least key. */
  lemma {:induction false} LeastExists(keys: set<Key>)
    requires keys != {}
    ensures exists k :: IsLeast(keys, k)
    ensures forall a, b :: IsLeast(keys, a) && IsLeast(keys, b) ==> a == b
    decreases |keys|
  {
    var k0 :| k0 in keys;
    var rest := keys - {k0};
    if rest == {} {
      assert keys == {k0};
      assert IsLeast(keys, k0);
    } else {
      LeastExists(rest);
      var l :| IsLeast(rest, l);
      KeyTotal(l, k0);
      var least := if KeyLe(l, k0) then l else k0;
      forall k | k in keys
        ensures KeyLe(least, k)
      {
        if k != k0 && least == k0 {
          KeyTransitive(k0, l, k);
        }
      }
      assert IsLeast(keys, least);
    }
    forall a, b | IsLeast(keys, a) && IsLeast(keys, b)
      ensures a == b
    {
      if a != b {
        KeyAsymmetric(a, b);
      }
    }
  }

  /** The keys of a finite set in ascending order. */
  function SortKeys(keys: set<Key>): (sorted: seq<Key>)
    ensures Ascending(sorted)
    ensures |sorted| == |keys|
    ensures forall i :: 0 <= i < |sorted| ==> sorted[i] in keys
    ensures forall k :: k in keys ==> k in sorted
    decreases |keys|
  {
    if keys == {} then []
    else
      LeastExists(keys);
      var least :| IsLeast(keys, least);
      var rest := SortKeys(keys - {least});
      var sorted := [least] + rest;
      assert forall k :: k in keys ==> k == least || k in rest;
      sorted
  }

  lemma AscendingTail(s: seq<Key>)
    requires Ascending(s) && s != []
    ensures Ascending(s[1..]) && s[0] !in s[1..]
    ensures forall k :: k in s[1..] ==> KeyLt(s[0], k)
  {
    if s[0] in s[1..] {
      KeyIrreflexive(s[0]);
    }
  }

  /** Two ascending sequences with the same elements are the same sequence. */
  lemma {:induction false} AscendingIsUnique(a: seq<Key>, b: seq<Key>)
    requires Ascending(a) && Ascending(b)
    requires forall k :: k in a <==> k in b
    ensures a == b
  {
    assert b == [] || b[0] in b;
    if a != [] {
      assert a[0] in a;
      AscendingTail(a);
      AscendingTail(b);
      assert a == [a[0]] + a[1..] && b == [b[0]] + b[1..];
      assert b[0] in a;
      if a[0] != b[0] {
        KeyAsymmetric(a[0], b[0]);
      }
      forall k
        ensures k in a[1..] <==> k in b[1..]
      {
        assert k in a[1..] <==> k in a && k != a[0];
        assert k in b[1..] <==> k in b && k != b[0];
      }
      AscendingIsUnique(a[1..], b[1..]);
    }
  }

  lemma AscendingConcat(a: seq<Key>, b: seq<Key>, mid: Key)
    requires Ascending(a) && Ascending(b)
    requires forall k :: k in a ==> KeyLe(k, mid)
    requires forall k :: k in b ==> KeyLt(mid, k)
    ensures Ascending(a + b)
  {
    var s := a + b;
    forall i, j | 0 <= i < j < |s|
      ensures KeyLt(s[i], s[j])
    {
      if i < |a| <= j {
        assert s[i] in a && s[j] in b;
        KeyTransitive(s[i], mid, s[j]);
      }
    }
  }
}
