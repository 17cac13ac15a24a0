/** Lists kept in strictly ascending order of a key. */
module SortedLists {

  predicate AscendingBy<T>(s: seq<T>, key: T -> int) {
    forall i, j | 0 <= i < j < |s| :: key(s[i]) < key(s[j])
  }

  ghost predicate Below<T>(s: seq<T>, key: T -> int, bound: int) {
    forall i | 0 <= i < |s| :: key(s[i]) < bound
  }

  /** Inserts x, whose key is new, at its place. */
  function InsertBy<T(!new)>(s: seq<T>, x: T, key: T -> int): (r: seq<T>)
    requires AscendingBy(s, key) && forall i | 0 <= i < |s| :: key(s[i]) != key(x)
    ensures AscendingBy(r, key)
    ensures forall y :: y in r <==> y == x || y in s
  {
    if s == [] || key(s[|s| - 1]) < key(x) then s + [x]
    else
      var last := s[|s| - 1];
      assert s == s[..|s| - 1] + [last];
      var init := InsertBy(s[..|s| - 1], x, key);
      assert Below(init, key, key(last)) by {
        BelowTheLast(s, init, x, key);
      }
      init + [last]
  }

  lemma BelowTheLast<T(!new)>(s: seq<T>, init: seq<T>, x: T, key: T -> int)
    requires AscendingBy(s, key) && s != [] && key(x) < key(s[|s| - 1])
    requires forall y :: y in init <==> y == x || y in s[..|s| - 1]
    ensures Below(init, key, key(s[|s| - 1]))
  {
    forall i | 0 <= i < |init| ensures key(init[i]) < key(s[|s| - 1]) {
      assert init[i] in init;
    }
  }

  lemma HasMember<T>(s: seq<T>)
    requires s != []
    ensures exists x :: x in s
  {
    assert s[0] in s;
  }

  /** The same elements have only one ascending listing. */
  lemma {:induction false} AscendingIsUnique<T>(a: seq<T>, b: seq<T>, key: T -> int)
    requires AscendingBy(a, key) && AscendingBy(b, key)
    requires forall x :: x in a <==> x in b
    ensures a == b
  {
    if a == [] {
      if b != [] {
        HasMember(b);
      }
    } else {
      assert a[|a| - 1] in b;
      assert b[|b| - 1] in a;
      var a', b' := a[..|a| - 1], b[..|b| - 1];
      assert a[|a| - 1] == b[|b| - 1];
      forall x ensures x in a' <==> x in b' {
        if x in a' {
          assert x in a && x != a[|a| - 1];
          assert x in b;
        }
        if x in b' {
          assert x in b && x != b[|b| - 1];
          assert x in a;
        }
      }
      AscendingIsUnique(a', b', key);
      assert a == a' + [a[|a| - 1]] && b == b' + [b[|b| - 1]];
    }
  }
}
