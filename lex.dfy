/**
  The order of Rust's `String` keys in a `BTreeMap`: lexicographic, where a
  proper prefix comes first. Rust compares the UTF-8 bytes; UTF-8 preserves
  the order of code points, so comparing characters here gives the same order.
*/
module Lex {

  /** `a` sorts strictly before `b`. */
  predicate Less(a: string, b: string)
  {
    if a == [] then b != []
    else if b == [] then false
    else a[0] < b[0] || (a[0] == b[0] && Less(a[1..], b[1..]))
  }

  lemma {:induction false} Asymmetric(a: string, b: string)
    requires Less(a, b)
    ensures !Less(b, a)
  {
    if a != [] && b != [] && a[0] == b[0] { Asymmetric(a[1..], b[1..]); }
  }

  lemma {:induction false} Transitive(a: string, b: string, c: string)
    requires Less(a, b) && Less(b, c)
    ensures Less(a, c)
  {
    if a != [] && a[0] == b[0] && b[0] == c[0] { Transitive(a[1..], b[1..], c[1..]); }
  }

  lemma {:induction false} Total(a: string, b: string)
    ensures a == b || Less(a, b) || Less(b, a)
  {
    if a != [] && b != [] && a[0] == b[0] {
      Total(a[1..], b[1..]);
      if a[1..] == b[1..] { assert a == [a[0]] + a[1..] && b == [b[0]] + b[1..]; }
    }
  }

  /** `k` is the greatest of `keys`. */
  predicate IsGreatest(k: string, keys: set<string>)
  {
    k in keys && forall k' | k' in keys :: k' == k || Less(k', k)
  }

  lemma {:induction false} GreatestExists(keys: set<string>)
    requires keys != {}
    ensures exists k :: IsGreatest(k, keys)
    decreases keys
  {
    var x :| x in keys;
    if keys != {x} {
      GreatestExists(keys - {x});
      var g :| IsGreatest(g, keys - {x});
      Total(g, x);
      if Less(g, x) {
        forall k' | k' in keys ensures k' == x || Less(k', x) {
          if k' != x && k' != g { Transitive(k', g, x); }
        }
        assert IsGreatest(x, keys);
      } else {
        assert IsGreatest(g, keys);
      }
    } else {
      assert IsGreatest(x, keys);
    }
  }

  lemma GreatestUnique(keys: set<string>)
    ensures forall a, b :: IsGreatest(a, keys) && IsGreatest(b, keys) ==> a == b
  {
    forall a, b | IsGreatest(a, keys) && IsGreatest(b, keys) ensures a == b {
      if a != b {
        assert Less(a, b) && Less(b, a);
        Asymmetric(a, b);
      }
    }
  }

  /** The greatest key of a non-empty set: the last one a `BTreeMap` visits. */
  function Greatest(keys: set<string>): (k: string)
    requires keys != {}
    ensures IsGreatest(k, keys)
  {
    GreatestExists(keys);
    GreatestUnique(keys);
    var k :| IsGreatest(k, keys); k
  }
}
