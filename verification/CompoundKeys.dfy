/**
 Keys made of two names with a colon between them, as the visit tracker and the rate limiter
 make them (services/detector/src/visit_tracker.py, line 42; shared/rate_limit.py, line 54).
 */
module CompoundKeys {

  function KeyOf(a: string, b: string): string {
    a + ":" + b
  }

  /** The longer first name is the shorter one with a colon and the front of the other's second. */
  ghost predicate Overlap(a: string, b: string, a': string, b': string) {
    exists m :: a' == a + ":" + m && b == m + ":" + b'
  }

  /** Two pairs share a key exactly if they are equal or one reads a colon of the second name as
      part of the first, or the other way round. */
  lemma KeysEqualIff(a: string, b: string, a': string, b': string)
    ensures KeyOf(a, b) == KeyOf(a', b')
       <==> (a == a' && b == b')
            || Overlap(a, b, a', b')
            || Overlap(a', b', a, b)
  {
    OverlapShares(a, b, a', b');
    OverlapShares(a', b', a, b);
    if KeyOf(a, b) == KeyOf(a', b') {
      if |a| == |a'| {
        assert a == KeyOf(a, b)[..|a|] == a';
        assert b == KeyOf(a, b)[|a| + 1..] == b';
      } else if |a| < |a'| {
        SharedOverlaps(a, b, a', b');
      } else {
        SharedOverlaps(a', b', a, b);
      }
    }
  }

  lemma OverlapShares(a: string, b: string, a': string, b': string)
    ensures Overlap(a, b, a', b') ==> KeyOf(a, b) == KeyOf(a', b')
  {
    if m :| a' == a + ":" + m && b == m + ":" + b' {
      assert a + ":" + (m + ":" + b') == (a + ":" + m) + ":" + b';
    }
  }

  lemma SharedOverlaps(a: string, b: string, a': string, b': string)
    requires KeyOf(a, b) == KeyOf(a', b') && |a| < |a'|
    ensures Overlap(a, b, a', b')
  {
    var key, m := KeyOf(a, b), a'[|a| + 1..];
    assert key[|a|] == ':' && a' == key[..|a'|];
    assert a == key[..|a|] == a'[..|a|];
    assert a' == a + ":" + m;
    assert b == key[|a| + 1..];
    assert key == (a + ":" + m) + ":" + b';
    assert b == m + ":" + b';
  }

  /** No two pairs collide if first names, or else second names, are free of colons. */
  lemma KeysAgree(a: string, b: string, a': string, b': string)
    requires (':' !in a && ':' !in a') || (':' !in b && ':' !in b')
    ensures KeyOf(a, b) == KeyOf(a', b') <==> a == a' && b == b'
  {
    KeysEqualIff(a, b, a', b');
    NoOverlap(a, b, a', b');
    NoOverlap(a', b', a, b);
  }

  lemma NoOverlap(a: string, b: string, a': string, b': string)
    requires ':' !in a' || ':' !in b
    ensures !Overlap(a, b, a', b')
  {
    forall m ensures !(a' == a + ":" + m && b == m + ":" + b') {
      assert (a + ":" + m)[|a|] == ':' && (m + ":" + b')[|m|] == ':';
    }
  }

  lemma KeysCollide()
    ensures KeyOf("yard:east", "cat") == KeyOf("yard", "east:cat")
  {
    assert KeyOf("yard:east", "cat") == "yard:east:cat";
    assert KeyOf("yard", "east:cat") == "yard:east:cat";
  }
}
