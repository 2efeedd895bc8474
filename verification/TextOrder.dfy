/** The byte-wise order of strings, as sorting uses it. */
module TextOrder {

  predicate Leq(a: string, b: string) {
    a == "" || (b != "" && (a[0] < b[0] || (a[0] == b[0] && Leq(a[1..], b[1..]))))
  }

  lemma {:induction false} LeqTotal(a: string, b: string)
    ensures Leq(a, a) && (Leq(a, b) || Leq(b, a))
  {
    if a != "" && b != "" {
      LeqTotal(a[1..], b[1..]);
    } else if a != "" {
      LeqTotal(a[1..], b);
    }
  }

  lemma {:induction false} LeqTrans(a: string, b: string, c: string)
    requires Leq(a, b) && Leq(b, c)
    ensures Leq(a, c)
  {
    if a != "" && b != "" && c != "" && a[0] == b[0] == c[0] {
      LeqTrans(a[1..], b[1..], c[1..]);
    }
  }

  lemma {:induction false} LeqAntisymmetric(a: string, b: string)
    requires Leq(a, b) && Leq(b, a)
    ensures a == b
  {
    if a != "" && b != "" {
      LeqAntisymmetric(a[1..], b[1..]);
      assert a == [a[0]] + a[1..] && b == [b[0]] + b[1..];
    }
  }

  /** Something in a set has a name that comes first. */
  lemma {:induction false} SomeLeast<T>(s: set<T>, name: T -> string) returns (k: T)
    requires s != {}
    ensures k in s && forall x :: x in s ==> Leq(name(k), name(x))
  {
    k :| k in s;
    LeqTotal(name(k), name(k));
    if s != {k} {
      var l := SomeLeast(s - {k}, name);
      LeqTotal(name(k), name(l));
      var m := if Leq(name(k), name(l)) then k else l;
      forall x | x in s ensures Leq(name(m), name(x)) {
        if x != k && m == k {
          LeqTrans(name(k), name(l), name(x));
        }
      }
      k := m;
    }
  }
}
