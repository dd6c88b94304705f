/** The order Go gives to strings of ASCII characters, used to break ties between ids. */
module Order {

  predicate Less(a: string, b: string) {
    if b == "" then false
    else if a == "" then true
    else if a[0] != b[0] then a[0] < b[0]
    else Less(a[1..], b[1..])
  }

  lemma {:induction false} LessIrreflexive(a: string)
    ensures !Less(a, a)
  {
    if a != "" { LessIrreflexive(a[1..]); }
  }

  lemma {:induction false} LessTransitive(a: string, b: string, c: string)
    requires Less(a, b) && Less(b, c)
    ensures Less(a, c)
  {
    if a != "" && a[0] == b[0] && b[0] == c[0] { LessTransitive(a[1..], b[1..], c[1..]); }
  }

  lemma {:induction false} LessTotal(a: string, b: string)
    requires a != b
    ensures Less(a, b) || Less(b, a)
  {
    if a != "" && b != "" && a[0] == b[0] {
      assert a == [a[0]] + a[1..] && b == [b[0]] + b[1..];
      LessTotal(a[1..], b[1..]);
    }
  }

  /** The least element of a non-empty set of ids. */
  predicate IsLowest(s: set<string>, m: string) {
    m in s && forall k | k in s :: k == m || Less(m, k)
  }

  lemma LowestUnique(s: set<string>, m: string, n: string)
    requires IsLowest(s, m) && IsLowest(s, n)
    ensures m == n
  {
    if m != n {
      LessTransitive(m, n, m);
      LessIrreflexive(m);
    }
  }

  ghost function Lowest(s: set<string>): (m: string)
    requires s != {}
    ensures IsLowest(s, m)
  {
    LowestExists(s);
    var m :| IsLowest(s, m);
    m
  }

  lemma {:induction false} LowestExists(s: set<string>)
    requires s != {}
    ensures exists m :: IsLowest(s, m)
    decreases |s|
  {
    var x :| x in s;
    if s == {x} {
      assert IsLowest(s, x);
    } else {
      var rest := s - {x};
      assert rest == {} ==> s == {x};
      LowestExists(rest);
      var m :| IsLowest(rest, m);
      LessTotal(x, m);
      if Less(x, m) {
        forall k | k in s ensures k == x || Less(x, k) {
          if k != x && k != m { LessTransitive(x, m, k); }
        }
        assert IsLowest(s, x);
      } else {
        assert IsLowest(s, m);
      }
    }
  }
}
