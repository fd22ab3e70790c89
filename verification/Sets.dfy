/** Finite sets, and the elements of lists. */
module Sets {

  function Members<T>(s: seq<T>): set<T> {
    if s == [] then {} else {s[0]} + Members(s[1..])
  }

  /** No element occurs twice. */
  predicate Distinct<T(==)>(s: seq<T>) {
    s == [] || (s[0] !in Members(s[1..]) && Distinct(s[1..]))
  }

  lemma {:induction false} MembersSize<T>(s: seq<T>)
    requires Distinct(s)
    ensures |Members(s)| == |s|
  {
    if s != [] { MembersSize(s[1..]); }
  }

  lemma SubsetSize<T>(a: set<T>, b: set<T>)
    requires a <= b
    ensures |a| <= |b|
  {
    if a != {} {
      var x :| x in a;
      SubsetSize(a - {x}, b - {x});
    }
  }
}
