/** `Array.prototype.filter`, the one array primitive the components rely on. */
module Arrays {

  /** `s.filter(keep)`: the elements `keep` accepts, in their original order. */
  function Filter<T>(keep: T -> bool, s: seq<T>): (r: seq<T>)
    ensures |r| <= |s|
    ensures forall i :: 0 <= i < |r| ==> r[i] in s && keep(r[i])
    ensures forall i :: 0 <= i < |s| && keep(s[i]) ==> s[i] in r
  {
    if s == [] then []
    else if keep(s[0]) then [s[0]] + Filter(keep, s[1..])
    else Filter(keep, s[1..])
  }

  /** Filtering a concatenation filters each part and keeps them in order. */
  lemma {:induction false} FilterAppend<T>(keep: T -> bool, a: seq<T>, b: seq<T>)
    ensures Filter(keep, a + b) == Filter(keep, a) + Filter(keep, b)
  {
    if a != [] {
      var ab := a + b;
      assert ab[0] == a[0] && ab[1..] == a[1..] + b;
      FilterAppend(keep, a[1..], b);
      if keep(a[0]) {
        calc {
          Filter(keep, ab);
          [a[0]] + Filter(keep, a[1..] + b);
          [a[0]] + (Filter(keep, a[1..]) + Filter(keep, b));
          ([a[0]] + Filter(keep, a[1..])) + Filter(keep, b);
        }
      }
    } else {
      assert a + b == b;
    }
  }

  /** A predicate that accepts everything keeps the sequence as it is. */
  lemma {:induction false} FilterKeepsAll<T>(keep: T -> bool, s: seq<T>)
    requires forall i :: 0 <= i < |s| ==> keep(s[i])
    ensures Filter(keep, s) == s
  {
    if s != [] {
      FilterKeepsAll(keep, s[1..]);
    }
  }

  /** A predicate that accepts nothing gives the empty sequence. */
  lemma {:induction false} FilterKeepsNone<T>(keep: T -> bool, s: seq<T>)
    requires forall i :: 0 <= i < |s| ==> !keep(s[i])
    ensures Filter(keep, s) == []
  {
    if s != [] {
      FilterKeepsNone(keep, s[1..]);
    }
  }
}
