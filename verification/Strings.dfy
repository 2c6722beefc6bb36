// The string operations patch relies on: joining with a separator and sorting.

module Strings {
  // Lexicographic order on characters.
  predicate LessEq(a: string, b: string) {
    if a == "" then true
    else if b == "" then false
    else a[0] < b[0] || (a[0] == b[0] && LessEq(a[1..], b[1..]))
  }

  lemma {:induction false} LessEqTotal(a: string, b: string)
    ensures LessEq(a, b) || LessEq(b, a)
    ensures LessEq(a, b) && LessEq(b, a) ==> a == b
  {
    if a != "" && b != "" {
      LessEqTotal(a[1..], b[1..]);
      assert a == [a[0]] + a[1..] && b == [b[0]] + b[1..];
    }
  }

  // It is the order of dictionaries: the first character that differs decides, and without one
  // the shorter string comes first.
  lemma {:induction false} LessEqDecides(a: string, b: string, i: nat)
    requires i <= |a| && i <= |b| && a[..i] == b[..i]
    ensures i == |a| ==> LessEq(a, b)
    ensures i < |a| && i == |b| ==> !LessEq(a, b)
    ensures i < |a| && i < |b| && a[i] != b[i] ==> (LessEq(a, b) <==> a[i] < b[i])
    decreases i
  {
    if i > 0 {
      assert a[..i][0] == b[..i][0];
      assert a[1..][..i - 1] == a[..i][1..] == b[..i][1..] == b[1..][..i - 1];
      LessEqDecides(a[1..], b[1..], i - 1);
    }
  }

  lemma {:induction false} LessEqTransitive(a: string, b: string, c: string)
    requires LessEq(a, b) && LessEq(b, c)
    ensures LessEq(a, c)
  {
    if a != "" && b != "" && c != "" && a[0] == b[0] == c[0] {
      LessEqTransitive(a[1..], b[1..], c[1..]);
    }
  }

  // Neighbours are in order.
  predicate Sorted(s: seq<string>) {
    |s| < 2 || (LessEq(s[0], s[1]) && Sorted(s[1..]))
  }

  function Insert(x: string, s: seq<string>): seq<string> {
    if s == [] then [x]
    else if LessEq(x, s[0]) then [x] + s
    else [s[0]] + Insert(x, s[1..])
  }

  function Sort(s: seq<string>): seq<string> {
    if s == [] then [] else Insert(s[0], Sort(s[1..]))
  }

  lemma {:induction false} InsertSorted(x: string, s: seq<string>)
    requires Sorted(s)
    ensures Sorted(Insert(x, s))
    ensures Insert(x, s)[0] == x || (s != [] && Insert(x, s)[0] == s[0])
  {
    hide LessEq;
    if s != [] {
      LessEqTotal(x, s[0]);
      if LessEq(x, s[0]) {
        assert ([x] + s)[1..] == s;
      } else {
        InsertSorted(x, s[1..]);
        assert Insert(x, s)[1..] == Insert(x, s[1..]);
      }
    }
  }

  lemma {:induction false} InsertCounts(x: string, s: seq<string>)
    ensures multiset(Insert(x, s)) == multiset{x} + multiset(s)
  {
    hide LessEq;
    if s != [] {
      InsertCounts(x, s[1..]);
      assert s == [s[0]] + s[1..];
    }
  }

  lemma {:induction false} SortSorts(s: seq<string>)
    ensures Sorted(Sort(s)) && multiset(Sort(s)) == multiset(s)
  {
    if s != [] {
      assert s == [s[0]] + s[1..];
      SortSorts(s[1..]);
      InsertSorted(s[0], Sort(s[1..]));
      InsertCounts(s[0], Sort(s[1..]));
    }
  }

  lemma {:induction false} HeadIsLeast(s: seq<string>, x: string)
    requires Sorted(s) && x in s
    ensures LessEq(s[0], x)
  {
    hide LessEq;
    LessEqTotal(x, x);
    if x != s[0] {
      assert s == [s[0]] + s[1..];
      HeadIsLeast(s[1..], x);
      LessEqTransitive(s[0], s[1], x);
    }
  }

  // A sorted list is determined by its members.
  lemma {:induction false} SortedUnique(s: seq<string>, t: seq<string>)
    requires Sorted(s) && Sorted(t) && multiset(s) == multiset(t)
    ensures s == t
    decreases |s|
  {
    hide LessEq;
    assert |s| == |multiset(s)| == |multiset(t)| == |t|;
    if s != [] {
      var x := s[0];
      assert x in multiset(t) && t[0] in multiset(s);
      HeadIsLeast(s, t[0]);
      HeadIsLeast(t, s[0]);
      LessEqTotal(s[0], t[0]);
      assert s == [x] + s[1..] && t == [x] + t[1..];
      assert multiset(s[1..]) == multiset(s) - multiset{x} == multiset(t[1..]);
      SortedUnique(s[1..], t[1..]);
    }
  }

  // Sorting leaves a list alone exactly when it was sorted already.
  lemma {:induction false} SortFixes(s: seq<string>)
    ensures Sort(s) == s <==> Sorted(s)
  {
    SortSorts(s);
    if s != [] && Sorted(s) {
      SortFixes(s[1..]);
      assert s == [s[0]] + s[1..];
    }
  }

  function Join(s: seq<string>, sep: char): string {
    if s == [] then ""
    else if |s| == 1 then s[0]
    else s[0] + [sep] + Join(s[1..], sep)
  }

  // A domain name: it is not empty and does not hold the separator.
  predicate Domain(d: string, sep: char) {
    d != "" && sep !in d
  }

  predicate Domains(s: seq<string>, sep: char) {
    forall i :: 0 <= i < |s| ==> Domain(s[i], sep)
  }

  // Where the first separator sits in a joined list.
  lemma JoinHead(s: seq<string>, sep: char)
    requires s != [] && Domains(s, sep)
    ensures s[0] <= Join(s, sep)
    ensures forall i :: 0 <= i < |s[0]| ==> Join(s, sep)[i] != sep
    ensures if |s| == 1 then Join(s, sep) == s[0] else |s[0]| < |Join(s, sep)| && Join(s, sep)[|s[0]|] == sep
  {
    assert Domain(s[0], sep);
  }

  // Joined lists of domain names are equal only if the lists are.
  lemma {:induction false} JoinInjective(a: seq<string>, b: seq<string>, sep: char)
    requires Domains(a, sep) && Domains(b, sep)
    requires Join(a, sep) == Join(b, sep)
    ensures a == b
    decreases |a|
  {
    if a == [] || b == [] {
      if a != [] {
        JoinHead(a, sep);
      }
      if b != [] {
        JoinHead(b, sep);
      }
    } else {
      JoinHead(a, sep);
      JoinHead(b, sep);
      var j := Join(a, sep);
      assert |a[0]| == |b[0]|;
      assert a[0] == j[..|a[0]|] == b[0];
      if |a| > 1 && |b| > 1 {
        assert Join(a[1..], sep) == j[|a[0]| + 1..] == Join(b[1..], sep);
        JoinInjective(a[1..], b[1..], sep);
      }
      assert a == [a[0]] + a[1..] && b == [b[0]] + b[1..];
    }
  }
}
