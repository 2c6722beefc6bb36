// The order users are kept in: the brigadier first, the others by descending ID.

module Order {
  import opened Brigade

  // The comparison handed to sort.Slice. Canonical UUID strings compare like the numbers.
  predicate Before(a: UserInfo, b: UserInfo) {
    a.isBrigadier || (!b.isBrigadier && a.id > b.id)
  }

  ghost predicate Ordered(users: seq<UserRec>) {
    forall i, j :: 0 <= i < j < |users| ==> Before(users[i].info, users[j].info)
  }

  // The comparison is a strict total order on such a list: IDs differ, one brigadier at most.
  ghost predicate Orderable(users: seq<UserRec>) {
    forall i, j :: 0 <= i < j < |users| ==>
      users[i].info.id != users[j].info.id && !(users[i].info.isBrigadier && users[j].info.isBrigadier)
  }

  // Nobody but the first is the brigadier, and the IDs of the others fall.
  lemma OrderedMeans(users: seq<UserRec>, i: nat, j: nat)
    requires Ordered(users) && Orderable(users) && i < j < |users|
    ensures !users[j].info.isBrigadier
    ensures i > 0 || !users[0].info.isBrigadier ==> users[i].info.id > users[j].info.id
  {
    assert Before(users[i].info, users[j].info);
    assert Before(users[0].info, users[j].info);
    assert i > 0 ==> Before(users[0].info, users[i].info);
  }

  function InsertAt<T>(s: seq<T>, p: nat, x: T): seq<T>
    requires p <= |s|
  {
    s[..p] + [x] + s[p..]
  }

  // The list without its i-th element.
  function RemoveAt<T>(s: seq<T>, i: nat): seq<T>
    requires i < |s|
  {
    s[..i] + s[i + 1..]
  }

  lemma InsertAtCounts<T>(s: seq<T>, p: nat, x: T)
    requires p <= |s|
    ensures multiset(InsertAt(s, p, x)) == multiset(s) + multiset{x}
  {
    assert s == s[..p] + s[p..];
  }

  lemma InsertAtOrdered(s: seq<UserRec>, p: nat, x: UserRec)
    requires p <= |s| && Ordered(s) && Orderable(s + [x])
    requires forall i :: 0 <= i < p ==> !Before(x.info, s[i].info)
    requires p < |s| ==> Before(x.info, s[p].info)
    ensures Ordered(InsertAt(s, p, x))
  {
    var r := InsertAt(s, p, x);
    forall i | 0 <= i < |s| ensures Before(s[i].info, x.info) <==> i < p {
      assert (s + [x])[i] == s[i] && (s + [x])[|s|] == x;
    }
    forall i, j | 0 <= i < j < |r| ensures Before(r[i].info, r[j].info) {
      assert r[i] == if i < p then s[i] else if i == p then x else s[i - 1];
      assert r[j] == if j < p then s[j] else if j == p then x else s[j - 1];
    }
  }

  lemma OrderableAgain(a: seq<UserRec>, b: seq<UserRec>)
    requires multiset(a) == multiset(b) && Orderable(a)
    ensures Orderable(b)
  {
    forall i, j | 0 <= i < j < |b|
      ensures b[i].info.id != b[j].info.id && !(b[i].info.isBrigadier && b[j].info.isBrigadier)
    {
      assert b[i] in multiset(b) && b[j] in multiset(b);
      var p :| 0 <= p < |a| && a[p] == b[i];
      var q :| 0 <= q < |a| && a[q] == b[j];
      Twice(b, i, j);
      Once(a, p);
    }
  }

  lemma Twice<T>(b: seq<T>, i: nat, j: nat)
    requires i < j < |b|
    ensures b[i] == b[j] ==> multiset(b)[b[i]] >= 2
  {
    assert b == b[..i] + [b[i]] + b[i+1..j] + [b[j]] + b[j+1..];
  }

  lemma Once(a: seq<UserRec>, p: nat)
    requires Orderable(a) && p < |a|
    ensures multiset(a)[a[p]] == 1
  {
    assert a[p] !in a[..p] && a[p] !in a[p+1..];
    CountsOnce(a, p);
  }

  lemma CountsOnce<T>(a: seq<T>, p: nat)
    requires p < |a| && a[p] !in a[..p] && a[p] !in a[p+1..]
    ensures multiset(a)[a[p]] == 1
  {
    assert a == a[..p] + [a[p]] + a[p+1..];
  }

  lemma OrderablePrefix(s: seq<UserRec>, n: nat)
    requires n <= |s| && Orderable(s)
    ensures Orderable(s[..n])
  {
  }

  lemma FirstComesFirst(a: seq<UserRec>, x: UserRec)
    requires Ordered(a) && x in a
    ensures x == a[0] || Before(a[0].info, x.info)
  {
    var p :| 0 <= p < |a| && a[p] == x;
  }

  lemma SameFirst(a: seq<UserRec>, b: seq<UserRec>)
    requires Ordered(a) && Ordered(b) && Orderable(a) && a != [] && b != []
    requires a[0] in b && b[0] in a
    ensures a[0] == b[0]
  {
    FirstComesFirst(a, b[0]);
    FirstComesFirst(b, a[0]);
    var p :| 0 <= p < |a| && a[p] == b[0];
  }

  // An ordered list is determined by its members, so it does not matter which sorting
  // algorithm produced it.
  lemma {:induction false} OrderedUnique(a: seq<UserRec>, b: seq<UserRec>)
    requires Ordered(a) && Ordered(b) && multiset(a) == multiset(b) && Orderable(a)
    ensures a == b
    decreases |a|
  {
    hide Before, Ordered, Orderable;
    assert |a| == |multiset(a)| == |multiset(b)| == |b|;
    if a != [] {
      assert a[0] in multiset(b) && b[0] in multiset(a);
      SameFirst(a, b);
      Tail(a);
      Tail(b);
      OrderedUnique(a[1..], b[1..]);
      assert a == [a[0]] + a[1..] && b == [b[0]] + b[1..];
    }
  }

  lemma TailCounts<T>(a: seq<T>)
    requires a != []
    ensures multiset(a[1..]) == multiset(a) - multiset{a[0]}
  {
    assert a == [a[0]] + a[1..];
  }

  lemma Tail(a: seq<UserRec>)
    requires a != []
    ensures multiset(a[1..]) == multiset(a) - multiset{a[0]}
    ensures Ordered(a) ==> Ordered(a[1..])
    ensures Orderable(a) ==> Orderable(a[1..])
  {
    hide Before;
    TailCounts(a);
  }

  lemma NothingOrdered()
    ensures Ordered([])
  {
  }

  // One step of an insertion sort.
  lemma InsertStep(all: seq<UserRec>, n: nat, s: seq<UserRec>, p: nat)
    requires n < |all| && multiset(s) == multiset(all[..n]) && p <= |s|
    requires forall i :: 0 <= i < p ==> !Before(all[n].info, s[i].info)
    requires p < |s| ==> Before(all[n].info, s[p].info)
    requires Orderable(all) ==> Ordered(s)
    ensures multiset(InsertAt(s, p, all[n])) == multiset(all[..n + 1])
    ensures Orderable(all) ==> Ordered(InsertAt(s, p, all[n]))
  {
    InsertAtCounts(s, p, all[n]);
    assert all[..n + 1] == all[..n] + [all[n]];
    if Orderable(all) {
      OrderablePrefix(all, n + 1);
      assert multiset(s + [all[n]]) == multiset(all[..n + 1]);
      OrderableAgain(all[..n + 1], s + [all[n]]);
      InsertAtOrdered(s, p, all[n]);
    }
  }

  // The first place whose user comes after u.
  method FindPlace(r: seq<User>, u: User) returns (p: nat)
    ensures p <= |r|
    ensures forall i :: 0 <= i < p ==> !Before(u.info, Recs(r)[i].info)
    ensures p < |r| ==> Before(u.info, Recs(r)[p].info)
  {
    p := 0;
    while p < |r| && !Before(u.info, r[p].info)
      invariant p <= |r|
      invariant forall i :: 0 <= i < p ==> !Before(u.info, r[i].info)
    {
      p := p + 1;
    }
  }

  // Puts the n-th user where it belongs among those before it.
  method InsertUser(users: seq<User>, n: nat, r: seq<User>) returns (r': seq<User>)
    requires n < |users|
    requires multiset(Recs(r)) == multiset(Recs(users)[..n])
    requires Orderable(Recs(users)) ==> Ordered(Recs(r))
    ensures multiset(r') == multiset(r) + multiset{users[n]}
    ensures multiset(Recs(r')) == multiset(Recs(users)[..n + 1])
    ensures Orderable(Recs(users)) ==> Ordered(Recs(r'))
  {
    hide Before, Orderable, Ordered;
    var p := FindPlace(r, users[n]);
    InsertStep(Recs(users), n, Recs(r), p);
    InsertAtCounts(r, p, users[n]);
    r' := InsertAt(r, p, users[n]);
    assert Recs(r') == InsertAt(Recs(r), p, Recs(users)[n]);
  }

  // Sorting user objects in place of sort.Slice. The result is always a permutation; it is
  // ordered when the comparison is an order on the list.
  method SortUsers(users: seq<User>) returns (r: seq<User>)
    ensures multiset(r) == multiset(users)
    ensures multiset(Recs(r)) == multiset(Recs(users))
    ensures Orderable(Recs(users)) ==> Ordered(Recs(r))
  {
    hide Orderable, Ordered;
    r := [];
    NothingOrdered();
    for n := 0 to |users|
      invariant multiset(r) == multiset(users[..n])
      invariant multiset(Recs(r)) == multiset(Recs(users)[..n])
      invariant Orderable(Recs(users)) ==> Ordered(Recs(r))
    {
      assert users[..n + 1] == users[..n] + [users[n]];
      r := InsertUser(users, n, r);
    }
    assert users[..|users|] == users && Recs(users)[..|users|] == Recs(users);
  }
}
