/** sort.Strings, and lists that are the sorted form of a set. */
module Ordering {

  predicate Less(a: string, b: string) {
    b != "" && (a == "" || a[0] < b[0] || (a[0] == b[0] && Less(a[1..], b[1..])))
  }

  lemma {:induction false} LessIsTransitive(a: string, b: string, c: string)
    requires Less(a, b) && Less(b, c)
    ensures Less(a, c)
  {
    if a != "" && a[0] == b[0] == c[0] {
      LessIsTransitive(a[1..], b[1..], c[1..]);
    }
  }

  lemma {:induction false} LessIsTotal(a: string, b: string)
    ensures a != b <==> Less(a, b) || Less(b, a)
    ensures !(Less(a, b) && Less(b, a))
  {
    if a != "" && b != "" && a[0] == b[0] {
      LessIsTotal(a[1..], b[1..]);
      assert a == [a[0]] + a[1..] && b == [b[0]] + b[1..];
    }
  }

  predicate AtMost(a: string, b: string) {
    !Less(b, a)
  }

  predicate Sorted(s: seq<string>) {
    forall i, j :: 0 <= i < j < |s| ==> AtMost(s[i], s[j])
  }

  predicate StrictlySorted(s: seq<string>) {
    forall i, j :: 0 <= i < j < |s| ==> Less(s[i], s[j])
  }

  lemma AtMostIsTransitive(a: string, b: string, c: string)
    requires AtMost(a, b) && AtMost(b, c)
    ensures AtMost(a, c)
  {
    LessIsTotal(a, b);
    LessIsTotal(b, c);
    LessIsTotal(a, c);
    if Less(c, a) && a != b && b != c {
      LessIsTransitive(a, b, c);
    }
  }

  lemma PrependKeepsSorted(x: string, s: seq<string>)
    requires Sorted(s) && (s != [] ==> AtMost(x, s[0]))
    ensures Sorted([x] + s)
  {
    LessIsTotal(x, x);
    forall i | 0 < i < |s| ensures AtMost(x, s[i]) {
      AtMostIsTransitive(x, s[0], s[i]);
    }
  }

  lemma InsertAfterFirst(s: seq<string>, x: string, rest: seq<string>)
    requires Sorted(s) && s != [] && Less(s[0], x) && Sorted(rest)
    requires multiset(rest) == multiset(s[1..]) + multiset{x}
    ensures Sorted([s[0]] + rest) && multiset([s[0]] + rest) == multiset(s) + multiset{x}
  {
    assert s == [s[0]] + s[1..];
    LessIsTotal(s[0], x);
    if rest != [] {
      assert rest[0] in multiset(rest);
      assert rest[0] in s[1..] || rest[0] == x;
    }
    PrependKeepsSorted(s[0], rest);
  }

  function Insert(s: seq<string>, x: string): (r: seq<string>)
    requires Sorted(s)
    ensures Sorted(r) && multiset(r) == multiset(s) + multiset{x}
  {
    if s == [] then [x]
    else if Less(s[0], x) then
      var rest := Insert(s[1..], x);
      InsertAfterFirst(s, x, rest);
      [s[0]] + rest
    else
      PrependKeepsSorted(x, s);
      [x] + s
  }

  /** sort.Strings. */
  function Sort(s: seq<string>): (r: seq<string>)
    ensures Sorted(r) && multiset(r) == multiset(s)
  {
    if s == [] then [] else
      assert s == [s[0]] + s[1..];
      Insert(Sort(s[1..]), s[0])
  }

  lemma FirstIsLeast(a: seq<string>, x: string)
    requires StrictlySorted(a) && x in a
    ensures x == a[0] || Less(a[0], x)
  {
  }

  lemma TailMembers(a: seq<string>, x: string)
    requires StrictlySorted(a) && a != []
    ensures x in a[1..] <==> x in a && x != a[0]
  {
    assert a == [a[0]] + a[1..];
    if x in a[1..] {
      var i :| 0 <= i < |a[1..]| && a[1..][i] == x;
      LessIsTotal(a[0], a[i + 1]);
    }
  }

  lemma EmptyTogether(a: seq<string>, b: seq<string>)
    requires forall x :: x in a <==> x in b
    ensures a == [] <==> b == []
  {
    if a != [] {
      assert a[0] in a;
    }
    if b != [] {
      assert b[0] in b;
    }
  }

  /** A set has one strictly sorted listing. */
  lemma {:induction false} ListingIsUnique(a: seq<string>, b: seq<string>)
    requires StrictlySorted(a) && StrictlySorted(b)
    requires forall x :: x in a <==> x in b
    ensures a == b
  {
    EmptyTogether(a, b);
    if a != [] {
      assert a[0] in b && b[0] in a;
      FirstIsLeast(a, b[0]);
      FirstIsLeast(b, a[0]);
      LessIsTotal(a[0], b[0]);
      forall x ensures x in a[1..] <==> x in b[1..] {
        TailMembers(a, x);
        TailMembers(b, x);
      }
      ListingIsUnique(a[1..], b[1..]);
      assert a == [a[0]] + a[1..] && b == [b[0]] + b[1..];
    }
  }

  lemma SeenTwice(s: seq<string>, i: nat, j: nat)
    requires i < j < |s| && s[i] == s[j]
    ensures multiset(s)[s[j]] >= 2
  {
    assert s == s[..j] + s[j..] && s[..j][i] == s[j] && s[j..][0] == s[j];
    assert s[j] in multiset(s[..j]) && s[j] in multiset(s[j..]);
  }

  /** A sorted list without repetitions is strictly sorted. */
  lemma DistinctIsStrict(s: seq<string>)
    requires Sorted(s) && forall x :: multiset(s)[x] <= 1
    ensures StrictlySorted(s)
  {
    forall i, j | 0 <= i < j < |s| ensures Less(s[i], s[j]) {
      LessIsTotal(s[i], s[j]);
      if !Less(s[i], s[j]) {
        SeenTwice(s, i, j);
      }
    }
  }

  /** Every finite set has a listing. */
  lemma {:induction false} ListingExists(names: set<string>) returns (listed: seq<string>)
    ensures StrictlySorted(listed) && forall x :: x in listed <==> x in names
  {
    if names == {} {
      listed := [];
    } else {
      var name :| name in names;
      var rest := ListingExists(names - {name});
      listed := ListWith(rest, name);
    }
  }

  lemma ListWith(rest: seq<string>, name: string) returns (listed: seq<string>)
    requires StrictlySorted(rest) && name !in rest
    ensures StrictlySorted(listed) && forall x :: x in listed <==> x in rest || x == name
  {
    StrictIsDistinct(rest);
    listed := Insert(rest, name);
    assert multiset(listed) == multiset(rest) + multiset{name};
    assert forall x :: x in listed <==> x in multiset(listed);
    DistinctIsStrict(listed);
  }

  lemma {:induction false} StrictIsDistinct(s: seq<string>)
    requires StrictlySorted(s)
    ensures Sorted(s) && forall x :: multiset(s)[x] <= 1
  {
    forall i, j | 0 <= i < j < |s| ensures AtMost(s[i], s[j]) && s[i] != s[j] {
      LessIsTotal(s[i], s[j]);
    }
    if s != [] {
      var front, last := s[..|s| - 1], s[|s| - 1];
      StrictIsDistinct(front);
      assert s == front + [last] && last !in front;
      assert last !in multiset(front);
    }
  }

  /** Collecting a map's keys in any order and sorting them. */
  method SortedNames(names: set<string>) returns (listed: seq<string>)
    ensures StrictlySorted(listed) && forall x :: x in listed <==> x in names
  {
    var collected: seq<string>, remaining := [], names;
    while remaining != {}
      invariant remaining <= names
      invariant forall x :: multiset(collected)[x] == if x in names && x !in remaining then 1 else 0
      decreases |remaining|
    {
      var name :| name in remaining;
      collected, remaining := collected + [name], remaining - {name};
    }
    listed := Sort(collected);
    assert multiset(listed) == multiset(collected);
    forall x ensures x in listed <==> x in names {
      assert x in listed <==> x in multiset(listed);
    }
    DistinctIsStrict(listed);
  }
}
