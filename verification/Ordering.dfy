/** Lists of strings in the order of Go's sort.Strings: strictly sorted lists stand for sets. */
module Ordering {

  predicate Less(a: string, b: string) {
    if b == [] then false
    else if a == [] then true
    else if a[0] != b[0] then a[0] < b[0]
    else Less(a[1..], b[1..])
  }

  /** `a` and `b` agree on their first k characters, and there `a` ends or has the smaller one. */
  predicate DecidedAt(a: string, b: string, k: int) {
    0 <= k <= |a| && k < |b| && a[..k] == b[..k] && (k == |a| || a[k] < b[k])
  }

  /** The order is decided at the first difference, and a proper prefix comes first. */
  lemma {:induction false} LessByFirstDifference(a: string, b: string)
    ensures Less(a, b) <==> exists k :: DecidedAt(a, b, k)
  {
    if a == [] || b == [] || a[0] != b[0] {
      assert Less(a, b) ==> DecidedAt(a, b, 0);
    } else {
      LessByFirstDifference(a[1..], b[1..]);
      if Less(a, b) {
        var k :| DecidedAt(a[1..], b[1..], k);
        assert a[..k + 1] == [a[0]] + a[1..][..k] && b[..k + 1] == [b[0]] + b[1..][..k];
        assert DecidedAt(a, b, k + 1);
      }
      forall k | DecidedAt(a, b, k) ensures Less(a, b) {
        assert k > 0;
        assert a[1..][..k - 1] == a[..k][1..] && b[1..][..k - 1] == b[..k][1..];
        assert DecidedAt(a[1..], b[1..], k - 1);
      }
    }
  }

  lemma {:induction false} LessTransitive(a: string, b: string, c: string)
    requires Less(a, b) && Less(b, c)
    ensures Less(a, c)
  {
    if a != [] && a[0] == b[0] == c[0] {
      LessTransitive(a[1..], b[1..], c[1..]);
    }
  }

  lemma {:induction false} LessIrreflexive(a: string)
    ensures !Less(a, a)
  {
    if a == [] {
    } else {
      LessIrreflexive(a[1..]);
    }
  }

  lemma {:induction false} LessTotal(a: string, b: string)
    ensures Less(a, b) || a == b || Less(b, a)
  {
    if a != [] && b != [] && a[0] == b[0] {
      LessTotal(a[1..], b[1..]);
      if a[1..] == b[1..] {
        assert a == [a[0]] + a[1..];
        assert b == [b[0]] + b[1..];
      }
    }
  }

  ghost predicate StrictlySorted(l: seq<string>) {
    forall i, j | 0 <= i < j < |l| :: Less(l[i], l[j])
  }

  ghost predicate NoDuplicates(l: seq<string>) {
    forall i, j | 0 <= i < j < |l| :: l[i] != l[j]
  }

  ghost function Elements(l: seq<string>): set<string> {
    set e | e in l
  }

  lemma ElementsConcat(a: seq<string>, b: seq<string>)
    ensures Elements(a + b) == Elements(a) + Elements(b)
  {
  }

  lemma AppendFresh(l: seq<string>, x: string)
    requires NoDuplicates(l) && x !in Elements(l)
    ensures NoDuplicates(l + [x]) && Elements(l + [x]) == Elements(l) + {x}
  {
    assert forall e :: e in l <==> e in Elements(l);
  }

  /** Two strictly sorted lists with the same elements are the same list. */
  lemma {:induction false} SortedUnique(a: seq<string>, b: seq<string>)
    requires StrictlySorted(a) && StrictlySorted(b) && Elements(a) == Elements(b)
    ensures a == b
  {
    if a == [] {
      assert forall i | 0 <= i < |b| :: b[i] in Elements(b);
    } else {
      assert a[0] in Elements(a);
      SameHead(a, b);
      TailElements(a);
      TailElements(b);
      SortedUnique(a[1..], b[1..]);
      assert a == [a[0]] + a[1..] && b == [b[0]] + b[1..];
    }
  }

  lemma {:induction false} SameHead(a: seq<string>, b: seq<string>)
    requires StrictlySorted(a) && StrictlySorted(b) && Elements(a) == Elements(b) && a != []
    ensures b != [] && a[0] == b[0]
  {
    assert a[0] in Elements(b);
    var i :| 0 <= i < |b| && b[i] == a[0];
    assert b[0] in Elements(a);
    var j :| 0 <= j < |a| && a[j] == b[0];
    if i > 0 && j > 0 {
      LessTransitive(a[0], b[0], a[0]);
      LessIrreflexive(a[0]);
    }
  }

  lemma {:induction false} TailElements(a: seq<string>)
    requires StrictlySorted(a) && a != []
    ensures StrictlySorted(a[1..]) && Elements(a[1..]) == Elements(a) - {a[0]}
  {
    LessIrreflexive(a[0]);
    forall e | e in Elements(a) - {a[0]} ensures e in a[1..] {
      var i :| 0 <= i < |a| && a[i] == e;
      assert a[1..][i - 1] == e;
    }
    assert forall i | 0 <= i < |a| - 1 :: a[1..][i] == a[i + 1] && Less(a[0], a[i + 1]);
  }

  lemma SortedHasNoDuplicates(l: seq<string>)
    requires StrictlySorted(l)
    ensures NoDuplicates(l)
  {
    forall i, j | 0 <= i < j < |l| ensures l[i] != l[j] {
      LessIrreflexive(l[i]);
    }
  }

  /** Puts `x` before the first element that is not smaller. */
  function Insert(x: string, l: seq<string>): seq<string> {
    if l == [] || !Less(l[0], x) then [x] + l
    else [l[0]] + Insert(x, l[1..])
  }

  lemma {:induction false} InsertElements(x: string, l: seq<string>)
    ensures Elements(Insert(x, l)) == Elements(l) + {x}
  {
    if l != [] && Less(l[0], x) {
      InsertElements(x, l[1..]);
      assert l == [l[0]] + l[1..];
      assert Elements(l) == {l[0]} + Elements(l[1..]);
      var r := Insert(x, l[1..]);
      assert Elements([l[0]] + r) == {l[0]} + Elements(r);
    }
  }

  lemma {:induction false} InsertSorted(x: string, l: seq<string>)
    requires StrictlySorted(l) && x !in l
    ensures StrictlySorted(Insert(x, l))
  {
    if l == [] {
    } else {
      if Less(l[0], x) {
        InsertSorted(x, l[1..]);
        InsertElements(x, l[1..]);
        var r := Insert(x, l[1..]);
        forall i | 0 <= i < |r| ensures Less(l[0], r[i]) {
          assert r[i] in Elements(r);
          if r[i] != x {
            var k :| 0 <= k < |l[1..]| && l[1..][k] == r[i];
            assert Less(l[0], l[k + 1]);
          }
        }
      } else {
        LessTotal(l[0], x);
        forall i | 0 <= i < |l| ensures Less(x, l[i]) {
          if i > 0 { LessTransitive(x, l[0], l[i]); }
        }
      }
    }
  }

  /** What sort.Strings returns. */
  function SortStrings(l: seq<string>): seq<string> {
    if l == [] then [] else Insert(l[0], SortStrings(l[1..]))
  }

  /** Sorting a list without duplicates gives the strictly sorted list of its elements. */
  lemma {:induction false} SortStringsSorts(l: seq<string>)
    requires NoDuplicates(l)
    ensures StrictlySorted(SortStrings(l)) && Elements(SortStrings(l)) == Elements(l)
  {
    if l == [] {
    } else {
      SortStringsSorts(l[1..]);
      InsertElements(l[0], SortStrings(l[1..]));
      assert forall e :: e in SortStrings(l[1..]) <==> e in Elements(l[1..]);
      assert forall k | 0 <= k < |l| - 1 :: l[1..][k] == l[k + 1] != l[0];
      InsertSorted(l[0], SortStrings(l[1..]));
      assert l == [l[0]] + l[1..];
    }
  }

  lemma {:induction false} EveryFiniteSetIsListed(s: set<string>)
    ensures exists l: seq<string> :: StrictlySorted(l) && Elements(l) == s
  {
    if s == {} {
      assert StrictlySorted([]) && Elements([]) == s;
    } else {
      var x :| x in s;
      EveryFiniteSetIsListed(s - {x});
      var rest: seq<string> :| StrictlySorted(rest) && Elements(rest) == s - {x};
      assert forall e :: e in rest <==> e in Elements(rest);
      InsertSorted(x, rest);
      InsertElements(x, rest);
      assert Elements(Insert(x, rest)) == s;
    }
  }

  /** The strictly sorted list of a set: by `SortedUnique` there is exactly one. */
  ghost function SortedList(s: set<string>): (l: seq<string>)
    ensures StrictlySorted(l) && Elements(l) == s
  {
    EveryFiniteSetIsListed(s);
    var l: seq<string> :| StrictlySorted(l) && Elements(l) == s;
    l
  }

  /** However a map iteration enumerates a set, sorting the enumeration gives the same list. */
  lemma {:induction false} EnumerationOrderIsIrrelevant(enumeration: seq<string>, s: set<string>)
    requires NoDuplicates(enumeration) && Elements(enumeration) == s
    ensures SortStrings(enumeration) == SortedList(s)
  {
    SortStringsSorts(enumeration);
    SortedUnique(SortStrings(enumeration), SortedList(s));
  }
}
