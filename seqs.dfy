/** Generic sequence helpers standing in for Python built-ins (`list.remove`, `next(...)`, list
    filtering) and for the left-to-right scans of the route handlers. */
module Seqs {

  /** The index of the first element satisfying `p`, or `|s|` when there is none. */
  function FirstWhere<T>(s: seq<T>, p: T -> bool): (m: nat)
    ensures m <= |s|
  {
    if s == [] then 0
    else if p(s[0]) then 0
    else 1 + FirstWhere(s[1..], p)
  }

  /** `FirstWhere` finds a satisfying element, and no earlier element satisfies `p`. */
  lemma {:induction false} FirstWhereFinds<T>(s: seq<T>, p: T -> bool)
    ensures FirstWhere(s, p) < |s| ==> p(s[FirstWhere(s, p)])
    ensures forall k :: 0 <= k < FirstWhere(s, p) ==> !p(s[k])
  {
    if s != [] && !p(s[0]) {
      FirstWhereFinds(s[1..], p);
      forall k | 1 <= k < FirstWhere(s, p) ensures !p(s[k]) {
        assert s[k] == s[1..][k - 1];
      }
    }
  }

  /** An index at which `p` holds for the first time is the one `FirstWhere` returns. */
  lemma FirstWhereIs<T>(s: seq<T>, p: T -> bool, i: nat)
    requires i <= |s| && (i < |s| ==> p(s[i]))
    requires forall k :: 0 <= k < i ==> !p(s[k])
    ensures FirstWhere(s, p) == i
  {
    FirstWhereFinds(s, p);
  }

  /** Adjacent slices join up. */
  lemma SliceJoin<T>(s: seq<T>, x: nat, y: nat, z: nat)
    requires x <= y <= z <= |s|
    ensures s[x..z] == s[x..y] + s[y..z]
  {
  }

  /** A slice equal to a concatenation splits into slices equal to its parts. */
  lemma SliceSplit<T>(s: seq<T>, x: nat, a: seq<T>, b: seq<T>)
    requires x + |a| + |b| <= |s| && s[x..x + |a| + |b|] == a + b
    ensures s[x..x + |a|] == a && s[x + |a|..x + |a| + |b|] == b
  {
    var t := s[x..x + |a| + |b|];
    assert s[x..x + |a|] == t[..|a|];
    assert s[x + |a|..x + |a| + |b|] == t[|a|..];
  }

  /** The elements of `s` that satisfy `p`, in their original order. */
  function Filter<T>(s: seq<T>, p: T -> bool): (r: seq<T>)
    ensures |r| <= |s|
  {
    if s == [] then []
    else Filter(s[..|s| - 1], p) + (if p(s[|s| - 1]) then [s[|s| - 1]] else [])
  }

  /** `Filter` keeps only elements of `s`, and only ones satisfying `p`. */
  lemma {:induction false} FilterKeeps<T>(s: seq<T>, p: T -> bool)
    ensures forall x :: x in Filter(s, p) ==> x in s && p(x)
  {
    if s != [] {
      FilterKeeps(s[..|s| - 1], p);
    }
  }

  /** Once a prefix holds a match, appending more elements does not move the first match. */
  lemma FirstWhereInPrefix<T>(a: seq<T>, b: seq<T>, p: T -> bool)
    requires FirstWhere(a, p) < |a|
    ensures FirstWhere(a + b, p) == FirstWhere(a, p)
  {
    FirstWhereFinds(a, p);
    var m := FirstWhere(a, p);
    assert forall k :: 0 <= k <= m ==> (a + b)[k] == a[k];
    FirstWhereIs(a + b, p, m);
  }

  /** A prefix without a match shifts the first match of the rest by its length. */
  lemma FirstWhereAfterPrefix<T>(a: seq<T>, b: seq<T>, p: T -> bool)
    requires FirstWhere(a, p) == |a|
    ensures FirstWhere(a + b, p) == |a| + FirstWhere(b, p)
  {
    FirstWhereFinds(a, p);
    FirstWhereFinds(b, p);
    var m := FirstWhere(b, p);
    assert forall k :: 0 <= k < |a| ==> (a + b)[k] == a[k];
    assert forall k :: 0 <= k < m ==> (a + b)[|a| + k] == b[k];
    forall k | 0 <= k < |a| + m ensures !p((a + b)[k]) {
      if k >= |a| {
        assert (a + b)[k] == b[k - |a|];
      }
    }
    if m < |b| {
      assert (a + b)[|a| + m] == b[m];
    }
    FirstWhereIs(a + b, p, |a| + m);
  }

  /** The elements after the first one satisfying `open`, up to (not including) the first later one
      satisfying `close`; empty when no element satisfies `open`. */
  function Section<T>(s: seq<T>, open: T -> bool, close: T -> bool): seq<T>
  {
    var m := FirstWhere(s, open);
    if m == |s| then []
    else
      var rest := s[m + 1..];
      rest[..FirstWhere(rest, close)]
  }

  /** Every element of the section comes after the first opening element and does not close it. */
  lemma SectionElements<T>(s: seq<T>, open: T -> bool, close: T -> bool)
    ensures Section(s, open, close) != [] ==> FirstWhere(s, open) < |s|
    ensures forall x :: x in Section(s, open, close) ==>
      !close(x) && x in s[FirstWhere(s, open) + 1..]
  {
    var m := FirstWhere(s, open);
    if m < |s| {
      var rest := s[m + 1..];
      FirstWhereFinds(rest, close);
      var b := FirstWhere(rest, close);
      forall x | x in rest[..b] ensures !close(x) && x in rest {
        var k :| 0 <= k < b && rest[..b][k] == x;
        assert rest[k] == x;
      }
    }
  }

  /** A prefix holding no opening element does not change the section. */
  lemma SectionIgnoresPrefix<T>(prefix: seq<T>, s: seq<T>, open: T -> bool, close: T -> bool)
    requires forall k :: 0 <= k < |prefix| ==> !open(prefix[k])
    ensures Section(prefix + s, open, close) == Section(s, open, close)
  {
    FirstWhereIs(prefix, open, |prefix|);
    FirstWhereAfterPrefix(prefix, s, open);
    var m := FirstWhere(s, open);
    if m < |s| {
      DropPastPrefix(prefix, s, m + 1);
    }
  }

  lemma DropPastPrefix<T>(prefix: seq<T>, s: seq<T>, i: nat)
    requires i <= |s|
    ensures (prefix + s)[|prefix| + i..] == s[i..]
  {
  }

  /** Once a closing element follows the opening one, appending elements does not change the section. */
  lemma SectionIgnoresSuffix<T>(s: seq<T>, more: seq<T>, open: T -> bool, close: T -> bool, j: nat)
    requires FirstWhere(s, open) < j < |s| && close(s[j])
    ensures Section(s + more, open, close) == Section(s, open, close)
  {
    var m := FirstWhere(s, open);
    FirstWhereInPrefix(s, more, open);
    DropOfAppend(s, more, m + 1);
    PrefixUpToFirst(s[m + 1..], more, close, j - m - 1);
  }

  lemma DropOfAppend<T>(s: seq<T>, more: seq<T>, i: nat)
    requires i <= |s|
    ensures (s + more)[i..] == s[i..] + more
  {
  }

  /** The elements before the first match are the same in `s` and in `s + more` once `s` holds a match. */
  lemma PrefixUpToFirst<T>(s: seq<T>, more: seq<T>, p: T -> bool, i: nat)
    requires i < |s| && p(s[i])
    ensures var b := FirstWhere(s + more, p); b <= |s| && (s + more)[..b] == s[..FirstWhere(s, p)]
  {
    FirstWhereFinds(s, p);
    FirstWhereInPrefix(s, more, p);
  }

  /** The state of a left-to-right scan that has looked at `s[..i]`, is `inSection` once it met an
      opening element, and has collected in `acc` the elements of the section seen so far. */
  ghost predicate ScanState<T>(s: seq<T>, open: T -> bool, close: T -> bool, keep: T -> bool,
                               i: nat, inSection: bool, acc: seq<T>)
  {
    var m := FirstWhere(s, open);
    i <= |s| &&
    (inSection <==> m < i) &&
    (!inSection ==> acc == []) &&
    (inSection ==> (forall k :: m < k < i ==> !close(s[k])) && acc == Filter(s[m + 1..i], keep))
  }

  lemma ScanStart<T>(s: seq<T>, open: T -> bool, close: T -> bool, keep: T -> bool)
    ensures ScanState(s, open, close, keep, 0, false, [])
  {
  }

  /** Before the section, an element that does not open it is skipped. */
  lemma ScanSkip<T>(s: seq<T>, open: T -> bool, close: T -> bool, keep: T -> bool, i: nat)
    requires i < |s| && ScanState(s, open, close, keep, i, false, []) && !open(s[i])
    ensures ScanState(s, open, close, keep, i + 1, false, [])
  {
    FirstWhereFinds(s, open);
  }

  /** An opening element switches the scan on (or keeps it on) and is not collected. */
  lemma ScanOpen<T>(s: seq<T>, open: T -> bool, close: T -> bool, keep: T -> bool,
                    i: nat, inSection: bool, acc: seq<T>)
    requires i < |s| && ScanState(s, open, close, keep, i, inSection, acc)
    requires open(s[i]) && !close(s[i]) && !keep(s[i])
    ensures ScanState(s, open, close, keep, i + 1, true, acc)
  {
    var m := FirstWhere(s, open);
    if inSection {
      assert s[m + 1..i + 1][..i - m - 1] == s[m + 1..i];
    } else {
      FirstWhereFinds(s, open);
      FirstWhereIs(s, open, i);
      assert s[m + 1..i + 1] == [];
    }
  }

  /** Inside the section, an element that neither opens nor closes it is collected. */
  lemma ScanCollect<T>(s: seq<T>, open: T -> bool, close: T -> bool, keep: T -> bool,
                       i: nat, acc: seq<T>)
    requires i < |s| && ScanState(s, open, close, keep, i, true, acc)
    requires !close(s[i]) && keep(s[i])
    ensures ScanState(s, open, close, keep, i + 1, true, acc + [s[i]])
  {
    var m := FirstWhere(s, open);
    assert s[m + 1..i + 1][..i - m - 1] == s[m + 1..i];
  }

  /** Inside the section, a closing element ends the scan with exactly the section collected. */
  lemma ScanClose<T>(s: seq<T>, open: T -> bool, close: T -> bool, keep: T -> bool,
                     i: nat, acc: seq<T>)
    requires i < |s| && ScanState(s, open, close, keep, i, true, acc) && close(s[i])
    ensures acc == Filter(Section(s, open, close), keep)
  {
    var m := FirstWhere(s, open);
    var rest := s[m + 1..];
    FirstWhereIs(rest, close, i - m - 1);
    assert rest[..i - m - 1] == s[m + 1..i];
  }

  /** A scan that reaches the end has collected exactly the section. */
  lemma ScanEnd<T>(s: seq<T>, open: T -> bool, close: T -> bool, keep: T -> bool,
                   inSection: bool, acc: seq<T>)
    requires ScanState(s, open, close, keep, |s|, inSection, acc)
    ensures acc == Filter(Section(s, open, close), keep)
  {
    var m := FirstWhere(s, open);
    if inSection {
      var rest := s[m + 1..];
      FirstWhereIs(rest, close, |rest|);
      assert rest[..|rest|] == s[m + 1..|s|];
    }
  }

  /** Python's `list.remove(x)` guarded by `x in list`: drops the first occurrence of `x`, if any. */
  function RemoveFirst<T(==)>(s: seq<T>, x: T): seq<T>
  {
    if s == [] then []
    else if s[0] == x then s[1..]
    else [s[0]] + RemoveFirst(s[1..], x)
  }

  /** Removing an element that does not occur is a no-op. */
  lemma {:induction false} RemoveFirstAbsent<T>(s: seq<T>, x: T)
    requires x !in s
    ensures RemoveFirst(s, x) == s
  {
    if s != [] {
      assert x !in s[1..];
      RemoveFirstAbsent(s[1..], x);
    }
  }

  /** When `x` first occurs at index `i`, exactly that element is dropped and the rest keep their order. */
  lemma {:induction false} RemoveFirstAt<T>(s: seq<T>, x: T, i: nat)
    requires i < |s| && s[i] == x
    requires forall k :: 0 <= k < i ==> s[k] != x
    ensures RemoveFirst(s, x) == s[..i] + s[i + 1..]
  {
    if i > 0 {
      RemoveFirstAt(s[1..], x, i - 1);
      assert s[..i] == [s[0]] + s[1..][..i - 1];
      assert s[i + 1..] == s[1..][i..];
    }
  }

  /** `RemoveFirst` takes one copy of `x` out of the multiset of elements, and nothing else. */
  lemma {:induction false} RemoveFirstMultiset<T>(s: seq<T>, x: T)
    ensures multiset(RemoveFirst(s, x)) == multiset(s) - multiset{x}
  {
    if s != [] {
      assert s == [s[0]] + s[1..];
      RemoveFirstMultiset(s[1..], x);
    }
  }

  /** No element occurs twice. */
  predicate NoDuplicates<T(==)>(s: seq<T>)
  {
    forall i, j :: 0 <= i < j < |s| ==> s[i] != s[j]
  }

  /** In a sequence without duplicates, `RemoveFirst` drops exactly the element `x` and keeps the
      sequence free of duplicates. */
  lemma {:induction false} RemoveFirstNoDuplicates<T>(s: seq<T>, x: T)
    requires NoDuplicates(s)
    ensures NoDuplicates(RemoveFirst(s, x))
    ensures forall y :: y in RemoveFirst(s, x) <==> y in s && y != x
  {
    if s != [] {
      var rest := s[1..];
      assert NoDuplicates(rest) by {
        forall i, j | 0 <= i < j < |rest| ensures rest[i] != rest[j] {
          assert rest[i] == s[i + 1] && rest[j] == s[j + 1];
        }
      }
      assert s[0] !in rest by {
        forall j | 0 <= j < |rest| ensures rest[j] != s[0] {
          assert rest[j] == s[j + 1];
        }
      }
      assert s == [s[0]] + rest;
      if s[0] != x {
        RemoveFirstNoDuplicates(rest, x);
        var r := RemoveFirst(rest, x);
        assert RemoveFirst(s, x) == [s[0]] + r;
        forall i, j | 0 <= i < j < |[s[0]] + r| ensures ([s[0]] + r)[i] != ([s[0]] + r)[j] {
          if i == 0 {
            assert ([s[0]] + r)[j] == r[j - 1];
            assert r[j - 1] in r;
          } else {
            assert ([s[0]] + r)[i] == r[i - 1] && ([s[0]] + r)[j] == r[j - 1];
          }
        }
      }
    }
  }
}
