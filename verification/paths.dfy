/**
 * Filesystem paths as strings, joined with `/` and compared lexicographically
 * character by character, and the sorted, duplicate-free sequences that an
 * `ImmutableSortedSet<Path>` built in natural order holds.
 */
module Paths {

  type Path = string

  /** `dir.resolve(name)` for a plain relative name: one `/` between the two parts. */
  function Resolve(dir: Path, name: string): (p: Path)
    ensures |p| >= |name| && p[|p| - |name|..] == name
    ensures |p| >= |dir| && p[..|dir|] == dir
    ensures |p| <= |dir| + 1 + |name|
  {
    if dir == [] then name
    else if dir[|dir| - 1] == '/' then dir + name
    else dir + "/" + name
  }

  /** Lexicographic order on paths: the natural ordering of `Path` in this model. */
  predicate Less(a: Path, b: Path)
  {
    if a == [] then b != []
    else b != [] && (a[0] < b[0] || (a[0] == b[0] && Less(a[1..], b[1..])))
  }

  lemma {:induction false} LessIrreflexive(a: Path)
    ensures !Less(a, a)
  {
    if a != [] {
      LessIrreflexive(a[1..]);
    }
  }

  lemma {:induction false} LessTransitive(a: Path, b: Path, c: Path)
    requires Less(a, b) && Less(b, c)
    ensures Less(a, c)
  {
    if a != [] && a[0] == b[0] && b[0] == c[0] {
      LessTransitive(a[1..], b[1..], c[1..]);
    }
  }

  lemma {:induction false} LessTotal(a: Path, b: Path)
    requires a != b
    ensures Less(a, b) || Less(b, a)
  {
    if a != [] && b != [] && a[0] == b[0] {
      assert a == [a[0]] + a[1..] && b == [b[0]] + b[1..];
      LessTotal(a[1..], b[1..]);
    }
  }

  lemma LessAsymmetric(a: Path, b: Path)
    requires Less(a, b)
    ensures !Less(b, a)
  {
    if Less(b, a) {
      LessTransitive(a, b, a);
      LessIrreflexive(a);
    }
  }

  /** Sorted in natural order with no element repeated. */
  predicate StrictlyAscending(s: seq<Path>)
  {
    forall i, j :: 0 <= i < j < |s| ==> Less(s[i], s[j])
  }

  /** Putting a path that precedes every element in front keeps a sequence strictly ascending. */
  lemma PrependSmallest(x: Path, s: seq<Path>)
    requires StrictlyAscending(s)
    requires forall p :: p in s ==> Less(x, p)
    ensures StrictlyAscending([x] + s)
  {
    var r := [x] + s;
    forall i, j | 0 <= i < j < |r|
      ensures Less(r[i], r[j])
    {
      if i == 0 {
        assert r[j] == s[j - 1];
      } else {
        assert r[i] == s[i - 1] && r[j] == s[j - 1];
      }
    }
  }

  /** Adds `x` to a sorted set held as a strictly ascending sequence. */
  function Insert(s: seq<Path>, x: Path): (r: seq<Path>)
    requires StrictlyAscending(s)
    ensures StrictlyAscending(r)
    ensures forall p :: p in r <==> p in s || p == x
  {
    if s == [] then
      [x]
    else if x == s[0] then
      s
    else if Less(x, s[0]) then
      InsertInFront(s, x);
      [x] + s
    else
      LessTotal(x, s[0]);
      var tail := Insert(s[1..], x);
      InsertBehind(s, x, tail);
      [s[0]] + tail
  }

  lemma InsertInFront(s: seq<Path>, x: Path)
    requires StrictlyAscending(s) && s != [] && Less(x, s[0])
    ensures StrictlyAscending([x] + s)
  {
    forall p | p in s
      ensures Less(x, p)
    {
      var k :| 0 <= k < |s| && s[k] == p;
      if k > 0 {
        LessTransitive(x, s[0], p);
      }
    }
    PrependSmallest(x, s);
  }

  lemma InsertBehind(s: seq<Path>, x: Path, tail: seq<Path>)
    requires StrictlyAscending(s) && s != [] && Less(s[0], x)
    requires StrictlyAscending(tail)
    requires forall p :: p in tail <==> p in s[1..] || p == x
    ensures StrictlyAscending([s[0]] + tail)
  {
    forall p | p in tail
      ensures Less(s[0], p)
    {
      if p != x {
        var k :| 0 <= k < |s[1..]| && s[1..][k] == p;
        assert s[k + 1] == p;
      }
    }
    PrependSmallest(s[0], tail);
  }

  /** The natural-order sorted set of the given paths, as a sequence. */
  function SortedSet(s: seq<Path>): (r: seq<Path>)
    ensures StrictlyAscending(r)
    ensures forall p :: p in r <==> p in s
  {
    if s == [] then
      []
    else
      var init := SortedSet(s[..|s| - 1]);
      assert s == s[..|s| - 1] + [s[|s| - 1]];
      Insert(init, s[|s| - 1])
  }

  /** A sorted set has exactly one representation as a strictly ascending sequence. */
  lemma {:induction false} AscendingUnique(a: seq<Path>, b: seq<Path>)
    requires StrictlyAscending(a) && StrictlyAscending(b)
    requires forall p :: p in a <==> p in b
    ensures a == b
  {
    assert a != [] ==> a[0] in b;
    assert b != [] ==> b[0] in a;
    if a != [] {
      if a[0] != b[0] {
        HeadIsLeast(a, b[0]);
        HeadIsLeast(b, a[0]);
        LessAsymmetric(a[0], b[0]);
        assert false;
      }
      forall p
        ensures p in a[1..] <==> p in b[1..]
      {
        AscendingTail(a, p);
        AscendingTail(b, p);
      }
      AscendingUnique(a[1..], b[1..]);
      assert a == [a[0]] + a[1..] && b == [b[0]] + b[1..];
    }
  }

  /** The head of a strictly ascending sequence precedes every other element. */
  lemma HeadIsLeast(s: seq<Path>, p: Path)
    requires StrictlyAscending(s) && p in s && p != s[0]
    ensures Less(s[0], p)
  {
    var k :| 0 <= k < |s| && s[k] == p;
  }

  /** In a strictly ascending sequence the head occurs nowhere in the tail. */
  lemma AscendingTail(s: seq<Path>, p: Path)
    requires StrictlyAscending(s) && s != []
    ensures p in s[1..] <==> p in s && p != s[0]
  {
    if p in s[1..] {
      var k :| 0 <= k < |s[1..]| && s[1..][k] == p;
      assert Less(s[0], s[k + 1]);
      LessIrreflexive(s[0]);
    }
    if p in s && p != s[0] {
      var k :| 0 <= k < |s| && s[k] == p;
      assert s[1..][k - 1] == p;
    }
  }
}
