/** Bytes, big-endian integers and the byte-wise order of keys. */
module Bytes {

  newtype byte = x: int | 0 <= x < 256

  const LIMIT_32: nat := 0x1_0000_0000

  function Be32(n: nat): (b: seq<byte>)
    requires n < LIMIT_32
    ensures |b| == 4
  {
    var (high, mid, low) := (n / 256 / 256 / 256, n / 256 / 256, n / 256);
    [high as byte, (mid % 256) as byte, (low % 256) as byte, (n % 256) as byte]
  }

  function FromBe32(b: seq<byte>): (n: nat)
    requires |b| == 4
    ensures n < LIMIT_32
  {
    ((b[0] as nat * 256 + b[1] as nat) * 256 + b[2] as nat) * 256 + b[3] as nat
  }

  lemma Be32RoundTrip(n: nat)
    requires n < LIMIT_32
    ensures FromBe32(Be32(n)) == n
  {
  }

  /** The most significant byte comes first. */
  lemma Be32Digits(n: nat)
    requires n < LIMIT_32
    ensures var b := Be32(n);
            && b[0] as nat == n / 0x100_0000 && b[1] as nat == n / 0x1_0000 % 256
            && b[2] as nat == n / 0x100 % 256 && b[3] as nat == n % 256
  {
  }

  /** The byte-wise lexicographic order. */
  predicate Less(a: seq<byte>, b: seq<byte>) {
    b != [] && (a == [] || a[0] < b[0] || (a[0] == b[0] && Less(a[1..], b[1..])))
  }

  /** `b` goes on where `a` ends, or has the larger byte at the first place `i` where they differ. */
  predicate SmallerAt(a: seq<byte>, b: seq<byte>, i: nat) {
    i <= |a| && i < |b| && a[..i] == b[..i] && (i == |a| || a[i] < b[i])
  }

  /** The smaller key is the one with the smaller byte at the first difference. */
  lemma {:induction false} LessMeans(a: seq<byte>, b: seq<byte>)
    ensures Less(a, b) <==> exists i :: SmallerAt(a, b, i)
  {
    if a != [] && b != [] && a[0] == b[0] {
      LessMeans(a[1..], b[1..]);
      assert a == [a[0]] + a[1..] && b == [b[0]] + b[1..];
      if i: nat :| SmallerAt(a[1..], b[1..], i) {
        assert a[..i + 1] == [a[0]] + a[1..][..i] && b[..i + 1] == [b[0]] + b[1..][..i];
        assert SmallerAt(a, b, i + 1);
      }
      if i: nat :| SmallerAt(a, b, i) {
        assert a[1..][..i - 1] == a[..i][1..] && b[1..][..i - 1] == b[..i][1..];
        assert SmallerAt(a[1..], b[1..], i - 1);
      }
    } else {
      assert b != [] && (a == [] || a[0] < b[0]) ==> SmallerAt(a, b, 0);
    }
  }

  lemma {:induction false} LessTransitive(a: seq<byte>, b: seq<byte>, c: seq<byte>)
    requires Less(a, b) && Less(b, c)
    ensures Less(a, c)
  {
    if a != [] && a[0] == b[0] && b[0] == c[0] {
      LessTransitive(a[1..], b[1..], c[1..]);
    }
  }

  lemma {:induction false} LessTotal(a: seq<byte>, b: seq<byte>)
    ensures a == b || Less(a, b) || Less(b, a)
  {
    if a != [] && b != [] && a[0] == b[0] {
      LessTotal(a[1..], b[1..]);
      assert a == [a[0]] + a[1..] && b == [b[0]] + b[1..];
    }
  }

  lemma {:induction false} LessIrreflexive(a: seq<byte>)
    ensures !Less(a, a)
  {
    if a != [] {
      LessIrreflexive(a[1..]);
    }
  }

  ghost predicate Sorted(s: seq<seq<byte>>) {
    forall i, j :: 0 <= i < j < |s| ==> Less(s[i], s[j])
  }

  /** The keys as a list in increasing order. */
  ghost predicate Lists(s: seq<seq<byte>>, keys: set<seq<byte>>) {
    && Sorted(s)
    && (forall k :: k in s <==> k in keys)
  }

  /** Only one list holds given keys in increasing order, so the order in which they were visited cannot show. */
  lemma {:induction false} ListIsUnique(s: seq<seq<byte>>, t: seq<seq<byte>>, keys: set<seq<byte>>)
    requires Lists(s, keys) && Lists(t, keys)
    ensures s == t
    decreases |s|
  {
    hide Less;
    EmptyList(s, keys);
    EmptyList(t, keys);
    if keys != {} {
      FirstIsLeast(s, t, keys);
      TailLists(s, keys);
      TailLists(t, keys);
      ListIsUnique(s[1..], t[1..], keys - {s[0]});
      assert s == [s[0]] + s[1..] && t == [t[0]] + t[1..];
    }
  }

  lemma EmptyList(s: seq<seq<byte>>, keys: set<seq<byte>>)
    requires Lists(s, keys)
    ensures s == [] <==> keys == {}
  {
    if s != [] {
      assert s[0] in keys;
    }
  }

  lemma FirstIsLeast(s: seq<seq<byte>>, t: seq<seq<byte>>, keys: set<seq<byte>>)
    requires Lists(s, keys) && Lists(t, keys) && s != [] && t != []
    ensures s[0] == t[0]
  {
    hide Less;
    assert s[0] in keys && t[0] in keys;
    var i :| 0 <= i < |t| && t[i] == s[0];
    var j :| 0 <= j < |s| && s[j] == t[0];
    if i > 0 && j > 0 {
      LessTransitive(s[0], t[0], s[0]);
      LessIrreflexive(s[0]);
    }
  }

  lemma TailLists(s: seq<seq<byte>>, keys: set<seq<byte>>)
    requires Lists(s, keys) && s != []
    ensures Lists(s[1..], keys - {s[0]})
  {
    hide Less;
    LessIrreflexive(s[0]);
    forall k
      ensures k in s[1..] <==> k in keys - {s[0]}
    {
      if k in s && k != s[0] {
        var i :| 0 <= i < |s| && s[i] == k;
        assert s[1..][i - 1] == k;
      }
    }
  }

  /** How many keys of a sorted list precede `k`. */
  ghost function Spot(s: seq<seq<byte>>, k: seq<byte>): (i: nat)
    requires Sorted(s) && k !in s
    ensures i <= |s|
    ensures forall j :: 0 <= j < i ==> Less(s[j], k)
    ensures forall j :: i <= j < |s| ==> Less(k, s[j])
  {
    if s == [] then 0 else
      var n := |s| - 1;
      LessTotal(s[n], k);
      if Less(s[n], k) then
        assert forall j :: 0 <= j < n ==> Less(s[j], k) by {
          forall j | 0 <= j < n ensures Less(s[j], k) { LessTransitive(s[j], s[n], k); }
        }
        |s|
      else
        assert s[n] in s;
        Spot(s[..n], k)
  }

  /** The list of given keys in increasing order. */
  ghost function ListOf(keys: set<seq<byte>>): (s: seq<seq<byte>>)
    ensures Lists(s, keys)
    decreases |keys|
  {
    if keys == {} then [] else
      var k :| k in keys;
      var s := ListOf(keys - {k});
      var i := Spot(s, k);
      InsertedLists(s, k, keys - {k}, i);
      assert keys - {k} + {k} == keys;
      s[..i] + [k] + s[i..]
  }

  /** Collects the keys in any order and keeps them sorted. */
  method SortedKeys(keys: set<seq<byte>>) returns (s: seq<seq<byte>>)
    ensures Lists(s, keys)
  {
    s := [];
    var todo := keys;
    while todo != {}
      invariant todo <= keys && Lists(s, keys - todo)
      decreases todo
    {
      var k :| k in todo;
      s := InsertKey(s, k, keys - todo);
      assert keys - todo + {k} == keys - (todo - {k});
      todo := todo - {k};
    }
    assert keys - {} == keys;
  }

  method InsertKey(s: seq<seq<byte>>, k: seq<byte>, ghost keys: set<seq<byte>>) returns (r: seq<seq<byte>>)
    requires Lists(s, keys) && k !in keys
    ensures Lists(r, keys + {k})
  {
    hide Less;
    var i := 0;
    while i < |s| && Less(s[i], k)
      invariant 0 <= i <= |s| && forall j :: 0 <= j < i ==> Less(s[j], k)
    {
      i := i + 1;
    }
    forall j | i <= j < |s|
      ensures Less(k, s[j])
    {
      LessTotal(s[i], k);
      if i < j {
        LessTransitive(k, s[i], s[j]);
      }
    }
    r := s[..i] + [k] + s[i..];
    InsertedLists(s, k, keys, i);
  }

  lemma InsertedLists(s: seq<seq<byte>>, k: seq<byte>, keys: set<seq<byte>>, i: nat)
    requires Lists(s, keys) && k !in keys && i <= |s|
    requires forall j :: 0 <= j < i ==> Less(s[j], k)
    requires forall j :: i <= j < |s| ==> Less(k, s[j])
    ensures Lists(s[..i] + [k] + s[i..], keys + {k})
  {
    hide Less;
    assert s == s[..i] + s[i..];
  }
}
