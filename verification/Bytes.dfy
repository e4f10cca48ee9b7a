/** Bytes, 32-bit words and the sequence functions every other module shares. */
module Bytes {

  type byte = bv8
  type word = bv32

  datatype Option<+T> = None | Some(value: T)

  function Min(a: int, b: int): int {
    if a <= b then a else b
  }

  lemma Assoc<T>(a: seq<T>, b: seq<T>, c: seq<T>)
    ensures a + (b + c) == (a + b) + c
  {
  }

  lemma NilUnit<T>(a: seq<T>)
    ensures a + [] == a && [] + a == a
  {
  }

  lemma SplitAt<T>(a: seq<T>, n: nat)
    requires n <= |a|
    ensures a[..n] + a[n..] == a
  {
  }

  lemma CutLeft<T>(a: seq<T>, b: seq<T>, n: nat)
    requires n <= |a|
    ensures (a + b)[n..] == a[n..] + b && (a + b)[..n] == a[..n]
  {
  }

  lemma SliceOfSlice<T>(s: seq<T>, a: nat, p: nat, n: nat)
    requires p + n <= a <= |s|
    ensures s[..a][p..][..n] == s[p..p + n]
    ensures p + n == a ==> s[..a][p..][..n] == s[..a][p..]
  {
  }

  /** The pieces laid end to end. */
  function Concat<T>(ss: seq<seq<T>>): seq<T> {
    if ss == [] then [] else ss[0] + Concat(ss[1..])
  }

  lemma {:induction false} ConcatAppend<T>(a: seq<seq<T>>, b: seq<seq<T>>)
    ensures Concat(a + b) == Concat(a) + Concat(b)
  {
    if a == [] {
      assert a + b == b;
    } else {
      assert (a + b)[0] == a[0] && (a + b)[1..] == a[1..] + b;
      ConcatAppend(a[1..], b);
    }
  }

  lemma ConcatOne<T>(s: seq<T>)
    ensures Concat([s]) == s
  {
    assert [s][1..] == [];
  }

  /** The list without the first occurrence of x. */
  function Unlink<T(==)>(list: seq<T>, x: T): seq<T> {
    if list == [] then [] else if list[0] == x then list[1..] else [list[0]] + Unlink(list[1..], x)
  }

  lemma {:induction false} UnlinkRemovesOne<T>(list: seq<T>, x: T)
    ensures multiset(Unlink(list, x)) == multiset(list) - multiset{x}
    ensures x !in list ==> Unlink(list, x) == list
  {
    if list != [] {
      assert list == [list[0]] + list[1..];
      if list[0] != x {
        UnlinkRemovesOne(list[1..], x);
      }
    }
  }

  /** It leaves from wherever it is. */
  lemma {:induction false} UnlinkAt<T>(list: seq<T>, i: nat)
    requires i < |list| && list[i] !in list[..i]
    ensures Unlink(list, list[i]) == list[..i] + list[i + 1..]
  {
    if i > 0 {
      assert list[1..][..i - 1] == list[..i][1..];
      UnlinkAt(list[1..], i - 1);
      assert list[..i] + list[i + 1..] == [list[0]] + (list[1..i] + list[i + 1..]);
    }
  }

  /** What is counted once sits in one place. */
  lemma CountedOnce<T>(list: seq<T>, i: nat, j: nat)
    requires i < j < |list| && multiset(list)[list[i]] <= 1
    ensures list[i] != list[j]
  {
    assert list == list[..j] + list[j..];
    assert list[i] in list[..j] && list[j] in list[j..];
  }

  /** True, false, true, and so on. */
  predicate Alternating(s: seq<bool>) {
    forall i | 0 <= i < |s| :: s[i] == (i % 2 == 0)
  }

  /** The little-endian bytes of a word, as the driver shifts them into a packet. */
  function Le(w: word): (b: seq<byte>)
    ensures |b| == 4
  {
    [(w & 0xff) as byte, ((w >> 8) & 0xff) as byte, ((w >> 16) & 0xff) as byte, ((w >> 24) & 0xff) as byte]
  }

  /** The word the driver assembles from four received bytes. */
  function FromLe(b: seq<byte>): word
    requires |b| == 4
  {
    (b[0] as word) | ((b[1] as word) << 8) | ((b[2] as word) << 16) | ((b[3] as word) << 24)
  }

  lemma FromLeLe(w: word)
    ensures FromLe(Le(w)) == w
  {
  }

  lemma LeFromLe(b: seq<byte>)
    requires |b| == 4
    ensures Le(FromLe(b)) == b
  {
  }
}
