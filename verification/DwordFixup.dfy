/**
 The payload fix-up of `usb_read`: the codec hands over 32-bit words, the transport stream
 wants bytes, so every group of four bytes is turned round in place.
 */
module DwordFixup {
  import opened Bytes

  /** Every group of four reversed. */
  function Swapped(s: seq<byte>): (r: seq<byte>)
    requires |s| % 4 == 0
    ensures |r| == |s|
  {
    if s == [] then [] else [s[3], s[2], s[1], s[0]] + Swapped(s[4..])
  }

  lemma {:induction false} SwappedAppend(a: seq<byte>, b: seq<byte>)
    requires |a| % 4 == 0 && |b| % 4 == 0
    ensures Swapped(a + b) == Swapped(a) + Swapped(b)
  {
    if a == [] {
      assert a + b == b;
    } else {
      assert (a + b)[4..] == a[4..] + b;
      SwappedAppend(a[4..], b);
    }
  }

  /** One more group joins the part already turned round. */
  lemma SwappedOneMore(s: seq<byte>, i: nat)
    requires i % 4 == 0 && i + 4 <= |s|
    ensures Swapped(s[..i + 4]) == Swapped(s[..i]) + [s[i + 3], s[i + 2], s[i + 1], s[i]]
  {
    var g := s[i..i + 4];
    assert s[..i + 4] == s[..i] + g;
    SwappedAppend(s[..i], g);
    assert g[4..] == [];
  }

  /** Doing it twice undoes it. */
  lemma {:induction false} SwappedInvolution(s: seq<byte>)
    requires |s| % 4 == 0
    ensures Swapped(Swapped(s)) == s
  {
    if s != [] {
      SwappedInvolution(s[4..]);
      assert Swapped(s)[4..] == Swapped(s[4..]);
    }
  }

  /** What one group of the result holds. */
  lemma {:induction false} SwappedGroup(s: seq<byte>, i: nat)
    requires |s| % 4 == 0 && i % 4 == 0 && i + 4 <= |s|
    ensures Swapped(s)[i] == s[i + 3] && Swapped(s)[i + 1] == s[i + 2]
    ensures Swapped(s)[i + 2] == s[i + 1] && Swapped(s)[i + 3] == s[i]
  {
    if i > 0 {
      SwappedGroup(s[4..], i - 4);
    }
  }

  method TurnGroup(ptr: array<byte>, i: nat)
    requires i + 4 <= ptr.Length
    modifies ptr
    ensures ptr[i] == old(ptr[i + 3]) && ptr[i + 1] == old(ptr[i + 2])
    ensures ptr[i + 2] == old(ptr[i + 1]) && ptr[i + 3] == old(ptr[i])
    ensures forall k | 0 <= k < i || i + 4 <= k < ptr.Length :: ptr[k] == old(ptr[k])
  {
    var r0, r1, r2, r3 := ptr[i + 3], ptr[i + 2], ptr[i + 1], ptr[i];
    ptr[i] := r0;
    ptr[i + 1] := r1;
    ptr[i + 2] := r2;
    ptr[i + 3] := r3;
  }

  /** The in-place loop. Bytes from n on are left alone. */
  method SwapInPlace(ptr: array<byte>, n: nat)
    requires n % 4 == 0 && n <= ptr.Length
    modifies ptr
    ensures ptr[..n] == Swapped(old(ptr[..n]))
    ensures ptr[n..] == old(ptr[n..])
  {
    var i := 0;
    ghost var was := ptr[..n];
    ghost var turned := Swapped(was);
    while i < n
      invariant 0 <= i <= n && i % 4 == 0
      invariant forall k | 0 <= k < i :: ptr[k] == turned[k]
      invariant forall k | i <= k < ptr.Length :: ptr[k] == old(ptr[k])
    {
      SwappedGroup(was, i);
      TurnGroup(ptr, i);
      i := i + 4;
    }
  }

  /** A word sequence as little-endian bytes: the form a register read decodes. */
  function LeBytes(ws: seq<word>): (b: seq<byte>)
    ensures |b| == 4 * |ws|
  {
    if ws == [] then [] else Le(ws[0]) + LeBytes(ws[1..])
  }

  /** Most significant byte first: the order of a transport stream packet. */
  function BeBytes(ws: seq<word>): (b: seq<byte>)
    ensures |b| == 4 * |ws|
  {
    if ws == [] then []
    else var l := Le(ws[0]); [l[3], l[2], l[1], l[0]] + BeBytes(ws[1..])
  }

  /** The fix-up is exactly the change of byte order, word for word. */
  lemma {:induction false} SwapTurnsLittleIntoBig(ws: seq<word>)
    ensures Swapped(LeBytes(ws)) == BeBytes(ws)
  {
    if ws != [] {
      SwapTurnsLittleIntoBig(ws[1..]);
      assert LeBytes(ws)[4..] == LeBytes(ws[1..]);
    }
  }
}
