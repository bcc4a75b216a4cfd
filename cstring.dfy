/**
 * The two C library string routines the widgets rely on, over byte
 * sequences.  A C string argument is modelled by the bytes before its
 * terminating NUL; a fixed `char` array by all of its bytes.
 */
module CString {
  import opened Machine

  /** The bytes of a C string proper: none of them is the terminator. */
  predicate NoNul(s: seq<u8>)
  {
    forall i :: 0 <= i < |s| ==> s[i] != 0
  }

  /** `strlen` over a char array: the index of its first NUL. */
  function Strlen(buf: seq<u8>): (n: nat)
    ensures n <= |buf|
    ensures forall i :: 0 <= i < n ==> buf[i] != 0
    ensures n < |buf| ==> buf[n] == 0
  {
    if |buf| == 0 || buf[0] == 0 then 0 else 1 + Strlen(buf[1..])
  }

  /** The characters a char array holds: everything before its first NUL. */
  function Contents(buf: seq<u8>): (r: seq<u8>)
    ensures NoNul(r) && |r| <= |buf|
    ensures r == buf[..|r|]
  {
    buf[..Strlen(buf)]
  }

  /**
   * `strncpy(dst, src, n)`: the first `n` bytes of `dst` become the first
   * `n` bytes of `src`, padded with NULs once `src` ends; the rest of `dst`
   * is untouched.  No terminator is written when `src` is `n` bytes or more.
   */
  function Strncpy(dst: seq<u8>, src: seq<u8>, n: nat): (r: seq<u8>)
    requires n <= |dst|
    ensures |r| == |dst|
    ensures forall i :: 0 <= i < n ==> r[i] == (if i < |src| then src[i] else 0)
    ensures r[n..] == dst[n..]
  {
    var k := Min(|src|, n);
    src[..k] + seq(n - k, _ => 0) + dst[n..]
  }

  /** A char array of `n` zero bytes, as `memset` leaves it. */
  function Zeros(n: nat): (r: seq<u8>)
    ensures |r| == n && forall i :: 0 <= i < n ==> r[i] == 0
  {
    seq(n, _ => 0)
  }

  /**
   * Copying a C string into an array with `strncpy(dst, src, n)` when byte
   * `n` of the array is NUL stores the string cut to its first `n`
   * characters, and `strlen` then measures that cut.
   */
  lemma StrncpyStores(dst: seq<u8>, src: seq<u8>, n: nat)
    requires NoNul(src) && n < |dst| && dst[n] == 0
    ensures Strlen(Strncpy(dst, src, n)) == Min(|src|, n)
    ensures Contents(Strncpy(dst, src, n)) == src[..Min(|src|, n)]
  {
    var r := Strncpy(dst, src, n);
    var k := Min(|src|, n);
    assert r[k] == 0;
    assert forall i :: 0 <= i < k ==> r[i] == src[i] != 0;
    StrlenIs(r, k);
  }

  /** `strlen` is the position of the first NUL. */
  lemma StrlenIs(buf: seq<u8>, k: nat)
    requires k < |buf| && buf[k] == 0
    requires forall i :: 0 <= i < k ==> buf[i] != 0
    ensures Strlen(buf) == k
  {
  }
}
