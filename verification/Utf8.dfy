/** Byte lengths of strings: a character takes between one and four bytes in UTF-8. */
module Utf8 {
  function Width(c: char): (w: nat)
    ensures 1 <= w <= 4
  {
    if c as int < 0x80 then 1 else if c as int < 0x800 then 2 else if c as int < 0x10000 then 3 else 4
  }

  function Bytes(s: string): nat {
    if s == [] then 0 else Width(s[0]) + Bytes(s[1..])
  }

  lemma {:induction false} BytesAppend(a: string, b: string)
    ensures Bytes(a + b) == Bytes(a) + Bytes(b)
    decreases |a|
  {
    if a == [] {
      assert a + b == b;
    } else {
      assert (a + b)[1..] == a[1..] + b;
      BytesAppend(a[1..], b);
    }
  }

  lemma {:induction false} BytesAtLeastLength(s: string)
    ensures Bytes(s) >= |s|
  {
    if s != [] {
      BytesAtLeastLength(s[1..]);
    }
  }

  lemma BytesPrefix(s: string, k: nat)
    requires k <= |s|
    ensures Bytes(s[..k]) <= Bytes(s)
    ensures k < |s| ==> Bytes(s[..k]) < Bytes(s)
  {
    assert s == s[..k] + s[k..];
    BytesAppend(s[..k], s[k..]);
    BytesAtLeastLength(s[k..]);
  }

  /** `floor_char_boundary`: the number of characters in the longest prefix of at most `n` bytes. */
  function FloorBoundary(s: string, n: nat): (k: nat)
    ensures k <= |s| && Bytes(s[..k]) <= n
    ensures k < |s| ==> Bytes(s[..k + 1]) > n
  {
    if s == [] || Width(s[0]) > n then
      assert s != [] ==> s[..1][1..] == [];
      0
    else
      var k := FloorBoundary(s[1..], n - Width(s[0]));
      assert s[..k + 1][1..] == s[1..][..k];
      assert k + 1 < |s| ==> s[..k + 2][1..] == s[1..][..k + 1];
      k + 1
  }

  /** A boundary is the floor of `n` as soon as it fits and the next one does not. */
  lemma FloorUnique(s: string, n: nat, k: nat)
    requires k <= |s| && Bytes(s[..k]) <= n && (k < |s| ==> Bytes(s[..k + 1]) > n)
    ensures FloorBoundary(s, n) == k
  {
    hide FloorBoundary;
    var f := FloorBoundary(s, n);
    if k < f {
      assert s[..f][..k + 1] == s[..k + 1];
      BytesPrefix(s[..f], k + 1);
    } else if f < k {
      assert s[..k][..f + 1] == s[..f + 1];
      BytesPrefix(s[..k], f + 1);
    }
  }

  /** Cutting a long enough prefix cuts where the whole would be cut. */
  lemma FloorOfPrefix(p: string, s: string, n: nat)
    requires p <= s && Bytes(p) >= n
    ensures FloorBoundary(p, n) == FloorBoundary(s, n) && p[..FloorBoundary(p, n)] == s[..FloorBoundary(s, n)]
  {
    hide FloorBoundary;
    var k := FloorBoundary(p, n);
    assert p[..k] == s[..k];
    if k < |p| {
      assert p[..k + 1] == s[..k + 1];
    } else if k < |s| {
      assert s[..k + 1] == p + [s[k]];
      BytesAppend(p, [s[k]]);
      assert p[..k] == p;
    }
    FloorUnique(s, n, k);
  }

  /** A text that does not fit is cut less than one character short. */
  lemma FloorIsTight(s: string, n: nat)
    requires Bytes(s) > n
    ensures n < Bytes(s[..FloorBoundary(s, n)]) + 4
  {
    hide FloorBoundary;
    var k := FloorBoundary(s, n);
    assert s[..|s|] == s;
    assert s[..k + 1] == s[..k] + [s[k]];
    BytesAppend(s[..k], [s[k]]);
    OneChar(s[k]);
  }

  lemma OneChar(c: char)
    ensures 1 <= Bytes([c]) <= 4
  {
    assert [c][1..] == [];
  }

  /** The bytes of a character as in section 3 of RFC 3629. */
  function Encoded(c: char): (bytes: seq<nat>)
    ensures |bytes| == Width(c)
  {
    var u := c as int;
    if u <= 0x7F then [u]
    else if u <= 0x7FF then [0xC0 + u / 64, 0x80 + u % 64]
    else if u <= 0xFFFF then [0xE0 + u / 4096, 0x80 + u / 64 % 64, 0x80 + u % 64]
    else [0xF0 + u / 262144, 0x80 + u / 4096 % 64, 0x80 + u / 64 % 64, 0x80 + u % 64]
  }

  function EncodedAll(s: string): seq<nat> { if s == [] then [] else Encoded(s[0]) + EncodedAll(s[1..]) }

  /** A text's length in bytes is that of its encoding. */
  lemma {:induction false} BytesAreEncoded(s: string)
    ensures Bytes(s) == |EncodedAll(s)|
    decreases |s|
  {
    if s != [] {
      BytesAreEncoded(s[1..]);
    }
  }
}
