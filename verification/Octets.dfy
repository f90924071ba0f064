/** Bytes, C strings and the few library operations that the mDNS sources use on them. */
module Octets {

  type byte = b: int | 0 <= b < 256

  datatype Option<+T> = None | Some(value: T)

  /** MDNS_DEFAULT_DOMAIN, "local". */
  const LOCAL: seq<byte> := [108, 111, 99, 97, 108]
  /** MDNS_SUB_STR, "_sub". */
  const SUB: seq<byte> := [95, 115, 117, 98]
  const ARPA: seq<byte> := [97, 114, 112, 97]
  const IP6: seq<byte> := [105, 112, 54]
  const IN_ADDR: seq<byte> := [105, 110, 45, 97, 100, 100, 114]
  const UNDERSCORE: byte := 95
  const DOT: byte := 46
  const EQUALS: byte := 61

  ghost predicate NulFree(s: seq<byte>) {
    forall i :: 0 <= i < |s| ==> s[i] != 0
  }

  /** The C string that starts a buffer: everything before the first NUL. */
  function CStr(s: seq<byte>): (t: seq<byte>)
    ensures |t| <= |s| && t == s[..|t|] && NulFree(t)
    ensures |t| < |s| ==> s[|t|] == 0
  {
    if s == [] || s[0] == 0 then [] else [s[0]] + CStr(s[1..])
  }

  /** A NUL at position n with none before it determines the C string. */
  lemma CStrEndsAt(s: seq<byte>, n: nat)
    requires n < |s| && s[n] == 0
    requires forall k :: 0 <= k < n ==> s[k] != 0
    ensures CStr(s) == s[..n]
  {
  }

  /** A NUL-free text followed by a NUL is the C string of the buffer that holds both. */
  lemma CStrIs(s: seq<byte>, t: seq<byte>)
    requires |t| < |s| && s[|t|] == 0 && NulFree(t)
    requires forall k :: 0 <= k < |t| ==> s[k] == t[k]
    ensures CStr(s) == t
  {
    CStrEndsAt(s, |t|);
    assert s[..|t|] == t;
  }

  lemma CStrOfNulFree(s: seq<byte>)
    requires NulFree(s)
    ensures CStr(s) == s
  {
  }

  function Lower(b: byte): byte {
    if 65 <= b <= 90 then b + 32 else b
  }

  /** strcasecmp(a, b) == 0 on C strings. */
  predicate EqNoCase(a: seq<byte>, b: seq<byte>) {
    |a| == |b| && forall i :: 0 <= i < |a| ==> Lower(a[i]) == Lower(b[i])
  }

  /** The memory after s has been copied to offset i. */
  function Put(mem: seq<byte>, i: nat, s: seq<byte>): (r: seq<byte>)
    requires i + |s| <= |mem|
    ensures |r| == |mem|
    ensures forall k :: 0 <= k < |mem| ==> r[k] == if i <= k < i + |s| then s[k - i] else mem[k]
    ensures r[i..i + |s|] == s
  {
    mem[..i] + s + mem[i + |s|..]
  }

  /** Agreement of two memories on a range. */
  ghost predicate Same(a: seq<byte>, b: seq<byte>, lo: nat, hi: nat) {
    hi <= |a| && hi <= |b| && forall k :: lo <= k < hi ==> a[k] == b[k]
  }

  /** Big-endian 16 bits, as `_mdns_set_u16` and `_mdns_read_u16` lay them out. */
  function U16(v: nat): (s: seq<byte>)
    ensures |s| == 2
  {
    [(v / 256) % 256, v % 256]
  }

  function ReadU16(mem: seq<byte>, at: nat): nat
    requires at + 2 <= |mem|
  {
    256 * (mem[at] as int) + mem[at + 1]
  }

  function U32(v: nat): (s: seq<byte>)
    ensures |s| == 4
  {
    [(v / 0x100_0000) % 256, (v / 0x1_0000) % 256, (v / 256) % 256, v % 256]
  }

  function ReadU32(mem: seq<byte>, at: nat): nat
    requires at + 4 <= |mem|
  {
    0x100_0000 * (mem[at] as int) + 0x1_0000 * (mem[at + 1] as int) + 256 * (mem[at + 2] as int) + mem[at + 3]
  }

  lemma U16RoundTrip(v: nat)
    requires v < 0x1_0000
    ensures ReadU16(U16(v), 0) == v
  {
  }

  lemma U32RoundTrip(v: nat)
    requires v < 0x1_0000_0000
    ensures ReadU32(U32(v), 0) == v
  {
    var a, b, c := v / 256, v / 0x1_0000, v / 0x100_0000;
    assert v == 256 * a + v % 256;
    assert a / 256 == b && b / 256 == c;
    assert a == 256 * b + a % 256;
    assert b == 256 * c + b % 256;
  }
}
