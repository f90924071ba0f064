/** The name structure and the reader as the source runs them, in place. */
module NameBuffers {
  import opened Octets
  import opened NameReader

  /** strlcat stops at the end of its source or with one byte of the field left. */
  lemma ConcatIs(host: seq<byte>, text: seq<byte>, j: nat)
    requires j <= |text| && |host| + j < FIELD
    requires j == |text| || |host| + j == FIELD - 1
    ensures Concat(host, text) == host + text[..j]
  {
    assert (host + text)[..|host| + j] == host + text[..j];
  }

  /** mdns_name_t: four adjacent fields of FIELD bytes and three flags. */
  class NameBuffer {
    const chars: array<byte>
    var parts: nat
    var sub: bool
    var invalid: bool

    /** Every field holds a terminating NUL inside its own FIELD bytes. */
    ghost predicate Valid()
      reads this, chars
    {
      && chars.Length == FIELDS * FIELD
      && parts <= FIELDS
      && |Text(0)| < FIELD && |Text(1)| < FIELD && |Text(2)| < FIELD && |Text(3)| < FIELD
    }

    function Text(i: nat): (t: seq<byte>)
      requires i < FIELDS && chars.Length == FIELDS * FIELD
      reads chars
      ensures NulFree(t)
    {
      CStr(chars[i * FIELD..(i + 1) * FIELD])
    }

    function Value(): (n: Name)
      requires Valid()
      reads this, chars
      ensures WellFormed(n)
    {
      Name([Text(0), Text(1), Text(2), Text(3)], parts, sub, invalid)
    }

    constructor ()
      ensures Valid() && Value() == EMPTY_NAME && fresh(chars)
    {
      chars := new byte[FIELDS * FIELD](_ => 0);
      parts, sub, invalid := 0, false, false;
      new;
      forall i | 0 <= i < FIELDS ensures Text(i) == [] {
        assert chars[i * FIELD..(i + 1) * FIELD][0] == 0;
      }
    }

    /** Bytes outside field i are untouched, so the other texts are too. */
    twostate lemma OtherFields(i: nat)
      requires i < FIELDS && chars.Length == FIELDS * FIELD
      requires forall k :: 0 <= k < chars.Length && !(i * FIELD <= k < (i + 1) * FIELD) ==> chars[k] == old(chars[k])
      ensures forall j :: 0 <= j < FIELDS && j != i ==> Text(j) == old(Text(j))
    {
      forall j | 0 <= j < FIELDS && j != i
        ensures Text(j) == old(Text(j))
      {
        assert chars[j * FIELD..(j + 1) * FIELD] == old(chars[j * FIELD..(j + 1) * FIELD]);
      }
    }

    /** The reset that precedes every read. */
    method Clear()
      requires chars.Length == FIELDS * FIELD
      modifies this, chars
      ensures Valid() && Value() == EMPTY_NAME
    {
      parts, sub, invalid := 0, false, false;
      chars[0], chars[FIELD], chars[2 * FIELD], chars[3 * FIELD] := 0, 0, 0, 0;
      forall i | 0 <= i < FIELDS ensures Text(i) == [] {
        assert chars[i * FIELD..(i + 1) * FIELD][0] == 0;
      }
    }

    /** memcpy of a label and its NUL into field i. */
    method CopyLabel(i: nat, buf: array<byte>, len: nat)
      requires Valid() && i < FIELDS && len < FIELD <= buf.Length && buf != chars && buf[len] == 0
      modifies chars
      ensures chars.Length == FIELDS * FIELD
      ensures Text(i) == CStr(buf[..len])
      ensures forall j :: 0 <= j < FIELDS && j != i ==> Text(j) == old(Text(j))
    {
      forall k | 0 <= k <= len {
        chars[i * FIELD + k] := buf[k];
      }
      OtherFields(i);
      var t := CStr(buf[..len]);
      var s := chars[i * FIELD..(i + 1) * FIELD];
      assert forall k :: 0 <= k <= len ==> s[k] == buf[k];
      assert s[|t|] == 0;
      assert forall k :: 0 <= k < |t| ==> s[k] == t[k];
      CStrEndsAt(s, |t|);
      assert s[..|t|] == t;
    }

    /** strlen(name->host). */
    method HostLength() returns (n: nat)
      requires Valid()
      ensures n == |Text(0)|
    {
      ghost var host := Text(0);
      assert chars[0 * FIELD..1 * FIELD] == chars[..FIELD];
      n := 0;
      while chars[n] != 0
        invariant n <= |host| < FIELD && chars[..n] == host[..n]
        decreases |host| - n
      {
        n := n + 1;
      }
    }

    /** strlcat(name->host, src, FIELD). */
    method AppendToHost(src: seq<byte>)
      requires Valid()
      modifies chars
      ensures chars.Length == FIELDS * FIELD
      ensures Text(0) == Concat(old(Text(0)), CStr(src))
      ensures forall j :: 0 < j < FIELDS ==> Text(j) == old(Text(j))
    {
      hide CStr, Concat;
      ghost var host, text := Text(0), CStr(src);
      var n := HostLength();
      assert chars[0 * FIELD..1 * FIELD][..n] == host;
      ghost var before := chars[..];
      var j := 0;
      while j < |src| && src[j] != 0 && n + j < FIELD - 1
        invariant j <= |text| && n + j < FIELD
        invariant forall k :: 0 <= k < n ==> chars[k] == host[k]
        invariant forall k :: 0 <= k < j ==> chars[n + k] == text[k]
        invariant forall k :: FIELD <= k < chars.Length ==> chars[k] == before[k]
      {
        chars[n + j] := src[j];
        j := j + 1;
      }
      chars[n + j] := 0;
      OtherFields(0);
      ConcatIs(host, text, j);
      assert forall k :: 0 <= k < n + j ==> chars[k] == Concat(host, text)[k];
      CStrIs(chars[0 * FIELD..1 * FIELD], Concat(host, text));
    }

    /** A label joined to the host with a dot. */
    method JoinToHost(buf: seq<byte>)
      requires Valid()
      modifies chars
      ensures Valid()
      ensures Value() == old(Value()).(fields := old(Value()).fields[0 := Concat(Concat(old(Text(0)), [DOT]), CStr(buf))])
    {
      ghost var n := Value();
      AppendToHost([DOT]);
      CStrOfNulFree([DOT]);
      AppendToHost(buf);
      assert Value().fields == n.fields[0 := Text(0)];
    }

    /** The next part of the name is the label in buf[..len]. */
    method AddPart(buf: array<byte>, len: nat)
      requires Valid() && parts < FIELDS && 0 < len < FIELD <= buf.Length && buf != chars && buf[len] == 0
      modifies chars, this`parts
      ensures Valid()
      ensures Value() == old(Value()).(fields := old(Value()).fields[old(parts) := CStr(buf[..len])],
          parts := old(parts) + 1)
    {
      ghost var n := Value();
      CopyLabel(parts, buf, len);
      assert [Text(0), Text(1), Text(2), Text(3)] == n.fields[parts := CStr(buf[..len])];
      parts := parts + 1;
    }
  }

  /** The C string of a buffer whose byte at len is NUL is that of its first len bytes. */
  lemma CStrOfPrefix(buf: seq<byte>, len: nat)
    requires len < |buf| && buf[len] == 0
    ensures CStr(buf) == CStr(buf[..len])
  {
    var t := CStr(buf[..len]);
    assert forall k :: 0 <= k < |t| ==> buf[k] == t[k];
    CStrEndsAt(buf, |t|);
    assert buf[..|t|] == t;
  }

  /** The label in buf[..len] is filed as Store says. */
  method FileLabel(name: NameBuffer, buf: array<byte>, len: nat)
    requires name.Valid() && 0 < len <= 63 && FIELD <= buf.Length && buf != name.chars && buf[len] == 0
    requires name.parts == FIELDS ==> name.invalid
    modifies name, name.chars
    ensures name.Valid() && name.Value() == Store(old(name.Value()), old(buf[..len]))
  {
    var text := CStr(buf[..]);
    CStrOfPrefix(buf[..], len);
    assert buf[..][..len] == buf[..len];
    if name.parts == 1 && buf[0] != UNDERSCORE && !Reserved(text) {
      name.JoinToHost(buf[..]);
    } else if EqNoCase(text, SUB) {
      name.sub := true;
    } else if !name.invalid {
      name.AddPart(buf, len);
    }
  }

  /** The inner loop of the reader: len bytes into buf, unless the packet ends first. */
  method FetchLabel(packet: array<byte>, size: nat, first: nat, len: nat, buf: array<byte>) returns (ok: bool)
    requires size < packet.Length && len < FIELD <= buf.Length && buf != packet
    modifies buf
    ensures ok <==> first + len <= size || len == 0
    ensures ok ==> buf[len] == 0 && (first + len <= size ==> buf[..len] == packet[first..first + len])
  {
    var i: nat := 0;
    while i < len
      invariant i <= len && (i > 0 ==> first + i <= size)
      invariant forall k :: 0 <= k < i ==> buf[k] == packet[first + k]
    {
      if first + i >= size {
        return false;
      }
      buf[i] := packet[first + i];
      i := i + 1;
    }
    buf[len] := 0;
    return true;
  }

  /** One label of the name: from its length byte at `at` into the name structure. */
  method ReadLabel(packet: array<byte>, size: nat, at: nat, name: NameBuffer, buf: array<byte>) returns (ok: bool)
    requires size < packet.Length && at < size && packet[at] != 0 && name.Valid()
    requires name.parts == FIELDS ==> name.invalid
    requires buf != packet && buf != name.chars && packet != name.chars && FIELD <= buf.Length
    modifies name, name.chars, buf
    ensures packet[..] == old(packet[..]) && name.Valid()
    ensures ok <==> packet[at] <= 63 && at + 1 + packet[at] <= size
    ensures name.Value() == if ok then Store(old(name.Value()), packet[at + 1..at + 1 + packet[at]]) else old(name.Value())
  {
    var len := packet[at];
    if len > 63 {
      return false;
    }
    ok := FetchLabel(packet, size, at + 1, len, buf);
    if ok {
      FileLabel(name, buf, len);
    }
  }

  /** `_mdns_read_fqdn`. */
  method ReadFqdn(packet: array<byte>, size: nat, start: nat, name: NameBuffer, buf: array<byte>)
    returns (next: Option<nat>)
    requires size < packet.Length && name.Valid()
    requires buf != packet && buf != name.chars && packet != name.chars && FIELD <= buf.Length
    modifies name, name.chars, buf
    ensures packet[..] == old(packet[..]) && name.Valid()
    ensures (next, name.Value()) == Read(packet[..], size, start, start, old(name.Value()))
    decreases start
  {
    hide Store, CStr, EqNoCase;
    var at := start;
    ghost var mem := packet[..];
    ghost var want := Read(mem, size, start, start, name.Value());
    while at < size && packet[at] != 0
      invariant name.Valid() && packet[..] == mem
      invariant Read(mem, size, start, at, name.Value()) == want
      decreases size - at
    {
      ghost var before := name.Value();
      var len := packet[at];
      assert len == mem[at];
      if name.parts == FIELDS {
        name.invalid := true;
      }
      assert name.Value() == Enter(before);
      if len < 0xC0 {
        var ok := ReadLabel(packet, size, at, name, buf);
        if !ok {
          return None;
        }
        assert packet[at + 1..at + 1 + len] == mem[at + 1..at + 1 + len];
        at := at + 1 + len;
      } else {
        var address := 256 * ((len as int) % 64) + packet[at + 1];
        assert address == Target(mem, at);
        if address >= start {
          return None;
        }
        var r := ReadFqdn(packet, size, address, name, buf);
        return if r.Some? then Some(at + 2) else None;
      }
    }
    return Some(at + 1);
  }

  /** The memmove of three fields up by one. */
  method ShiftFields(name: NameBuffer)
    requires name.Valid()
    modifies name.chars
    ensures name.Valid()
    ensures name.Value() == old(name.Value()).(fields := [[]] + old(name.Value()).fields[..3])
  {
    ghost var was := name.chars[..];
    ghost var n := name.Value();
    forall k | 0 <= k < 3 * FIELD {
      name.chars[FIELD + k] := name.chars[k];
    }
    name.chars[0] := 0;
    assert name.chars[0 * FIELD..1 * FIELD][0] == 0;
    forall j | 1 <= j < FIELDS ensures name.Text(j) == n.fields[j - 1] {
      assert name.chars[j * FIELD..(j + 1) * FIELD] == was[(j - 1) * FIELD..j * FIELD];
    }
  }

  /** The second of two parts moves to the domain field. */
  method MoveDomain(name: NameBuffer)
    requires name.Valid()
    modifies name.chars
    ensures name.Valid()
    ensures name.Value() == old(name.Value()).(fields := [old(name.Text(0)), [], [], old(name.Text(1))])
  {
    ghost var was := name.chars[..];
    forall k | 0 <= k < FIELD {
      name.chars[3 * FIELD + k] := name.chars[FIELD + k];
    }
    name.chars[FIELD] := 0;
    name.chars[2 * FIELD] := 0;
    assert name.chars[0 * FIELD..1 * FIELD] == was[0 * FIELD..1 * FIELD];
    assert name.chars[3 * FIELD..4 * FIELD] == was[1 * FIELD..2 * FIELD];
    assert name.chars[1 * FIELD..2 * FIELD][0] == 0 && name.chars[2 * FIELD..3 * FIELD][0] == 0;
  }

  /** `_mdns_parse_fqdn`. */
  method ParseFqdn(packet: array<byte>, size: nat, start: nat, name: NameBuffer, buf: array<byte>)
    returns (next: Option<nat>)
    requires size < packet.Length && name.chars.Length == FIELDS * FIELD
    requires buf != packet && buf != name.chars && packet != name.chars && FIELD <= buf.Length
    modifies name, name.chars, buf
    ensures name.Valid()
    ensures (next, name.Value()) == Parse(old(packet[..]), size, start)
  {
    hide Read, CStr, EqNoCase;
    name.Clear();
    next := ReadFqdn(packet, size, start, name, buf);
    ghost var n := name.Value();
    if next.None? || name.parts == 0 || name.invalid {
      return;
    }
    if name.parts == 3 {
      ShiftFields(name);
    } else if name.parts == 2 {
      MoveDomain(name);
    }
    assert name.Value() == Place(n);
    if !EqNoCase(name.Text(3), LOCAL) && !EqNoCase(name.Text(3), ARPA) {
      name.invalid := true;
    }
  }
}
