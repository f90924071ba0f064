/** The packet writers as the source runs them: a fixed buffer and a write index. */
module PacketWriters {
  import opened Octets
  import opened NameReader
  import opened NameBuffers
  import opened NameWriter
  import opened Records

  lemma PutPut(mem: seq<byte>, i: nat, a: seq<byte>, b: seq<byte>)
    requires i + |a| + |b| <= |mem|
    ensures Put(Put(mem, i, a), i + |a|, b) == Put(mem, i, a + b)
  {
  }

  lemma FourPuts(mem: seq<byte>, i: nat, s: seq<byte>)
    requires |s| == 4 && i + 4 <= |mem|
    ensures Put(Put(Put(Put(mem, i, [s[0]]), i + 1, [s[1]]), i + 2, [s[2]]), i + 3, [s[3]]) == Put(mem, i, s)
  {
  }

  /** The packet, the memory behind it, and the write index. */
  class PacketWriter {
    const packet: array<byte>
    var index: nat

    ghost predicate Valid()
      reads this
    {
      packet.Length == PACKET + SLACK && index <= PACKET
    }

    constructor (packet: array<byte>, index: nat)
      requires packet.Length == PACKET + SLACK && index <= PACKET
      ensures Valid() && this.packet == packet && this.index == index
    {
      this.packet, this.index := packet, index;
    }

    /** memcpy of s to the write index, which stays. */
    method Copy(at: nat, s: seq<byte>)
      requires Valid() && at + |s| <= packet.Length
      modifies packet
      ensures packet[..] == Put(old(packet[..]), at, s)
    {
      forall k | 0 <= k < |s| {
        packet[at + k] := s[k];
      }
      assert packet[..] == Put(old(packet[..]), at, s);
    }

    /** `_mdns_append_u8`. */
    method AppendU8(value: byte) returns (ret: nat)
      requires Valid()
      modifies packet, `index
      ensures Valid() && Out(packet[..], index, ret) == NameWriter.AppendU8(old(packet[..]), old(index), value)
    {
      if index >= PACKET {
        return 0;
      }
      packet[index] := value;
      assert packet[..] == Put(old(packet[..]), index, [value]);
      index := index + 1;
      return 1;
    }

    /** `_mdns_append_u16`. */
    method AppendU16(value: nat) returns (ret: nat)
      requires Valid()
      modifies packet, `index
      ensures Valid() && Out(packet[..], index, ret) == NameWriter.AppendU16(old(packet[..]), old(index), value)
    {
      if index + 1 >= PACKET {
        return 0;
      }
      hide Put;
      var high, low := (value / 256) % 256, value % 256;
      PutPut(packet[..], index, [high], [low]);
      var _ := AppendU8(high);
      assert packet[..] == Put(old(packet[..]), old(index), [high]);
      var _ := AppendU8(low);
      assert packet[..] == Put(old(packet[..]), old(index), [high] + [low]);
      assert [high] + [low] == U16(value);
      return 2;
    }

    /** `_mdns_append_u32`. */
    method AppendU32(value: nat) returns (ret: nat)
      requires Valid()
      modifies packet, `index
      ensures Valid() && Out(packet[..], index, ret) == NameWriter.AppendU32(old(packet[..]), old(index), value)
    {
      if index + 3 >= PACKET {
        return 0;
      }
      hide Put, U32;
      var four := U32(value);
      FourPuts(packet[..], index, four);
      var _ := AppendU8(four[0]);
      var _ := AppendU8(four[1]);
      var _ := AppendU8(four[2]);
      var _ := AppendU8(four[3]);
      return 4;
    }

    /** `_mdns_set_u16`. */
    method SetU16(at: nat, value: nat)
      requires Valid()
      modifies packet
      ensures packet[..] == NameWriter.SetU16(old(packet[..]), at, value)
    {
      if at + 1 >= PACKET {
        return;
      }
      packet[at] := (value / 256) % 256;
      packet[at + 1] := value % 256;
      assert packet[..] == Put(old(packet[..]), at, U16(value));
    }

    /** `_mdns_append_string`. */
    method AppendString(s: seq<byte>) returns (ret: nat)
      requires Valid()
      modifies packet, `index
      ensures Valid() && Out(packet[..], index, ret) == NameWriter.AppendString(old(packet[..]), old(index), s)
    {
      var len := Len8(s);
      if index + len + 1 >= PACKET {
        return 0;
      }
      var _ := AppendU8(len);
      Copy(index, s[..len]);
      PutPut(old(packet[..]), old(index), [len], s[..len]);
      index := index + len;
      return ((len as int) + 1) % 256;
    }

    /** The earlier occurrence at loc: memcmp, then the reader, then the field-wise comparison. */
    method IsAt(loc: nat, strings: seq<seq<byte>>) returns (found: bool)
      requires Valid() && loc < index && strings != []
      ensures found <==> Accepts(packet[..], loc, strings)
    {
      hide Read, EqNoCase, CStr;
      var len := Len8(strings[0]);
      assert packet[loc + 1..loc + 1 + len] == packet[..][loc + 1..loc + 1 + len];
      if packet[loc] != len || packet[loc + 1..loc + 1 + len] != strings[0][..len] {
        return false;
      }
      var name := new NameBuffer();
      var buf := new byte[FIELD];
      var content := ReadFqdn(packet, PACKET, loc, name, buf);
      if content.None? || name.parts != |strings| {
        return false;
      }
      ghost var n := name.Value();
      var i := 0;
      while i < |strings|
        invariant i <= |strings| && forall k :: 0 <= k < i ==> EqNoCase(strings[k], n.fields[k])
      {
        if !EqNoCase(strings[i], name.Text(i)) {
          assert !EqNoCase(strings[i], n.fields[i]);
          return false;
        }
        i := i + 1;
      }
      return true;
    }

    /** The memchr loop over the bytes written so far. */
    method Search(strings: seq<seq<byte>>) returns (loc: Option<nat>)
      requires Valid() && strings != []
      ensures loc == FindMatch(packet[..], 0, index, strings)
    {
      hide Accepts;
      var k := 0;
      while k < index
        invariant k <= index && FindMatch(packet[..], 0, index, strings) == FindMatch(packet[..], k, index, strings)
      {
        var found := IsAt(k, strings);
        if found {
          return Some(k);
        }
        k := k + 1;
      }
      return None;
    }

    /** `_mdns_append_fqdn`. */
    method AppendFqdn(strings: seq<seq<byte>>) returns (ret: nat)
      requires Valid()
      modifies packet, `index
      ensures Valid() && Out(packet[..], index, ret) == Append(old(packet[..]), old(index), strings)
      decreases |strings|
    {
      hide Accepts, FindMatch, Put, U16;
      if strings == [] {
        ret := AppendU8(0);
        return;
      }
      var loc := Search(strings);
      if loc.Some? {
        ret := AppendU16(NAME_REF + loc.value);
        return;
      }
      var written := AppendString(strings[0]);
      if written == 0 {
        return 0;
      }
      var rest := AppendFqdn(strings[1..]);
      return (written + rest) % 0x1_0000;
    }

    /** `_mdns_append_type`. */
    method AppendType(code: nat, cls: nat, ttl: nat) returns (ret: nat)
      requires Valid()
      modifies packet, `index
      ensures Valid() && Out(packet[..], index, ret) == Records.AppendType(old(packet[..]), old(index), code, cls, ttl)
    {
      if index + FIXED >= PACKET {
        return 0;
      }
      ghost var mem, i := packet[..], index;
      hide U16, U32;
      var _ := AppendU16(code);
      var _ := AppendU16(cls);
      PutPut(mem, i, U16(code), U16(cls));
      var _ := AppendU32(ttl);
      PutPut(mem, i, U16(code) + U16(cls), U32(ttl));
      var _ := AppendU16(0);
      PutPut(mem, i, U16(code) + U16(cls) + U32(ttl), U16(0));
      return FIXED;
    }

    /** `append_one_txt_record_entry`. */
    method AppendEntry(item: TxtItem) returns (ret: nat)
      requires Valid()
      modifies packet, `index
      ensures Valid() && Out(packet[..], index, ret) == Records.AppendEntry(old(packet[..]), old(index), item)
    {
      var text := EntryText(item);
      if index + |text| + 1 >= PACKET {
        return 0;
      }
      var _ := AppendU8(|text| % 256);
      Copy(index, text);
      PutPut(old(packet[..]), old(index), [|text| % 256], text);
      index := index + |text|;
      return |text| + 1;
    }

    /** A name whose written length is kept in eight bits. */
    method AppendName(strings: seq<seq<byte>>) returns (part: nat)
      requires Valid()
      modifies packet, `index
      ensures Valid() && Out(packet[..], index, part) == NameData(old(packet[..]), old(index), strings)
    {
      hide Append;
      part := AppendFqdn(strings);
      part := part % 256;
    }

    /** The entries of a TXT record, or one empty entry. */
    method AppendTxtData(items: seq<TxtItem>) returns (len: nat)
      requires Valid() && index < PACKET
      modifies packet, `index
      ensures Valid() && Out(packet[..], index, len) == TxtData(old(packet[..]), old(index), items)
    {
      hide Records.AppendEntry, Put;
      len := 0;
      ghost var all := AppendEntries(packet[..], index, items);
      ghost var mem := packet[..];
      var k := 0;
      while k < |items|
        invariant Valid() && k <= |items|
        invariant var rest := AppendEntries(packet[..], index, items[k..]);
          all == (Out(rest.0.mem, rest.0.index, if rest.1 then len + rest.0.ret else all.0.ret), rest.1)
        invariant len == 0 ==> packet[..] == mem && index == old(index)
      {
        assert items[k..][0] == items[k] && items[k..][1..] == items[k + 1..];
        var l := AppendEntry(items[k]);
        if l == 0 {
          return 0;
        }
        len := len + l;
        k := k + 1;
      }
      assert items[k..] == [];
      if len == 0 {
        packet[index] := 0;
        assert packet[..] == Put(mem, old(index), [0]);
        index := index + 1;
        len := 1;
      }
    }

    /** Owner name and fixed part, common to the record writers; None when one failed. */
    method Begin(rec: Record) returns (part: Option<nat>)
      requires Valid()
      modifies packet, `index
      ensures Valid()
      ensures var o := NameData(old(packet[..]), old(index), Owner(rec));
        if o.ret == 0 && !rec.SdPtr? then part.None? && packet[..] == o.mem && index == o.index
        else
          var t := Records.AppendType(o.mem, o.index, Code(rec), Class(rec), Ttl(rec));
          && packet[..] == t.mem && index == t.index
          && part == if t.ret == 0 then None else Some(o.ret)
    {
      hide NameData, Owner, Code, Class, Ttl, Records.AppendType;
      var p := AppendName(Owner(rec));
      if p == 0 && !rec.SdPtr? {
        return None;
      }
      var t := AppendType(Code(rec), Class(rec), Ttl(rec));
      return if t == 0 then None else Some(p);
    }

    /** Fills in the data length and adds up the parts. */
    method Finish(rec: Record, at: nat, part: nat, len: nat) returns (ret: nat)
      requires Valid()
      modifies packet
      ensures Valid()
      ensures packet[..] == if len == 0 then old(packet[..]) else NameWriter.SetU16(old(packet[..]), at, len)
      ensures ret == if len == 0 then 0 else (part + FIXED + len) % 0x1_0000
    {
      if len == 0 {
        return 0;
      }
      SetU16(at, len);
      return (part + FIXED + len) % 0x1_0000;
    }

    /** `_mdns_append_ptr_record`; a missing service is refused. */
    method AppendPtrRecord(instance: seq<byte>, service: Option<seq<byte>>, proto: seq<byte>, bye: bool) returns (ret: nat)
      requires Valid()
      modifies packet, `index
      ensures Valid()
      ensures service.None? ==> ret == 0 && packet[..] == old(packet[..]) && index == old(index)
      ensures service.Some? ==>
        Out(packet[..], index, ret) == Write(old(packet[..]), old(index), Ptr(instance, service.value, proto, bye))
    {
      if service.None? {
        return 0;
      }
      var rec := Ptr(instance, service.value, proto, bye);
      ret := AppendNamed(rec);
    }

    /** `_mdns_append_subtype_ptr_record`. */
    method AppendSubtypePtrRecord(instance: seq<byte>, subtype: seq<byte>, service: Option<seq<byte>>, proto: seq<byte>,
                                  bye: bool) returns (ret: nat)
      requires Valid()
      modifies packet, `index
      ensures Valid()
      ensures service.None? ==> ret == 0 && packet[..] == old(packet[..]) && index == old(index)
      ensures service.Some? ==>
        Out(packet[..], index, ret)
        == Write(old(packet[..]), old(index), SubtypePtr(instance, subtype, service.value, proto, bye))
    {
      if service.None? {
        return 0;
      }
      var rec := SubtypePtr(instance, subtype, service.value, proto, bye);
      ret := AppendNamed(rec);
    }

    /** `_mdns_append_sdptr_record`. */
    method AppendSdptrRecord(service: seq<byte>, proto: seq<byte>, flush: bool) returns (ret: nat)
      requires Valid()
      modifies packet, `index
      ensures Valid()
      ensures Out(packet[..], index, ret) == Write(old(packet[..]), old(index), SdPtr(service, proto, flush))
    {
      var rec := SdPtr(service, proto, flush);
      ret := AppendNamed(rec);
    }

    /** A pointer record: the data is a name. */
    method AppendNamed(rec: Record) returns (ret: nat)
      requires Valid() && (rec.Ptr? || rec.SubtypePtr? || rec.SdPtr?)
      modifies packet, `index
      ensures Valid() && Out(packet[..], index, ret) == Write(old(packet[..]), old(index), rec)
    {
      hide NameData, Owner, Inner, Code, Class, Ttl, NameWriter.SetU16;
      var part := Begin(rec);
      if part.None? {
        return 0;
      }
      var at := index - 2;
      var len := AppendName(Inner(rec));
      ret := Finish(rec, at, part.value, len);
    }

    /** `_mdns_append_txt_record`; without an instance name there is no record. */
    method AppendTxtRecord(instance: Option<seq<byte>>, service: seq<byte>, proto: seq<byte>, items: seq<TxtItem>,
                           flush: bool, bye: bool) returns (ret: nat)
      requires Valid()
      modifies packet, `index
      ensures Valid()
      ensures instance.None? ==> ret == 0 && packet[..] == old(packet[..]) && index == old(index)
      ensures instance.Some? ==>
        Out(packet[..], index, ret)
        == Write(old(packet[..]), old(index), Txt(instance.value, service, proto, items, flush, bye))
    {
      hide NameData, TxtData, NameWriter.SetU16, Owner;
      if instance.None? {
        return 0;
      }
      var rec := Txt(instance.value, service, proto, items, flush, bye);
      var part := Begin(rec);
      if part.None? {
        return 0;
      }
      var at := index - 2;
      var len := AppendTxtData(items);
      ret := Finish(rec, at, part.value, len);
    }

    /** The data of an SRV record. */
    method AppendSrvData(rec: Record) returns (len: nat)
      requires Valid() && rec.Srv?
      modifies packet, `index
      ensures Valid() && Out(packet[..], index, len) == SrvData(old(packet[..]), old(index), rec)
    {
      hide NameData, Put, U16;
      var a := AppendU16(rec.priority);
      var b := AppendU16(rec.weight);
      var c := AppendU16(rec.port);
      if a + b + c != 6 || rec.host == [] {
        return 0;
      }
      var part := AppendName([rec.host, LOCAL]);
      len := if part == 0 then 0 else part + 6;
    }

    /** `_mdns_append_srv_record`; without an instance name there is no record. */
    method AppendSrvRecord(instance: Option<seq<byte>>, service: seq<byte>, proto: seq<byte>, priority: nat, weight: nat,
                           port: nat, host: seq<byte>, flush: bool, bye: bool) returns (ret: nat)
      requires Valid() && priority < 0x1_0000 && weight < 0x1_0000 && port < 0x1_0000
      modifies packet, `index
      ensures Valid()
      ensures instance.None? ==> ret == 0 && packet[..] == old(packet[..]) && index == old(index)
      ensures instance.Some? ==>
        Out(packet[..], index, ret)
        == Write(old(packet[..]), old(index), Srv(instance.value, service, proto, priority, weight, port, host, flush, bye))
    {
      hide NameData, SrvData, NameWriter.SetU16, Owner;
      if instance.None? {
        return 0;
      }
      var rec := Srv(instance.value, service, proto, priority, weight, port, host, flush, bye);
      var part := Begin(rec);
      if part.None? {
        return 0;
      }
      var at := index - 2;
      var len := AppendSrvData(rec);
      ret := Finish(rec, at, part.value, len);
    }

    /** `_mdns_append_a_record`. */
    method AppendARecord(host: seq<byte>, ip: seq<byte>, flush: bool, bye: bool) returns (ret: nat)
      requires Valid() && |ip| == 4
      modifies packet, `index
      ensures Valid() && Out(packet[..], index, ret) == Write(old(packet[..]), old(index), A(host, ip, flush, bye))
    {
      hide NameData, NameWriter.SetU16, Owner, Put;
      if host == [] {
        return 0;
      }
      var rec := A(host, ip, flush, bye);
      var part := Begin(rec);
      if part.None? {
        return 0;
      }
      var at := index - 2;
      if index + 3 >= PACKET {
        return 0;
      }
      Copy(index, ip);
      index := index + 4;
      ret := Finish(rec, at, part.value, 4);
    }

    /** `_mdns_append_aaaa_record`. */
    method AppendAaaaRecord(host: seq<byte>, ip: seq<byte>, flush: bool, bye: bool) returns (ret: nat)
      requires Valid() && |ip| == 16
      modifies packet, `index
      ensures Valid() && Out(packet[..], index, ret) == Write(old(packet[..]), old(index), Aaaa(host, ip, flush, bye))
    {
      hide NameData, NameWriter.SetU16, Owner, Put;
      if host == [] {
        return 0;
      }
      var rec := Aaaa(host, ip, flush, bye);
      var part := Begin(rec);
      if part.None? {
        return 0;
      }
      var at := index - 2;
      if index + 16 > PACKET {
        return 0;
      }
      Copy(index, ip);
      index := index + 16;
      ret := Finish(rec, at, part.value, 16);
    }
  }
}
