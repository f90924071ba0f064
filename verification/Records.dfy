/** Resource records: the record writers with their length field filled in afterwards,
    and the parser's walk from record to record. */
module Records {
  import opened Octets
  import opened NameReader
  import opened NameWriter

  const SERVICES: seq<byte> := [95, 115, 101, 114, 118, 105, 99, 101, 115]
  const DNS_SD: seq<byte> := [95, 100, 110, 115, 45, 115, 100]
  const UDP: seq<byte> := [95, 117, 100, 112]

  datatype TxtItem = TxtItem(key: seq<byte>, value: Option<seq<byte>>)

  datatype Record =
    | Ptr(instance: seq<byte>, service: seq<byte>, proto: seq<byte>, bye: bool)
    | SubtypePtr(instance: seq<byte>, subtype: seq<byte>, service: seq<byte>, proto: seq<byte>, bye: bool)
    | SdPtr(service: seq<byte>, proto: seq<byte>, flush: bool)
    | Txt(instance: seq<byte>, service: seq<byte>, proto: seq<byte>, items: seq<TxtItem>, flush: bool, bye: bool)
    | Srv(instance: seq<byte>, service: seq<byte>, proto: seq<byte>, priority: nat, weight: nat, port: nat,
          host: seq<byte>, flush: bool, bye: bool)
    | A(host: seq<byte>, ip: seq<byte>, flush: bool, bye: bool)
    | Aaaa(host: seq<byte>, ip: seq<byte>, flush: bool, bye: bool)

  /** Ports are 16 bits wide, addresses have four or sixteen bytes. */
  predicate Typed(rec: Record) {
    match rec
    case Srv(_, _, _, priority, weight, port, _, _, _) => priority < 0x1_0000 && weight < 0x1_0000 && port < 0x1_0000
    case A(_, ip, _, _) => |ip| == 4
    case Aaaa(_, ip, _, _) => |ip| == 16
    case _ => true
  }

  /** The name that owns the record. */
  function Owner(rec: Record): (r: seq<seq<byte>>)
    ensures 2 <= |r| <= 5
  {
    match rec
    case Ptr(_, service, proto, _) => [service, proto, LOCAL]
    case SubtypePtr(_, subtype, service, proto, _) => [subtype, SUB, service, proto, LOCAL]
    case SdPtr(_, _, _) => [SERVICES, DNS_SD, UDP, LOCAL]
    case Txt(instance, service, proto, _, _, _) => [instance, service, proto, LOCAL]
    case Srv(instance, service, proto, _, _, _, _, _, _) => [instance, service, proto, LOCAL]
    case A(host, _, _, _) => [host, LOCAL]
    case Aaaa(host, _, _, _) => [host, LOCAL]
  }

  /** The name inside the record data, if there is one. */
  function Inner(rec: Record): (r: seq<seq<byte>>)
    ensures |r| <= 4
  {
    match rec
    case Ptr(instance, service, proto, _) => [instance, service, proto, LOCAL]
    case SubtypePtr(instance, _, service, proto, _) => [instance, service, proto, LOCAL]
    case SdPtr(service, proto, _) => [service, proto, LOCAL]
    case Srv(_, _, _, _, _, _, host, _, _) => [host, LOCAL]
    case _ => []
  }

  const TYPE_A := 0x0001
  const TYPE_PTR := 0x000C
  const TYPE_TXT := 0x0010
  const TYPE_AAAA := 0x001C
  const TYPE_SRV := 0x0021

  function Code(rec: Record): (r: nat)
    ensures r < 0x1_0000
  {
    match rec
    case Ptr(_, _, _, _) => TYPE_PTR
    case SubtypePtr(_, _, _, _, _) => TYPE_PTR
    case SdPtr(_, _, _) => TYPE_PTR
    case Txt(_, _, _, _, _, _) => TYPE_TXT
    case Srv(_, _, _, _, _, _, _, _, _) => TYPE_SRV
    case A(_, _, _, _) => TYPE_A
    case Aaaa(_, _, _, _) => TYPE_AAAA
  }

  const CLASS_IN := 0x0001
  const CLASS_IN_FLUSH_CACHE := 0x8001

  /** Pointer records never carry the cache-flush bit, except for service discovery. */
  function Class(rec: Record): (r: nat)
    ensures r < 0x1_0000
  {
    if (rec.SdPtr? || rec.Txt? || rec.Srv? || rec.A? || rec.Aaaa?) && rec.flush then CLASS_IN_FLUSH_CACHE else CLASS_IN
  }

  const PTR_TTL := 4500
  const HOST_TTL := 120

  /** A goodbye has time to live 0; the service discovery pointer ignores the bye flag. */
  function Ttl(rec: Record): (r: nat)
    ensures r < 0x1_0000_0000
  {
    if rec.SdPtr? then PTR_TTL
    else if rec.bye then 0
    else if rec.Srv? || rec.A? || rec.Aaaa? then HOST_TTL
    else PTR_TTL
  }

  // ---------------------------------------------------------------------
  // The writers.

  /** Size of type, class, time to live and length. */
  const FIXED := 10

  function FixedPart(code: nat, cls: nat, ttl: nat, len: nat): (s: seq<byte>)
    ensures |s| == FIXED
  {
    U16(code) + U16(cls) + U32(ttl) + U16(len)
  }

  /** `_mdns_append_type`. */
  function AppendType(mem: seq<byte>, index: nat, code: nat, cls: nat, ttl: nat): (r: Out)
    requires Memory(mem)
    ensures Memory(r.mem) && |r.mem| == |mem|
  {
    if index + FIXED >= PACKET then Out(mem, index, 0)
    else Out(Put(mem, index, FixedPart(code, cls, ttl, 0)), index + FIXED, FIXED)
  }

  /** "key=value", or "key" alone. */
  function EntryText(item: TxtItem): seq<byte> {
    item.key + if item.value.Some? then [EQUALS] + item.value.value else []
  }

  /** `append_one_txt_record_entry`; the length byte is the length cut to eight bits. */
  function AppendEntry(mem: seq<byte>, index: nat, item: TxtItem): (r: Out)
    requires Memory(mem)
    ensures Memory(r.mem) && |r.mem| == |mem| && (index <= PACKET ==> r.index <= PACKET)
  {
    var text := EntryText(item);
    if index + |text| + 1 >= PACKET then Out(mem, index, 0)
    else Out(Put(mem, index, [|text| % 256] + text), index + |text| + 1, |text| + 1)
  }

  /** All entries; the return value counts their bytes, None when one did not fit. */
  function AppendEntries(mem: seq<byte>, index: nat, items: seq<TxtItem>): (r: (Out, bool))
    requires Memory(mem)
    ensures Memory(r.0.mem) && |r.0.mem| == |mem| && (index <= PACKET ==> r.0.index <= PACKET)
    decreases |items|
  {
    if items == [] then (Out(mem, index, 0), true)
    else
      var e := AppendEntry(mem, index, items[0]);
      if e.ret == 0 then (e, false)
      else
        var r := AppendEntries(e.mem, e.index, items[1..]);
        (Out(r.0.mem, r.0.index, e.ret + r.0.ret), r.1)
  }

  /** The data of a TXT record: its entries, or one empty entry. */
  function TxtData(mem: seq<byte>, index: nat, items: seq<TxtItem>): (r: Out)
    requires Memory(mem) && index < PACKET
    ensures Memory(r.mem) && |r.mem| == |mem| && r.index <= PACKET
  {
    var e := AppendEntries(mem, index, items);
    if !e.1 then Out(e.0.mem, e.0.index, 0)
    else if e.0.ret == 0 then Out(Put(mem, index, [0]), index + 1, 1)
    else e.0
  }

  /** A name in the record data; its length is kept in eight bits. */
  function NameData(mem: seq<byte>, index: nat, strings: seq<seq<byte>>): (r: Out)
    requires Memory(mem) && index <= PACKET
    ensures Memory(r.mem) && |r.mem| == |mem| && r.index <= PACKET
  {
    var f := Append(mem, index, strings);
    Out(f.mem, f.index, f.ret % 256)
  }

  /** Priority, weight, port and the target host. */
  function SrvData(mem: seq<byte>, index: nat, rec: Record): (r: Out)
    requires Memory(mem) && index <= PACKET && rec.Srv?
    ensures Memory(r.mem) && |r.mem| == |mem| && r.index <= PACKET
  {
    var a := AppendU16(mem, index, rec.priority);
    var b := AppendU16(a.mem, a.index, rec.weight);
    var c := AppendU16(b.mem, b.index, rec.port);
    if a.ret + b.ret + c.ret != 6 || rec.host == [] then Out(c.mem, c.index, 0)
    else
      var f := NameData(c.mem, c.index, [rec.host, LOCAL]);
      Out(f.mem, f.index, if f.ret == 0 then 0 else f.ret + 6)
  }

  /** The record data from index on; a return value of 0 means that it did not fit. */
  function Data(mem: seq<byte>, index: nat, rec: Record): (r: Out)
    requires Memory(mem) && index < PACKET && Typed(rec)
    ensures Memory(r.mem) && |r.mem| == |mem| && r.index <= PACKET
  {
    match rec
    case Txt(_, _, _, items, _, _) => TxtData(mem, index, items)
    case Srv(_, _, _, _, _, _, _, _, _) => SrvData(mem, index, rec)
    case A(_, ip, _, _) =>
      if index + 3 >= PACKET then Out(mem, index, 0) else Out(Put(mem, index, ip), index + 4, 4)
    case Aaaa(_, ip, _, _) =>
      if index + 16 > PACKET then Out(mem, index, 0) else Out(Put(mem, index, ip), index + 16, 16)
    case _ => NameData(mem, index, Inner(rec))
  }

  /** The `_mdns_append_*_record` family: owner name, fixed part, data, and the length
      stored back into the fixed part. A record that fails leaves what it has written. */
  function Write(mem: seq<byte>, index: nat, rec: Record): (r: Out)
    requires Memory(mem) && index <= PACKET && Typed(rec)
    ensures Memory(r.mem) && |r.mem| == |mem| && r.index <= PACKET
  {
    if (rec.A? || rec.Aaaa?) && rec.host == [] then Out(mem, index, 0)
    else
      var o := NameData(mem, index, Owner(rec));
      if o.ret == 0 && !rec.SdPtr? then o
      else
        var b := Body(o.mem, o.index, rec);
        if b.ret == 0 then b else Out(b.mem, b.index, (o.ret + b.ret) % 0x1_0000)
  }

  /** What follows the owner name. */
  function Body(mem: seq<byte>, index: nat, rec: Record): (r: Out)
    requires Memory(mem) && index <= PACKET && Typed(rec)
    ensures Memory(r.mem) && |r.mem| == |mem| && r.index <= PACKET
  {
    var t := AppendType(mem, index, Code(rec), Class(rec), Ttl(rec));
    if t.ret == 0 then t
    else
      var d := Data(t.mem, t.index, rec);
      if d.ret == 0 then d
      else Out(SetU16(d.mem, t.index - 2, d.ret), d.index, t.ret + d.ret)
  }

  // ---------------------------------------------------------------------
  // Framing.

  /** Names as the interface admits them: at most 64 bytes. */
  ghost predicate NameSized(s: seq<byte>) {
    |s| <= 64
  }

  ghost predicate Sized(rec: Record) {
    && (forall i :: 0 <= i < |Owner(rec)| ==> NameSized(Owner(rec)[i]))
    && (forall i :: 0 <= i < |Inner(rec)| ==> NameSized(Inner(rec)[i]))
  }

  /** Where the fixed part of the record starts. */
  function OwnerEnd(mem: seq<byte>, index: nat, rec: Record): nat
    requires Memory(mem) && index <= PACKET
  {
    Append(mem, index, Owner(rec)).index
  }

  /** A name that ends in "local" takes fewer than 256 bytes. */
  lemma NameDataAdvances(mem: seq<byte>, index: nat, strings: seq<seq<byte>>)
    requires Memory(mem) && index <= PACKET && 2 <= |strings| <= 5
    requires forall i :: 0 <= i < |strings| ==> NameSized(strings[i])
    requires strings[|strings| - 1] == LOCAL && (|strings| == 5 ==> strings[1] == SUB)
    ensures var r := NameData(mem, index, strings); r.ret == r.index - index
  {
    hide Append;
    AppendReturnsAdvance(mem, index, strings);
    MaxByLength(strings);
  }

  lemma MaxCons(strings: seq<seq<byte>>, i: nat)
    requires i < |strings| && NameSized(strings[i])
    ensures WrittenMax(strings[i..]) <= 65 + WrittenMax(strings[i + 1..])
  {
    assert strings[i..][1..] == strings[i + 1..];
  }

  lemma MaxByLength(strings: seq<seq<byte>>)
    requires 2 <= |strings| <= 5
    requires forall i :: 0 <= i < |strings| ==> NameSized(strings[i])
    requires strings[|strings| - 1] == LOCAL && (|strings| == 5 ==> strings[1] == SUB)
    ensures WrittenMax(strings) < 256
  {
    var n := |strings|;
    assert strings[n..] == [] && strings[0..] == strings;
    assert strings[n - 1..][1..] == [] && WrittenMax(strings[n - 1..]) == 8;
    MaxCons(strings, n - 2);
    if n > 2 { MaxCons(strings, n - 3); }
    if n > 3 {
      MaxCons(strings, n - 4);
      assert strings[1..][1..] == strings[2..];
      assert n == 5 ==> WrittenMax(strings[1..]) == 5 + WrittenMax(strings[2..]);
    }
    if n > 4 { MaxCons(strings, 0); }
  }

  /** Text data: bytes below the index stay, and a count that is not zero is the advance. */
  lemma {:induction false} EntriesFrame(mem: seq<byte>, index: nat, items: seq<TxtItem>)
    requires Memory(mem) && index <= PACKET
    ensures var r := AppendEntries(mem, index, items);
      index <= r.0.index && Same(mem, r.0.mem, 0, index) && (r.1 ==> r.0.ret == r.0.index - index)
    decreases |items|
  {
    if items != [] {
      var e := AppendEntry(mem, index, items[0]);
      if e.ret != 0 {
        EntriesFrame(e.mem, e.index, items[1..]);
      }
    }
  }

  /** Record data: likewise. */
  lemma DataFrame(mem: seq<byte>, index: nat, rec: Record)
    requires Memory(mem) && index < PACKET && Typed(rec) && Sized(rec)
    ensures var d := Data(mem, index, rec);
      index <= d.index && Same(mem, d.mem, 0, index) && (d.ret > 0 ==> d.ret == d.index - index)
  {
    hide NameData, AppendEntries, U16, SrvData;
    match rec
    case Txt(_, _, _, items, _, _) => EntriesFrame(mem, index, items);
    case Srv(_, _, _, _, _, _, _, _, _) => SrvFrame(mem, index, rec);
    case A(_, _, _, _) =>
    case Aaaa(_, _, _, _) =>
    case _ => NameFrame(mem, index, Inner(rec));
  }

  lemma NameFrame(mem: seq<byte>, index: nat, strings: seq<seq<byte>>)
    requires Memory(mem) && index <= PACKET && 2 <= |strings| <= 5
    requires forall i :: 0 <= i < |strings| ==> NameSized(strings[i])
    requires strings[|strings| - 1] == LOCAL && (|strings| == 5 ==> strings[1] == SUB)
    ensures var d := NameData(mem, index, strings);
      index <= d.index && Same(mem, d.mem, 0, index) && d.ret == d.index - index
  {
    hide Append;
    AppendFrame(mem, index, strings);
    NameDataAdvances(mem, index, strings);
  }

  lemma SrvFrame(mem: seq<byte>, index: nat, rec: Record)
    requires Memory(mem) && index < PACKET && rec.Srv? && Sized(rec)
    ensures var d := SrvData(mem, index, rec);
      index <= d.index && Same(mem, d.mem, 0, index) && (d.ret > 0 ==> d.ret == d.index - index)
  {
    hide NameData, U16, Put;
    var a := AppendU16(mem, index, rec.priority);
    var b := AppendU16(a.mem, a.index, rec.weight);
    var c := AppendU16(b.mem, b.index, rec.port);
    assert NameSized(Inner(rec)[0]) && NameSized(Inner(rec)[1]);
    NameFrame(c.mem, c.index, [rec.host, LOCAL]);
  }

  /** What a written record consists of: the fixed part stands after the owner name and
      its length field counts the bytes up to the end of the record. */
  ghost predicate Framed(mem: seq<byte>, owner: nat, end: nat, rec: Record) {
    && owner + FIXED < end <= |mem|
    && mem[owner..owner + FIXED] == FixedPart(Code(rec), Class(rec), Ttl(rec), end - (owner + FIXED))
  }

  lemma SameTrans(a: seq<byte>, b: seq<byte>, c: seq<byte>, lo: nat, hi: nat, hi2: nat)
    requires Same(a, b, lo, hi) && Same(b, c, lo, hi2) && hi <= hi2
    ensures Same(a, c, lo, hi)
  {
  }

  lemma BodyFrames(mem: seq<byte>, index: nat, rec: Record)
    requires Memory(mem) && index <= PACKET && Typed(rec) && Sized(rec)
    ensures var r := Body(mem, index, rec);
      && index <= r.index
      && Same(mem, r.mem, 0, index)
      && (r.ret > 0 ==> r.ret == r.index - index && Framed(r.mem, index, r.index, rec))
  {
    hide Data, FixedPart, Sized, Typed, U16, Same, SetU16, Put, Framed;
    var t := AppendType(mem, index, Code(rec), Class(rec), Ttl(rec));
    TypeFrame(mem, index, rec);
    if t.ret != 0 {
      DataFrame(t.mem, t.index, rec);
      var d := Data(t.mem, t.index, rec);
      SameTrans(mem, t.mem, d.mem, 0, index, t.index);
      if d.ret != 0 {
        LengthFilledIn(mem, index, rec, d);
      }
    }
  }

  lemma TypeFrame(mem: seq<byte>, index: nat, rec: Record)
    requires Memory(mem) && index <= PACKET
    ensures Same(mem, AppendType(mem, index, Code(rec), Class(rec), Ttl(rec)).mem, 0, index)
  {
  }

  /** A writer that succeeds returns the index advance, leaves everything before the
      record alone and has framed it; this holds even when a name inside was cut short. */
  lemma WriteFrames(mem: seq<byte>, index: nat, rec: Record)
    requires Memory(mem) && index <= PACKET && Typed(rec) && Sized(rec)
    ensures var r := Write(mem, index, rec);
      && index <= r.index
      && Same(mem, r.mem, 0, index)
      && (r.ret > 0 ==>
            && r.ret == r.index - index
            && Framed(r.mem, OwnerEnd(mem, index, rec), r.index, rec)
            && Same(Append(mem, index, Owner(rec)).mem, r.mem, 0, OwnerEnd(mem, index, rec)))
  {
    hide Append, Body, Sized, Typed, Framed, Same, Owner;
    if (rec.A? || rec.Aaaa?) && rec.host == [] {
      assert Same(mem, mem, 0, index) by { SameSelf(mem, index); }
    } else {
      OwnerSized(rec);
      NameFrame(mem, index, Owner(rec));
      var o := NameData(mem, index, Owner(rec));
      if o.ret != 0 || rec.SdPtr? {
        BodyFrames(o.mem, o.index, rec);
        SameTrans(mem, o.mem, Body(o.mem, o.index, rec).mem, 0, index, o.index);
      }
    }
  }

  lemma SameSelf(mem: seq<byte>, hi: nat)
    requires hi <= |mem|
    ensures Same(mem, mem, 0, hi)
  {
  }

  lemma OwnerSized(rec: Record)
    requires Sized(rec)
    ensures forall i :: 0 <= i < |Owner(rec)| ==> NameSized(Owner(rec)[i])
    ensures Owner(rec)[|Owner(rec)| - 1] == LOCAL && (|Owner(rec)| == 5 ==> Owner(rec)[1] == SUB)
  {
  }

  lemma LengthFilledIn(mem: seq<byte>, owner: nat, rec: Record, d: Out)
    requires Memory(mem) && owner + FIXED < PACKET && Memory(d.mem) && 0 < d.ret < 0x1_0000
    requires d.index <= PACKET && d.ret == d.index - (owner + FIXED)
    requires Same(Put(mem, owner, FixedPart(Code(rec), Class(rec), Ttl(rec), 0)), d.mem, 0, owner + FIXED)
    ensures var r := SetU16(d.mem, owner + 8, d.ret);
      Framed(r, owner, d.index, rec) && Same(mem, r, 0, owner)
  {
    hide U16, U32, Code, Class, Ttl;
    var zero := FixedPart(Code(rec), Class(rec), Ttl(rec), 0);
    var full := FixedPart(Code(rec), Class(rec), Ttl(rec), d.ret);
    var r := SetU16(d.mem, owner + 8, d.ret);
    forall k | owner <= k < owner + FIXED ensures r[k] == full[k - owner] {
      if k < owner + 8 {
        assert zero[k - owner] == full[k - owner];
      } else {
        assert full[k - owner] == U16(d.ret)[k - owner - 8];
      }
    }
    assert r[owner..owner + FIXED] == full;
  }
}
