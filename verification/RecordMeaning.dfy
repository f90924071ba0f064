/** What the written records say, in the numbers and strings of the wire. */
module RecordMeaning {
  import opened Octets
  import opened NameReader
  import opened NameWriter
  import opened Records
  import opened RecordData
  import opened Messages

  /** Cache flush is asked for. */
  predicate AsksFlush(rec: Record) {
    match rec
    case Ptr(_, _, _, _) => false
    case SubtypePtr(_, _, _, _, _) => false
    case SdPtr(_, _, flush) => flush
    case Txt(_, _, _, _, flush, _) => flush
    case Srv(_, _, _, _, _, _, _, flush, _) => flush
    case A(_, _, flush, _) => flush
    case Aaaa(_, _, flush, _) => flush
  }

  /** The record takes something back. The service discovery pointer never does. */
  predicate IsGoodbye(rec: Record) {
    match rec
    case Ptr(_, _, _, bye) => bye
    case SubtypePtr(_, _, _, _, bye) => bye
    case SdPtr(_, _, _) => false
    case Txt(_, _, _, _, _, bye) => bye
    case Srv(_, _, _, _, _, _, _, _, bye) => bye
    case A(_, _, _, bye) => bye
    case Aaaa(_, _, _, bye) => bye
  }

  /** Type, class and time to live: 12, 16, 33, 1 and 28 for PTR, TXT, SRV, A and AAAA; class
      IN, with the top bit for cache flush; no time for a goodbye, two minutes for what
      depends on a host, 75 minutes for the rest. */
  ghost predicate Numbers(rec: Record, code: nat, cls: nat, ttl: nat) {
    && (rec.Ptr? || rec.SubtypePtr? || rec.SdPtr? ==> code == 12) && (rec.Txt? ==> code == 16)
    && (rec.Srv? ==> code == 33) && (rec.A? ==> code == 1) && (rec.Aaaa? ==> code == 28)
    && cls == (if AsksFlush(rec) then 0x8001 else 1)
    && (ttl == 0 <==> IsGoodbye(rec))
    && (ttl != 0 ==> ttl == if rec.Srv? || rec.A? || rec.Aaaa? then 120 else 4500)
  }

  /** The strings of the owner name, as host, service, proto and domain. */
  ghost predicate OwnerSays(n: Name, rec: Record) {
    var domain := [108, 111, 99, 97, 108];
    match rec
    case Ptr(_, service, proto, _) => NamedIfGood(n, [service, proto, domain])
    case SubtypePtr(_, subtype, service, proto, _) => NamedIfGood(n, [subtype, service, proto, domain])
    case SdPtr(_, _, _) =>
      Named(n, [[95, 115, 101, 114, 118, 105, 99, 101, 115], [95, 100, 110, 115, 45, 115, 100], [95, 117, 100, 112], domain])
    case Txt(instance, service, proto, _, _, _) => NamedIfGood(n, [instance, service, proto, domain])
    case Srv(instance, service, proto, _, _, _, _, _, _) => NamedIfGood(n, [instance, service, proto, domain])
    case A(host, _, _, _) => NamedIfGood(n, [host, domain])
    case Aaaa(host, _, _, _) => NamedIfGood(n, [host, domain])
  }

  ghost predicate NamedIfGood(n: Name, strings: seq<seq<byte>>)
    requires 2 <= |strings| <= 4
  {
    GoodName(strings) ==> Named(n, strings)
  }

  lemma NumbersAre(rec: Record)
    ensures Numbers(rec, Code(rec), Class(rec), Ttl(rec))
  {
  }

  /** _services._dns-sd._udp.local is a good name. */
  lemma DiscoveryIsGood()
    ensures GoodName([SERVICES, DNS_SD, UDP, LOCAL])
  {
    assert Lower(SERVICES[1]) == Lower(SUB[1]) && |SERVICES| != |SUB| && |DNS_SD| != |SUB| && |LOCAL| != |SUB|;
    assert Lower(UDP[2]) != Lower(SUB[2]);
  }

  lemma OwnerIs(n: Name, rec: Record)
    requires GoodName(NameOf(rec)) ==> Named(n, NameOf(rec))
    ensures OwnerSays(n, rec)
  {
    hide GoodName, Named;
    DiscoveryIsGood();
  }

  /** Every record that is written carries these numbers behind its owner name, however that
      name was compressed. */
  lemma WrittenNumbers(mem: seq<byte>, index: nat, rec: Record, later: seq<byte>)
    requires Memory(mem) && index <= PACKET && Typed(rec) && Sized(rec) && Write(mem, index, rec).ret > 0
    requires var w := Write(mem, index, rec); Same(w.mem, later, 0, w.index)
    ensures var o := OwnerEnd(mem, index, rec);
      && o + 10 <= |later|
      && Numbers(rec, ReadU16(later, o), ReadU16(later, o + 2), ReadU32(later, o + 4))
  {
    hide Write, Append, Numbers, Code, Class, Ttl, ReadU16, ReadU32, FixedPart, Typed, Sized;
    NumbersAre(rec);
    var w, o := Write(mem, index, rec), OwnerEnd(mem, index, rec);
    WriteFrames(mem, index, rec);
    assert later[o..o + FIXED] == w.mem[o..o + FIXED];
    FixedReads(later, o, Code(rec), Class(rec), Ttl(rec), w.index - (o + FIXED));
  }

  lemma {:induction false} SeenSays(mem: seq<byte>, index: nat, recs: seq<Record>, found: seq<Parsed>, i: nat)
    requires Memory(mem) && index <= PACKET && |found| == |recs| && forall i :: 0 <= i < |recs| ==> Typed(recs[i])
    requires i < |recs| && Seen(mem, index, recs, found)
    ensures Numbers(recs[i], found[i].code, found[i].cls, found[i].ttl) && OwnerSays(found[i].name, recs[i])
    decreases |recs|
  {
    hide Write, Numbers, OwnerSays, Typed, GoodName, Named;
    if i == 0 {
      NumbersAre(recs[0]);
      OwnerIs(found[0].name, recs[0]);
    } else {
      var w := Write(mem, index, recs[0]);
      SeenSays(w.mem, w.index, recs[1..], found[1..], i - 1);
    }
  }

  /** What the parser's walk finds is each of the written records, with these numbers and
      the strings of its owner. */
  lemma WalkSays(mem: seq<byte>, index: nat, recs: seq<Record>, later: seq<byte>, i: nat)
    requires Memory(mem) && index <= PACKET && (forall i :: 0 <= i < |recs| ==> Typed(recs[i]))
    requires AllIntact(mem, index, recs) && i < |recs|
    requires var w := WriteAll(mem, index, recs); w.index < |later| && Same(w.mem, later, 0, w.index)
    ensures var found := Walk(later, WriteAll(mem, index, recs).index, index).0;
      && |found| == |recs|
      && Numbers(recs[i], found[i].code, found[i].cls, found[i].ttl) && OwnerSays(found[i].name, recs[i])
  {
    hide Write, WriteAll, Walk, AllIntact, Seen, Numbers, OwnerSays, Typed;
    WalkFindsRecords(mem, index, recs, later);
    SeenSays(mem, index, recs, Walk(later, WriteAll(mem, index, recs).index, index).0, i);
  }

  /** The name inside a record: of a PTR record the instance in its service, of the service
      discovery pointer the service, of a SRV record the host. */
  lemma TargetSays(mem: seq<byte>, index: nat, rec: Record, w: Out, at: nat, later: seq<byte>, size: nat,
                   found: (Option<nat>, Name))
    requires w.index <= size < |later| && Same(w.mem, later, 0, w.index)
    requires found == Read(later, size, at, at, EMPTY_NAME)
    requires Memory(mem) && index <= PACKET && Typed(rec)
    requires TargetWritten(mem, index, rec, w, at)
    ensures found.0 == Some(w.index)
    ensures var domain := [108, 111, 99, 97, 108];
      match rec
      case Ptr(instance, service, proto, _) => FieldsMatch(found.1, [instance, service, proto, domain])
      case SubtypePtr(instance, _, service, proto, _) => FieldsMatch(found.1, [instance, service, proto, domain])
      case SdPtr(service, proto, _) => FieldsMatch(found.1, [service, proto, domain])
      case Srv(_, _, _, _, _, _, host, _, _) => FieldsMatch(found.1, [host, domain])
      case _ => true
  {
    hide Read, Write, FieldsMatch, TargetIntact;
    TargetReads(mem, index, rec, w, at, later, size, found);
  }

  // ---------------------------------------------------------------------
  // The parser's view of a record.

  /** A record is malformed exactly when its name cannot be read, when its ten bytes of fixed
      part run over the end, or when its data do. Its numbers stand in network order. */
  lemma RecordAtMeans(packet: seq<byte>, size: nat, at: nat)
    requires size < |packet| && at < size
    ensures var name, r := Parse(packet, size, at), RecordAt(packet, size, at);
      if name.0.None? || name.0.value + 10 > size then r.None?
      else
        var c := name.0.value;
        var len := Number(packet, c + 8, 2);
        if c + 10 + len > size then r.None?
        else
          r == Some(Parsed(name.1, Number(packet, c, 2), Number(packet, c + 2, 2), Number(packet, c + 4, 4), c + 10, len))
  {
    hide Parse;
    var name := Parse(packet, size, at);
    if name.0.Some? && name.0.value + 10 <= size {
      var c := name.0.value;
      TwoBytes(packet, c);
      TwoBytes(packet, c + 2);
      TwoBytes(packet, c + 8);
      FourBytes(packet, c + 4);
    }
  }

  /** Where record i of those that were found begins: behind the data of the one before it. */
  function Begins(found: seq<Parsed>, at: nat, i: nat): nat
    requires i <= |found|
  {
    if i == 0 then at else found[i - 1].data + found[i - 1].len
  }

  /** The walk finds the record at each of these offsets, up to the end of the packet or the
      first malformed record. */
  lemma {:induction false} WalkMeans(packet: seq<byte>, size: nat, at: nat, i: nat)
    requires size < |packet| && at <= size && i <= |Walk(packet, size, at).0|
    ensures var (found, whole) := Walk(packet, size, at);
      var begin := Begins(found, at, i);
      if i < |found| then begin < size && RecordAt(packet, size, begin) == Some(found[i])
      else if begin == size then whole
      else begin < size && !whole && RecordAt(packet, size, begin).None?
    decreases i
  {
    hide RecordAt;
    if i > 0 {
      var rec := RecordAt(packet, size, at).value;
      var next := rec.data + rec.len;
      WalkMeans(packet, size, next, i - 1);
      BeginsBehind(rec, Walk(packet, size, next).0, at, next, i);
    }
  }

  lemma BeginsBehind(rec: Parsed, rest: seq<Parsed>, at: nat, next: nat, i: nat)
    requires next == rec.data + rec.len && 0 < i <= 1 + |rest|
    ensures Begins([rec] + rest, at, i) == Begins(rest, next, i - 1)
  {
  }

  /** The number in n bytes, most significant byte first. */
  function Number(mem: seq<byte>, at: nat, n: nat): nat
    requires at + n <= |mem|
  {
    if n == 0 then 0 else 256 * Number(mem, at, n - 1) + mem[at + n - 1]
  }

  lemma TwoBytes(mem: seq<byte>, at: nat)
    requires at + 2 <= |mem|
    ensures ReadU16(mem, at) == Number(mem, at, 2)
  {
    assert Number(mem, at, 1) == mem[at];
  }

  lemma FourBytes(mem: seq<byte>, at: nat)
    requires at + 4 <= |mem|
    ensures ReadU32(mem, at) == Number(mem, at, 4)
  {
    TwoBytes(mem, at);
    assert Number(mem, at, 3) == 256 * Number(mem, at, 2) + mem[at + 2];
  }

  // ---------------------------------------------------------------------
  // Room.

  /** Numbers are written in network order if they end by the end of the packet. */
  lemma NumbersInOrder(mem: seq<byte>, index: nat, value: nat)
    requires Memory(mem) && index <= 1460
    ensures var r := AppendU8(mem, index, value % 256);
      if index + 1 <= 1460 then r == Out(mem[index := value % 256], index + 1, 1) else r == Out(mem, index, 0)
    ensures var r := AppendU16(mem, index, value);
      if index + 2 <= 1460 then r == Out(mem[index := (value / 256) % 256][index + 1 := value % 256], index + 2, 2)
      else r == Out(mem, index, 0)
    ensures var r := AppendU32(mem, index, value);
      if index + 4 <= 1460 then
        r == Out(mem[index := (value / 0x100_0000) % 256][index + 1 := (value / 0x1_0000) % 256]
                    [index + 2 := (value / 256) % 256][index + 3 := value % 256], index + 4, 4)
      else r == Out(mem, index, 0)
  {
  }

  /** A label, the fixed part and a TXT entry are written if they end before the last byte. */
  lemma RoomForParts(mem: seq<byte>, index: nat, word: seq<byte>, rec: Record, item: TxtItem)
    requires Memory(mem) && index <= 1460 && |word| <= 63
    ensures AppendString(mem, index, word).ret == if index + 1 + |word| < 1460 then 1 + |word| else 0
    ensures AppendType(mem, index, Code(rec), Class(rec), Ttl(rec)).ret == if index + 10 < 1460 then 10 else 0
    ensures var n := |item.key| + if item.value.Some? then 1 + |item.value.value| else 0;
      AppendEntry(mem, index, item).ret == if index + 1 + n < 1460 then 1 + n else 0
  {
  }

  /** Addresses are written if they end by the end of the packet; a SRV record without a
      host never is. */
  lemma RoomForData(mem: seq<byte>, index: nat, rec: Record)
    requires Memory(mem) && index < 1460 && Typed(rec)
    ensures rec.A? ==> Data(mem, index, rec).ret == if index + 4 <= 1460 then 4 else 0
    ensures rec.Aaaa? ==> Data(mem, index, rec).ret == if index + 16 <= 1460 then 16 else 0
    ensures rec.Srv? && rec.host == [] ==> Data(mem, index, rec).ret == 0
  {
  }

  /** A name that has room is written to its end. */
  lemma {:induction false} NameFits(mem: seq<byte>, index: nat, strings: seq<seq<byte>>)
    requires Memory(mem) && index + WrittenMax(strings) < 1460
    requires forall i :: 0 <= i < |strings| ==> |strings[i]| < 255
    ensures 0 < Append(mem, index, strings).ret <= WrittenMax(strings)
    ensures Append(mem, index, strings).index <= index + WrittenMax(strings)
    decreases |strings|
  {
    hide Accepts, FindMatch, Put;
    AppendReturnsAdvance(mem, index, strings);
    if strings != [] && FindMatch(mem, 0, index, strings).None? {
      var w := AppendString(mem, index, strings[0]);
      StringReturnsAdvance(mem, index, strings[0]);
      NameFits(w.mem, w.index, strings[1..]);
      AppendFrame(w.mem, w.index, strings[1..]);
    }
  }

  /** What the entries take. */
  function EntriesSpace(items: seq<TxtItem>): nat {
    if items == [] then 0 else 1 + |EntryText(items[0])| + EntriesSpace(items[1..])
  }

  lemma {:induction false} EntriesFit(mem: seq<byte>, index: nat, items: seq<TxtItem>)
    requires Memory(mem) && index + EntriesSpace(items) < 1460
    ensures AppendEntries(mem, index, items).1 && AppendEntries(mem, index, items).0.ret == EntriesSpace(items)
    decreases |items|
  {
    hide EntryText, Put;
    if items != [] {
      var e := AppendEntry(mem, index, items[0]);
      EntriesFit(e.mem, e.index, items[1..]);
    }
  }

  /** The most that the record can take: both names spelt out, the fixed part and the rest. */
  ghost function Space(rec: Record): nat {
    WrittenMax(Owner(rec)) + 10
    + match rec
      case Txt(_, _, _, items, _, _) => if items == [] then 1 else EntriesSpace(items)
      case Srv(_, _, _, _, _, _, _, _, _) => 6 + WrittenMax(Inner(rec))
      case A(_, _, _, _) => 4
      case Aaaa(_, _, _, _) => 16
      case _ => WrittenMax(Inner(rec))
  }

  /** An address record without a host is refused ... */
  lemma NoHostNoAddress(mem: seq<byte>, index: nat, rec: Record)
    requires Memory(mem) && index <= PACKET && Typed(rec) && (rec.A? || rec.Aaaa?) && rec.host == []
    ensures Write(mem, index, rec) == Out(mem, index, 0)
  {
  }

  lemma OwnerFits(mem: seq<byte>, index: nat, strings: seq<seq<byte>>)
    requires Memory(mem) && index + WrittenMax(strings) < 1460 && 2 <= |strings| <= 5
    requires forall i :: 0 <= i < |strings| ==> NameSized(strings[i])
    requires strings[|strings| - 1] == LOCAL && (|strings| == 5 ==> strings[1] == SUB)
    ensures 0 < NameData(mem, index, strings).ret < 256
    ensures NameData(mem, index, strings).index <= index + WrittenMax(strings)
  {
    hide Append, WrittenMax, LabelSized;
    MaxByLength(strings);
    NamesAreShort(strings);
    NameFits(mem, index, strings);
  }

  lemma NamesAreShort(strings: seq<seq<byte>>)
    requires forall i :: 0 <= i < |strings| ==> NameSized(strings[i])
    ensures forall i :: 0 <= i < |strings| ==> |strings[i]| < 255
  {
  }

  lemma DataFits(mem: seq<byte>, index: nat, rec: Record)
    requires Memory(mem) && Typed(rec) && Sized(rec) && (rec.Srv? ==> rec.host != [])
    requires index + Space(rec) - WrittenMax(Owner(rec)) - 10 < 1460 && index < PACKET
    ensures Data(mem, index, rec).ret > 0
  {
    hide NameData, EntryText, Put, AppendEntry;
    match rec
    case Txt(_, _, _, items, _, _) => EntriesFit(mem, index, items);
    case Srv(_, _, _, priority, weight, port, host, _, _) =>
      assert NameSized(Inner(rec)[0]) && NameSized(Inner(rec)[1]);
      var a := AppendU16(mem, index, priority);
      var b := AppendU16(a.mem, a.index, weight);
      var c := AppendU16(b.mem, b.index, port);
      OwnerFits(c.mem, c.index, [host, LOCAL]);
    case A(_, _, _, _) =>
    case Aaaa(_, _, _, _) =>
    case _ => OwnerFits(mem, index, Inner(rec));
  }

  /** ... and every other record that has room is written. */
  lemma RecordFits(mem: seq<byte>, index: nat, rec: Record)
    requires Memory(mem) && Typed(rec) && Sized(rec) && index + Space(rec) < 1460
    requires rec.A? || rec.Aaaa? || rec.Srv? ==> rec.host != []
    ensures Write(mem, index, rec).ret > 0
  {
    hide Append, NameData, Data, FixedPart, Put, U16, Sized, WrittenMax, Typed, Owner, Code, Class, Ttl;
    OwnerSized(rec);
    OwnerFits(mem, index, Owner(rec));
    var o := NameData(mem, index, Owner(rec));
    var t := AppendType(o.mem, o.index, Code(rec), Class(rec), Ttl(rec));
    DataFits(t.mem, t.index, rec);
    DataFrame(t.mem, t.index, rec);
  }
}
