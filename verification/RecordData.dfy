/** What the data of a written record means to its receiver. */
module RecordData {
  import opened Octets
  import opened NameReader
  import opened NameWriter
  import opened Records

  /** State when the record data is begun. */
  function BeforeData(mem: seq<byte>, index: nat, rec: Record): (r: Out)
    requires Memory(mem) && index <= PACKET
    ensures Memory(r.mem)
  {
    var o := Append(mem, index, Owner(rec));
    AppendType(o.mem, o.index, Code(rec), Class(rec), Ttl(rec))
  }

  /** State when the name inside the record data is begun. */
  function BeforeTarget(mem: seq<byte>, index: nat, rec: Record): (r: Out)
    requires Memory(mem) && index <= PACKET
    ensures Memory(r.mem)
  {
    var t := BeforeData(mem, index, rec);
    if !rec.Srv? then t
    else
      var a := AppendU16(t.mem, t.index, rec.priority);
      var b := AppendU16(a.mem, a.index, rec.weight);
      AppendU16(b.mem, b.index, rec.port)
  }

  /** The data of a record that was written: the state before it, and after it. */
  lemma WrittenData(mem: seq<byte>, index: nat, rec: Record)
    requires Memory(mem) && index <= PACKET && Typed(rec) && Write(mem, index, rec).ret > 0
    ensures var w, t := Write(mem, index, rec), BeforeData(mem, index, rec);
      && t.index == OwnerEnd(mem, index, rec) + FIXED < PACKET
      && var d := Data(t.mem, t.index, rec);
         d.ret > 0 && d.index == w.index && w.mem == SetU16(d.mem, t.index - 2, d.ret)
  {
    hide Append, Data, Put, Typed, SetU16, FixedPart;
  }

  /** Bytes of the data survive the length field and anything written later. */
  lemma DataKept(mem: seq<byte>, index: nat, rec: Record, later: seq<byte>)
    requires Memory(mem) && index <= PACKET && Typed(rec) && Write(mem, index, rec).ret > 0
    requires var w := Write(mem, index, rec); Same(w.mem, later, 0, w.index)
    ensures var t := BeforeData(mem, index, rec);
      var d := Data(t.mem, t.index, rec);
      t.index == OwnerEnd(mem, index, rec) + FIXED < PACKET && Kept(d.mem, later, d.index, t.index - 2)
      && d.index == Write(mem, index, rec).index && d.ret > 0
  {
    WrittenData(mem, index, rec);
    hide Append, Data, Typed, Write, BeforeData, U16;
  }

  /** Addresses and service numbers arrive as they were given. */
  lemma PlainDataReads(mem: seq<byte>, index: nat, rec: Record, later: seq<byte>)
    requires Memory(mem) && index <= PACKET && Typed(rec) && Sized(rec) && Write(mem, index, rec).ret > 0
    requires var w := Write(mem, index, rec); Same(w.mem, later, 0, w.index)
    ensures var at, end := OwnerEnd(mem, index, rec) + FIXED, Write(mem, index, rec).index;
      && (rec.A? || rec.Aaaa? ==> at <= end <= |later| && later[at..end] == rec.ip)
      && (rec.Srv? ==> at + 6 <= |later| && ReadU16(later, at) == rec.priority
                       && ReadU16(later, at + 2) == rec.weight && ReadU16(later, at + 4) == rec.port)
  {
    DataKept(mem, index, rec, later);
    var t := BeforeData(mem, index, rec);
    var d := Data(t.mem, t.index, rec);
    if rec.Srv? {
      SrvNumbers(t.mem, t.index, rec, later);
    } else if rec.A? || rec.Aaaa? {
      AddressBytes(t.mem, t.index, rec, later);
    }
  }

  lemma AddressBytes(mem: seq<byte>, index: nat, rec: Record, later: seq<byte>)
    requires Memory(mem) && 2 <= index < PACKET && (rec.A? || rec.Aaaa?) && Typed(rec)
    requires var d := Data(mem, index, rec); d.ret > 0 && Kept(d.mem, later, d.index, index - 2)
    ensures index + |rec.ip| == Data(mem, index, rec).index <= |later|
    ensures later[index..index + |rec.ip|] == rec.ip
  {
  }

  lemma SrvNumbers(mem: seq<byte>, index: nat, rec: Record, later: seq<byte>)
    requires Memory(mem) && 2 <= index < PACKET && rec.Srv? && Typed(rec) && Sized(rec)
    requires var d := SrvData(mem, index, rec); d.ret > 0 && Kept(d.mem, later, d.index, index - 2)
    ensures index + 6 <= |later| && ReadU16(later, index) == rec.priority
    ensures ReadU16(later, index + 2) == rec.weight && ReadU16(later, index + 4) == rec.port
  {
    hide U16, NameData, ReadU16;
    var a := AppendU16(mem, index, rec.priority);
    var b := AppendU16(a.mem, a.index, rec.weight);
    var c := AppendU16(b.mem, b.index, rec.port);
    assert NameSized(Inner(rec)[0]) && NameSized(Inner(rec)[1]);
    NameFrame(c.mem, c.index, [rec.host, LOCAL]);
    NumberReads(later, index, rec.priority);
    NumberReads(later, index + 2, rec.weight);
    NumberReads(later, index + 4, rec.port);
  }

  lemma NumberReads(mem: seq<byte>, at: nat, v: nat)
    requires at + 2 <= |mem| && v < 0x1_0000 && mem[at] == U16(v)[0] && mem[at + 1] == U16(v)[1]
    ensures ReadU16(mem, at) == v
  {
    U16RoundTrip(v);
  }

  /** The name inside the data is written in full, and no name it was compressed to
      runs through the record's own length field. */
  ghost predicate TargetIntact(mem: seq<byte>, index: nat, rec: Record)
    requires Memory(mem) && index <= PACKET
  {
    var b := BeforeTarget(mem, index, rec);
    && b.index <= PACKET
    && GoodName(Inner(rec))
    && Whole(b.mem, b.index, b.index, Inner(rec), OwnerEnd(mem, index, rec) + 8)
  }

  /** The written record with an intact name inside, and where that name begins. */
  ghost predicate TargetWritten(mem: seq<byte>, index: nat, rec: Record, w: Out, at: nat)
    requires Memory(mem) && index <= PACKET && Typed(rec)
  {
    && Sized(rec) && Inner(rec) != []
    && w == Write(mem, index, rec) && w.ret > 0
    && TargetIntact(mem, index, rec)
    && at == OwnerEnd(mem, index, rec) + FIXED + (if rec.Srv? then 6 else 0)
  }

  /** The name inside the data reads back and ends where the record ends. */
  lemma TargetReads(mem: seq<byte>, index: nat, rec: Record, w: Out, at: nat, later: seq<byte>, size: nat,
                    found: (Option<nat>, Name))
    requires w.index <= size < |later| && Same(w.mem, later, 0, w.index)
    requires found == Read(later, size, at, at, EMPTY_NAME)
    requires Memory(mem) && index <= PACKET && Typed(rec)
    requires TargetWritten(mem, index, rec, w, at)
    ensures found.0 == Some(w.index) && FieldsMatch(found.1, Inner(rec))
  {
    hide Read, Append, Write, Whole, GoodName, FieldsMatch;
    DataKept(mem, index, rec, later);
    var t := BeforeData(mem, index, rec);
    var b := BeforeTarget(mem, index, rec);
    TargetIsAppended(t, b, rec);
    RoundTrip(b.mem, b.index, Inner(rec), t.index - 2, later, size);
  }

  lemma TargetIsAppended(t: Out, b: Out, rec: Record)
    requires Memory(t.mem) && t.index < PACKET && Typed(rec) && Inner(rec) != []
    requires Data(t.mem, t.index, rec).ret > 0
    requires !rec.Srv? ==> b == t
    requires rec.Srv? ==>
      var a := AppendU16(t.mem, t.index, rec.priority);
      var c := AppendU16(a.mem, a.index, rec.weight);
      b == AppendU16(c.mem, c.index, rec.port)
    ensures Memory(b.mem) && b.index <= PACKET && b.index == t.index + (if rec.Srv? then 6 else 0)
    ensures var f, d := Append(b.mem, b.index, Inner(rec)), Data(t.mem, t.index, rec);
      f.mem == d.mem && f.index == d.index
  {
    hide Append, Put, U16;
  }
}
