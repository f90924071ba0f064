/** Whole messages: the parser's walk over a sequence of written records, and what it
    finds in each of them. */
module Messages {
  import opened Octets
  import opened NameReader
  import opened NameWriter
  import opened Records

  /** One record as the parser sees it. */
  datatype Parsed = Parsed(name: Name, code: nat, cls: nat, ttl: nat, data: nat, len: nat)

  /** The record at offset at, unless its name or its length runs over the end. */
  function RecordAt(packet: seq<byte>, size: nat, at: nat): (r: Option<Parsed>)
    requires size < |packet| && at < size
    ensures r.Some? ==> at < r.value.data && r.value.data + r.value.len <= size
  {
    var p := Parse(packet, size, at);
    if p.0.None? || p.0.value + 9 >= size then None
    else
      var c := p.0.value;
      var rec := Parsed(p.1, ReadU16(packet, c), ReadU16(packet, c + 2), ReadU32(packet, c + 4),
                        c + FIXED, ReadU16(packet, c + 8));
      if rec.data + rec.len > size then None else Some(rec)
  }

  /** The record walk of `mdns_parse_packet`: the records found, and whether the walk
      ended at the end of the packet rather than on malformed input. */
  function Walk(packet: seq<byte>, size: nat, at: nat): (r: (seq<Parsed>, bool))
    requires size < |packet|
    decreases size - at
  {
    if at >= size then ([], true)
    else
      match RecordAt(packet, size, at)
      case None => ([], false)
      case Some(rec) =>
        var r := Walk(packet, size, rec.data + rec.len);
        ([rec] + r.0, r.1)
  }

  /** Records written one after the other. */
  function WriteAll(mem: seq<byte>, index: nat, recs: seq<Record>): (r: Out)
    requires Memory(mem) && index <= PACKET && forall i :: 0 <= i < |recs| ==> Typed(recs[i])
    ensures Memory(r.mem) && |r.mem| == |mem| && r.index <= PACKET
    decreases |recs|
  {
    if recs == [] then Out(mem, index, 0)
    else
      var w := Write(mem, index, recs[0]);
      WriteAll(w.mem, w.index, recs[1..])
  }

  /** The labels of the owner name fit their length bytes. */
  ghost predicate OwnerLabels(rec: Record) {
    forall i :: 0 <= i < |Owner(rec)| ==> LabelSized(Owner(rec)[i])
  }

  /** The record is written with its owner name in full. */
  ghost predicate Intact(mem: seq<byte>, index: nat, rec: Record)
    requires Memory(mem) && index <= PACKET && Typed(rec)
  {
    && Sized(rec) && OwnerLabels(rec)
    && Write(mem, index, rec).ret > 0
    && Whole(mem, index, index, Owner(rec), NO_HOLE)
  }

  ghost predicate AllIntact(mem: seq<byte>, index: nat, recs: seq<Record>)
    requires Memory(mem) && index <= PACKET && forall i :: 0 <= i < |recs| ==> Typed(recs[i])
    decreases |recs|
  {
    recs == [] ||
    (Intact(mem, index, recs[0])
     && var w := Write(mem, index, recs[0]); AllIntact(w.mem, w.index, recs[1..]))
  }

  /** The strings that the parser should find as the name of the record. */
  function NameOf(rec: Record): (r: seq<seq<byte>>)
    ensures 2 <= |r| <= 4
  {
    if rec.SubtypePtr? then [rec.subtype, rec.service, rec.proto, LOCAL] else Owner(rec)
  }

  /** The parsed name carries those strings in the places of host, service, proto, domain. */
  ghost predicate Named(n: Name, strings: seq<seq<byte>>)
    requires 2 <= |strings| <= 4
  {
    && |n.fields| == FIELDS
    && (|strings| == 4 ==> forall i :: 0 <= i < 4 ==> EqNoCase(strings[i], n.fields[i]))
    && (|strings| == 3 ==> n.fields[0] == [] && forall i :: 0 <= i < 3 ==> EqNoCase(strings[i], n.fields[i + 1]))
    && (|strings| == 2 ==> EqNoCase(strings[0], n.fields[0]) && n.fields[1] == n.fields[2] == []
                           && EqNoCase(strings[1], n.fields[3]))
  }

  /** A subtype's owner name reads back without its marker, which raises the sub flag. */
  lemma SubtypeRoundTrip(mem: seq<byte>, index: nat, rec: Record, later: seq<byte>, size: nat)
    requires Memory(mem) && index <= PACKET && rec.SubtypePtr? && GoodName(NameOf(rec))
    requires Whole(mem, index, index, Owner(rec), NO_HOLE)
    requires var w := Append(mem, index, Owner(rec)); w.index <= size < |later| && Same(w.mem, later, 0, w.index)
    ensures var w, r := Append(mem, index, Owner(rec)), Read(later, size, index, index, EMPTY_NAME);
      r.0 == Some(w.index) && FieldsMatch(r.1, NameOf(rec)) && r.1.sub
  {
    hide Read, Append, Decode, FieldsMatch, GoodName, Spelling, AppendString;
    var strings := NameOf(rec);
    SubtypeLabels(rec);
    DecodeWritten(mem, index, index, Owner(rec), NO_HOLE, later, size);
    ReadIsFold(later, size, index, index, EMPTY_NAME);
    SubtypeSpelling(mem, index, rec);
    var a := AppendString(mem, index, rec.subtype);
    var b := AppendString(a.mem, a.index, SUB);
    var n := Name([rec.subtype, [], [], []], 1, true, false);
    assert Holds(n, strings, 1);
    FoldSpelling(b.mem, index, b.index, strings, NO_HOLE, 1, n);
    var rest := Spelling(b.mem, index, b.index, strings[1..], NO_HOLE);
    FlagsStay(rest, n);
    FoldMarker(rec, rest);
  }

  /** The subtype and the marker are spelled out, whatever comes before. */
  lemma SubtypeSpelling(mem: seq<byte>, index: nat, rec: Record)
    requires Memory(mem) && index <= PACKET && rec.SubtypePtr?
    requires Whole(mem, index, index, Owner(rec), NO_HOLE)
    ensures var a := AppendString(mem, index, rec.subtype);
      var b := AppendString(a.mem, a.index, SUB);
      && Whole(b.mem, index, b.index, NameOf(rec)[1..], NO_HOLE)
      && Spelling(mem, index, index, Owner(rec), NO_HOLE)
         == [Label(rec.subtype)] + ([Label(SUB)] + Spelling(b.mem, index, b.index, NameOf(rec)[1..], NO_HOLE))
  {
    hide FindMatch, AppendString;
    NoMarkerMatch(mem, index, rec);
    var a := AppendString(mem, index, rec.subtype);
    assert Owner(rec)[1..] == [SUB, rec.service, rec.proto, LOCAL];
    NoSubMatch(a.mem, a.index, rec);
    assert Owner(rec)[1..][1..] == NameOf(rec)[1..];
  }

  lemma SubtypeLabels(rec: Record)
    requires rec.SubtypePtr? && GoodName(NameOf(rec))
    ensures forall i :: 0 <= i < |Owner(rec)| ==> LabelSized(Owner(rec)[i])
  {
    assert forall i :: 0 <= i < 4 ==> LabelSized(NameOf(rec)[i]);
    assert LabelSized(NameOf(rec)[0]) && LabelSized(NameOf(rec)[1]) && LabelSized(NameOf(rec)[2])
        && LabelSized(NameOf(rec)[3]);
  }

  /** Five strings are never taken for an earlier name, the structure holds only four. */
  lemma NoMarkerMatch(mem: seq<byte>, index: nat, rec: Record)
    requires Memory(mem) && index <= PACKET && rec.SubtypePtr?
    ensures FindMatch(mem, 0, index, Owner(rec)).None?
  {
    forall k | 0 <= k < index ensures !Accepts(mem, k, Owner(rec)) {
      assert Read(mem, PACKET, k, k, EMPTY_NAME).1.parts <= FIELDS;
    }
  }

  /** No name that begins with the marker is taken over either: the marker is not stored. */
  lemma NoSubMatch(mem: seq<byte>, index: nat, rec: Record)
    requires Memory(mem) && index <= PACKET && rec.SubtypePtr?
    ensures FindMatch(mem, 0, index, [SUB, rec.service, rec.proto, LOCAL]).None?
  {
    var strings := [SUB, rec.service, rec.proto, LOCAL];
    forall k | 0 <= k < index ensures !Accepts(mem, k, strings) {
      SubNeverStored(mem, k, strings);
    }
  }

  lemma SubNeverStored(mem: seq<byte>, loc: nat, strings: seq<seq<byte>>)
    requires Memory(mem) && loc < PACKET && strings != [] && strings[0] == SUB && |strings| <= FIELDS
    ensures !Accepts(mem, loc, strings)
  {
    hide Accepts;
    ReadIsFold(mem, PACKET, loc, loc, EMPTY_NAME);
    AcceptedHost(mem, loc, strings);
    if Decode(mem, PACKET, loc, loc).Some? {
      var ts := Decode(mem, PACKET, loc, loc).value.tokens;
      FoldStaysFine(ts, EMPTY_NAME);
      FineIsNotSub(Fold(ts, EMPTY_NAME));
    }
  }

  lemma AcceptedHost(mem: seq<byte>, loc: nat, strings: seq<seq<byte>>)
    requires Memory(mem) && loc < PACKET && strings != []
    ensures Accepts(mem, loc, strings) ==>
      var r := Read(mem, PACKET, loc, loc, EMPTY_NAME); r.0.Some? && EqNoCase(strings[0], r.1.fields[0])
  {
  }

  /** The host is empty, or joined with a dot, or a label other than the marker. */
  ghost predicate HostFine(n: Name)
    requires WellFormed(n)
  {
    var host := n.fields[0];
    (n.parts == 0 && host == []) || DOT in host || (|host| <= 63 && !EqNoCase(SUB, host))
  }

  lemma HostStaysFine(t: Token, n: Name)
    requires WellFormed(n) && (t.Label? ==> 0 < |t.text| <= 63) && HostFine(n)
    ensures HostFine(Step(t, n))
  {
    if t.Label? && n.parts == 1 && t.text[0] != UNDERSCORE && !Reserved(CStr(t.text)) {
      var dotted := Concat(n.fields[0], [DOT]);
      if DOT in n.fields[0] {
        var i :| 0 <= i < |n.fields[0]| && n.fields[0][i] == DOT;
        assert dotted[i] == DOT;
        assert Step(t, n).fields[0][i] == DOT;
      } else {
        assert dotted[|n.fields[0]|] == DOT;
        assert Step(t, n).fields[0][|n.fields[0]|] == DOT;
      }
    } else if t.Label? && n.parts == 0 {
      assert EqNoCase(SUB, CStr(t.text)) ==> EqNoCase(CStr(t.text), SUB);
    }
  }

  lemma {:induction false} FoldStaysFine(ts: seq<Token>, n: Name)
    requires WellFormed(n) && GoodTokens(ts) && HostFine(n)
    ensures HostFine(Fold(ts, n))
  {
    if ts != [] {
      HostStaysFine(ts[0], n);
      FoldStaysFine(ts[1..], Step(ts[0], n));
    }
  }

  lemma FineIsNotSub(n: Name)
    requires WellFormed(n) && HostFine(n)
    ensures !EqNoCase(SUB, n.fields[0])
  {
    var host := n.fields[0];
    if DOT in host {
      var i :| 0 <= i < |host| && host[i] == DOT;
      assert |host| == 4 ==> Lower(host[i]) != Lower(SUB[i]);
    }
  }

  lemma FoldMarker(rec: Record, rest: seq<Token>)
    requires rec.SubtypePtr? && GoodName(NameOf(rec)) && GoodTokens(rest)
    ensures LabelSized(rec.subtype) && GoodTokens([Label(rec.subtype)] + ([Label(SUB)] + rest))
    ensures Fold([Label(rec.subtype)] + ([Label(SUB)] + rest), EMPTY_NAME)
         == Fold(rest, Name([rec.subtype, [], [], []], 1, true, false))
  {
    var tail := [Label(SUB)] + rest;
    StoreFresh(NameOf(rec), 0);
    assert LabelSized(NameOf(rec)[0]);
    assert tail[1..] == rest && ([Label(rec.subtype)] + tail)[1..] == tail;
    CStrOfNulFree(SUB);
  }

  /** The reader's view of the owner name. */
  lemma OwnerReads(mem: seq<byte>, index: nat, rec: Record, later: seq<byte>, size: nat, found: (Option<nat>, Name))
    requires Memory(mem) && index <= PACKET && Whole(mem, index, index, Owner(rec), NO_HOLE) && OwnerLabels(rec)
    requires var w := Append(mem, index, Owner(rec)); w.index <= size < |later| && Same(w.mem, later, 0, w.index)
    requires found == Read(later, size, index, index, EMPTY_NAME)
    ensures found.0 == Some(OwnerEnd(mem, index, rec))
    ensures GoodName(NameOf(rec)) ==> FieldsMatch(found.1, NameOf(rec))
  {
    hide Read, Append, Decode, Whole, GoodName, EqNoCase, FieldsMatch;
    DecodeWritten(mem, index, index, Owner(rec), NO_HOLE, later, size);
    ReadIsFold(later, size, index, index, EMPTY_NAME);
    if GoodName(NameOf(rec)) {
      if rec.SubtypePtr? {
        SubtypeRoundTrip(mem, index, rec, later, size);
      } else {
        RoundTrip(mem, index, Owner(rec), NO_HOLE, later, size);
      }
    }
  }

  /** The parser reads the owner name of an intact record up to the record's fixed part,
      and finds the asked-for strings in their places. */
  lemma OwnerParses(mem: seq<byte>, index: nat, rec: Record, later: seq<byte>, size: nat)
    requires Memory(mem) && index <= PACKET && Typed(rec) && Intact(mem, index, rec)
    requires var w := Append(mem, index, Owner(rec)); w.index <= size < |later| && Same(w.mem, later, 0, w.index)
    ensures Parse(later, size, index).0 == Some(OwnerEnd(mem, index, rec))
    ensures GoodName(NameOf(rec)) ==> Named(Parse(later, size, index).1, NameOf(rec))
  {
    hide Read, Append, Whole, Write, GoodName, Typed, FieldsMatch, Named, OwnerEnd, NameOf, Owner;
    OwnerReads(mem, index, rec, later, size, Read(later, size, index, index, EMPTY_NAME));
    if GoodName(NameOf(rec)) {
      FoundIsNamed(later, size, index, NameOf(rec));
    }
  }

  lemma FoundIsNamed(packet: seq<byte>, size: nat, at: nat, strings: seq<seq<byte>>)
    requires size < |packet| && 2 <= |strings| <= 4
    requires FieldsMatch(Read(packet, size, at, at, EMPTY_NAME).1, strings)
    requires Read(packet, size, at, at, EMPTY_NAME).0.Some?
    ensures Named(Parse(packet, size, at).1, strings)
  {
    hide Read, EqNoCase;
    ReadIsFold(packet, size, at, at, EMPTY_NAME);
    InvalidIsFull(Decode(packet, size, at, at).value.tokens, EMPTY_NAME);
  }

  /** Reading the fixed part back. */
  lemma FixedReads(mem: seq<byte>, at: nat, code: nat, cls: nat, ttl: nat, len: nat)
    requires at + FIXED <= |mem| && code < 0x1_0000 && cls < 0x1_0000 && ttl < 0x1_0000_0000 && len < 0x1_0000
    requires mem[at..at + FIXED] == FixedPart(code, cls, ttl, len)
    ensures ReadU16(mem, at) == code && ReadU16(mem, at + 2) == cls
    ensures ReadU32(mem, at + 4) == ttl && ReadU16(mem, at + 8) == len
  {
    hide U16, U32, ReadU32;
    var f := FixedPart(code, cls, ttl, len);
    assert forall k :: 0 <= k < FIXED ==> mem[at + k] == mem[at..at + FIXED][k] == f[k];
    assert f[0..2] == U16(code) && f[2..4] == U16(cls) && f[4..8] == U32(ttl) && f[8..10] == U16(len);
    U16RoundTrip(code);
    U16RoundTrip(cls);
    U16RoundTrip(len);
    U32RoundTrip(ttl);
    assert mem[at] == U16(code)[0] && mem[at + 1] == U16(code)[1];
    assert mem[at + 2] == U16(cls)[0] && mem[at + 3] == U16(cls)[1];
    assert mem[at + 8] == U16(len)[0] && mem[at + 9] == U16(len)[1];
    SameU32(mem, at + 4, U32(ttl));
  }

  lemma SameU32(mem: seq<byte>, at: nat, four: seq<byte>)
    requires at + 4 <= |mem| && |four| == 4
    requires forall k :: 0 <= k < 4 ==> mem[at + k] == four[k]
    ensures ReadU32(mem, at) == ReadU32(four, 0)
  {
    assert mem[at + 0] == four[0] && mem[at + 1] == four[1] && mem[at + 2] == four[2] && mem[at + 3] == four[3];
  }

  /** One step of the walk lands exactly behind an intact record. */
  ghost predicate SeenAs(p: Parsed, rec: Record, owner: nat, end: nat) {
    && p.code == Code(rec) && p.cls == Class(rec) && p.ttl == Ttl(rec)
    && p.data == owner + FIXED && p.data + p.len == end
    && (GoodName(NameOf(rec)) ==> Named(p.name, NameOf(rec)))
  }

  lemma WalkStep(mem: seq<byte>, index: nat, rec: Record, later: seq<byte>, size: nat)
    requires Memory(mem) && index <= PACKET && Typed(rec) && Intact(mem, index, rec)
    requires var w := Write(mem, index, rec); w.index <= size < |later| && Same(w.mem, later, 0, w.index)
    ensures var w := Write(mem, index, rec);
      var r, rest := Walk(later, size, index), Walk(later, size, w.index);
      && index < w.index && r.1 == rest.1 && |r.0| == |rest.0| + 1 && r.0[1..] == rest.0
      && SeenAs(r.0[0], rec, OwnerEnd(mem, index, rec), w.index)
  {
    hide Write, Append, Parse, Whole, Sized, Typed, Named, GoodName, Read, FixedPart, Code, Class, Ttl, ReadU16, ReadU32;
    var w := Write(mem, index, rec);
    WriteFrames(mem, index, rec);
    var o := OwnerEnd(mem, index, rec);
    AppendFrame(mem, index, Owner(rec));
    SameTrans(Append(mem, index, Owner(rec)).mem, w.mem, later, 0, o, w.index);
    OwnerParses(mem, index, rec, later, size);
    assert later[o..o + FIXED] == w.mem[o..o + FIXED];
    FixedReads(later, o, Code(rec), Class(rec), Ttl(rec), w.index - (o + FIXED));
  }

  /** Nothing before the first record changes. */
  lemma {:induction false} WriteAllFrame(mem: seq<byte>, index: nat, recs: seq<Record>)
    requires Memory(mem) && index <= PACKET && (forall i :: 0 <= i < |recs| ==> Typed(recs[i]) && Sized(recs[i]))
    ensures var r := WriteAll(mem, index, recs); index <= r.index && Same(mem, r.mem, 0, index)
    decreases |recs|
  {
    hide Write, Sized, Typed;
    if recs != [] {
      var w := Write(mem, index, recs[0]);
      WriteFrames(mem, index, recs[0]);
      WriteAllFrame(w.mem, w.index, recs[1..]);
    }
  }

  lemma {:induction false} IntactSized(mem: seq<byte>, index: nat, recs: seq<Record>)
    requires Memory(mem) && index <= PACKET && (forall i :: 0 <= i < |recs| ==> Typed(recs[i]))
    requires AllIntact(mem, index, recs)
    ensures forall i :: 0 <= i < |recs| ==> Sized(recs[i])
    decreases |recs|
  {
    hide Write, Sized, Typed, Whole;
    if recs != [] {
      var w := Write(mem, index, recs[0]);
      IntactSized(w.mem, w.index, recs[1..]);
      forall i | 0 <= i < |recs| ensures Sized(recs[i]) {
        if i > 0 {
          assert recs[i] == recs[1..][i - 1];
        }
      }
    }
  }

  /** The parser walks over written records from start to start, ends cleanly at the end
      of the packet, and sees every record with its type, class, time to live, name and
      data span. */
  lemma {:induction false} WalkFindsRecords(mem: seq<byte>, index: nat, recs: seq<Record>, later: seq<byte>)
    requires Memory(mem) && index <= PACKET && (forall i :: 0 <= i < |recs| ==> Typed(recs[i]))
    requires AllIntact(mem, index, recs)
    requires var w := WriteAll(mem, index, recs); w.index < |later| && Same(w.mem, later, 0, w.index)
    ensures var w := WriteAll(mem, index, recs);
      var r := Walk(later, w.index, index);
      r.1 && |r.0| == |recs| && Seen(mem, index, recs, r.0)
    decreases |recs|
  {
    hide Write, Sized, Typed, Whole, Walk, SeenAs, Same;
    if recs == [] {
      assert Walk(later, index, index) == ([], true) by { WalkEnds(later, index); }
    } else {
      var w := Write(mem, index, recs[0]);
      var e := WriteAll(w.mem, w.index, recs[1..]);
      WalkFindsRecords(w.mem, w.index, recs[1..], later);
      IntactSized(w.mem, w.index, recs[1..]);
      WriteAllFrame(w.mem, w.index, recs[1..]);
      SameTrans(w.mem, e.mem, later, 0, w.index, e.index);
      WalkStep(mem, index, recs[0], later, e.index);
    }
  }

  lemma WalkEnds(packet: seq<byte>, size: nat)
    requires size < |packet|
    ensures Walk(packet, size, size) == ([], true)
  {
  }

  /** Each parsed record is the written one, and the next one starts where it ends. */
  ghost predicate Seen(mem: seq<byte>, index: nat, recs: seq<Record>, found: seq<Parsed>)
    requires Memory(mem) && index <= PACKET && |found| == |recs| && forall i :: 0 <= i < |recs| ==> Typed(recs[i])
    decreases |recs|
  {
    recs == [] ||
    (var w := Write(mem, index, recs[0]);
     SeenAs(found[0], recs[0], OwnerEnd(mem, index, recs[0]), w.index)
     && Seen(w.mem, w.index, recs[1..], found[1..]))
  }
}
